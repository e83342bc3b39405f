/** Short runs on which the calls do not fare as the design intends. Most need an emergency dial while a normal dial has
    no index yet: two calls of the table then have index 0. */
module CallPitfalls {
  import opened Options
  import opened CallTable
  import opened CallHandlers
  import opened CallSafety
  import opened CallOutcomes
  import opened CallRequests
  import opened CallReports
  import opened CallTracking
  import opened CallOnce
  import opened CallRuns
  import opened CallDeferrals
  import C = CallCommands

  function Dialed(id: int, ecc: bool): Call {
    Call(id, 0, 0, Cs, ecc, Outgoing, Dialing, Outbound, 0, true)
  }

  /** A normal dial that the stack accepts, from the empty table. */
  function NormalDial(): Task {
    Dial(0, Cs, 0, true, false, true, true)
  }

  function EccDial(accepted: bool): Task {
    Dial(0, Cs, 0, true, true, true, accepted)
  }

  lemma NormalStarts()
    ensures var s := Start().s;
      DialCall(s, LocalReport(0, Cs, 0), true, false, true, true)
      == StartReported(s.(dialing := true, restore := true), LocalReport(0, Cs, 0), true)
  {
    assert !NewCallBusy(Start().s.table) && !HasEcc(Start().s.table) && NewCallAllowed(Start().s.table);
  }

  lemma NormalTask()
    ensures Step(Start(), NormalDial()).s == DialCall(Start().s, LocalReport(0, Cs, 0), true, false, true, true).s
  {
  }

  lemma AfterNormalDial()
    ensures var s := Step(Start(), NormalDial()).s;
      && s == State([Dialed(1, false)], 1, Some(1), None, None, false, false, false, [StackDial(0)])
      && Inv(s)
  {
    var s0 := Start().s.(dialing := true, restore := true);
    NormalStarts();
    NormalTask();
    StartIs(s0, LocalReport(0, Cs, 0), true);
    CreateDialingEffect(s0, LocalReport(0, Cs, 0));
    DialCallOk(Start().s, LocalReport(0, Cs, 0), true, false, true, true);
  }

  /** One normal call that is dialing and has no index. */
  predicate OneDialed(s: State) {
    Inv(s) && s.table == [Dialed(1, false)] && s.lastId == 1
  }

  lemma EccCanBeCreated(s: State)
    requires OneDialed(s)
    ensures !EccRefused(s.table) && ByKey(s.table, 0, 0) == 0
    ensures CreateDialing(EccAdmitted(s, true), LocalReport(0, Cs, 0)).ok
  {
    assert HasKey(s.table[0], 0, 0);
  }

  lemma EccIsCreated(s: State)
    requires OneDialed(s)
    ensures var o := DialCall(s, LocalReport(0, Cs, 0), true, true, true, true);
      && o.s.table == [Dialed(1, false), Dialed(2, true)] && o.s.mo == Some(2)
      && o.s.hang == s.hang && o.s.protect == s.protect
  {
    EccCanBeCreated(s);
    CreateDialingEffect(EccAdmitted(s, true), LocalReport(0, Cs, 0));
  }

  lemma EccIsRefused(s: State)
    requires OneDialed(s)
    ensures OneEmergency(DialCall(s, LocalReport(0, Cs, 0), true, true, true, false).s)
  {
    EccCanBeCreated(s);
    RefusedEccDial(s, LocalReport(0, Cs, 0), true);
  }

  /** Only the emergency call is left. */
  predicate OneEmergency(s: State) {
    |s.table| == 1 && s.table[0].id == 2 && s.table[0].ecc
  }

  lemma EccTask(w: World, accepted: bool)
    requires |w.snapshots| == SLOT_COUNT
    ensures Step(w, EccDial(accepted)).s == DialCall(w.s, LocalReport(0, Cs, 0), true, true, true, accepted).s
  {
  }

  lemma RequestTask(w: World, id: int, posted: bool)
    requires |w.snapshots| == SLOT_COUNT
    ensures Step(w, HangUpRequest(id, posted)).s == HangUpCall(w.s, id, posted)
  {
  }

  // ---------------------------------------------------------------- the hang-up that is lost

  /** One dialed call whose hang-up waits, with its protect task. */
  predicate OneDeferred(s: State) {
    OneDialed(s) && s.mo == None && s.hang == Some(1) && s.protect == Some(1)
  }

  lemma AfterHangUp()
    ensures OneDeferred(Step(Step(Start(), NormalDial()), HangUpRequest(1, true)).s)
  {
    AfterNormalDial();
    var w1 := Step(Start(), NormalDial());
    HangUpIsDeferred(w1.s, 1, true);
    HangUpCallOk(w1.s, 1, true);
    RequestTask(w1, 1, true);
  }

  /** The hang-up of the second call waits, the first is lost, and the protect task is still the first call's. */
  predicate Overtaken(s: State) {
    && |s.table| == 2 && Unnamed(s.table, 1)
    && s.hang == Some(2) && s.mo == None && s.protect == Some(1)
    && ProtectFires(s) == s.(protect := None)
  }

  lemma Overtakes(s: State)
    requires Inv(s) && s.table == [Dialed(1, false), Dialed(2, true)] && s.mo == Some(2) && s.protect == Some(1)
    requires s.hang == Some(1)
    ensures Overtaken(HangUpCall(s, 2, true))
  {
    HangUpIsDeferred(s, 2, true);
    ProtectIdle(HangUpCall(s, 2, true));
  }

  lemma TwoDialed(w: World)
    requires |w.snapshots| == SLOT_COUNT && OneDialed(w.s)
    ensures var s := Step(w, EccDial(true)).s;
      && Inv(s) && s.table == [Dialed(1, false), Dialed(2, true)] && s.mo == Some(2)
      && s.hang == w.s.hang && s.protect == w.s.protect
  {
    EccTask(w, true);
    EccIsCreated(w.s);
    DialCallOk(w.s, LocalReport(0, Cs, 0), true, true, true, true);
  }

  /** Dial, hang up, dial an emergency number, hang up again: the second deferral overtakes the first. The first call
      has lost its deferred hang-up, and the protect task is still the first call's: when it fires, nothing happens,
      so the second call has no timeout either. */
  lemma DeferralIsOvertaken()
    ensures Overtaken(Exec(Start(), [NormalDial(), HangUpRequest(1, true), EccDial(true), HangUpRequest(2, true)]).s)
  {
    var w2 := Step(Step(Start(), NormalDial()), HangUpRequest(1, true));
    AfterHangUp();
    TwoDialed(w2);
    Overtakes(Step(w2, EccDial(true)).s);
    RequestTask(Step(w2, EccDial(true)), 2, true);
    FourTasks(Start(), NormalDial(), HangUpRequest(1, true), EccDial(true), HangUpRequest(2, true));
  }

  /** The emergency call's hang-up was neither sent nor is it waiting, and the normal call is gone. */
  predicate OtherWasTaken(s: State) {
    ById(s.table, 1) < 0 && Unnamed(s.table, 2) && !Flags(s, 2) && !SentFor(s.log, 2)
  }

  lemma ProtectDrops(w: World)
    requires WorldOk(w) && w.s.table == [Dialed(1, false), Dialed(2, true)] && w.s.hang == w.s.protect == Some(2)
    ensures OtherWasTaken(Step(w, ProtectTimer).s)
  {
    assert HasKey(w.s.table[0], 0, 0) && ById(w.s.table, 2) == 1 && ByKey(w.s.table, 0, 0) == 0;
    HangUpFate(w, ProtectTimer, 2);
    ProtectTakesFirst(w.s, 1);
    DeleteTakesOne(w.s.table, 0, 0);
    assert !SentFor(w.s.log, 2);
    SameSent(w.s.log, Step(w, ProtectTimer).s.log, 2);
  }

  /** The state the protect task below meets. */
  lemma EccDeferred()
    ensures var w := Step(Step(Step(Start(), NormalDial()), EccDial(true)), HangUpRequest(2, true));
      WorldOk(w) && w.s.table == [Dialed(1, false), Dialed(2, true)] && w.s.hang == w.s.protect == Some(2)
  {
    var w1 := Step(Start(), NormalDial());
    var w2 := Step(w1, EccDial(true));
    AfterNormalDial();
    TwoDialed(w1);
    HangUpIsDeferred(w2.s, 2, true);
    RequestTask(w2, 2, true);
    StartOk();
    StepOk(Start(), NormalDial());
    StepOk(w1, EccDial(true));
    StepOk(w2, HangUpRequest(2, true));
  }

  /** Dial, dial an emergency number, and hang that up: when the protect task fires for the emergency call, the normal
      call is taken out. The emergency call stays without an index, and its hang-up is never sent. */
  lemma TimeoutTakesAnother()
    ensures OtherWasTaken(Exec(Start(), [NormalDial(), EccDial(true), HangUpRequest(2, true), ProtectTimer]).s)
  {
    EccDeferred();
    ProtectDrops(Step(Step(Step(Start(), NormalDial()), EccDial(true)), HangUpRequest(2, true)));
    FourTasks(Start(), NormalDial(), EccDial(true), HangUpRequest(2, true), ProtectTimer);
  }

  lemma OnlyDeferred(s: State)
    requires OneDeferred(s)
    ensures s.table[0].id == 1 && s.table[0].index == 0 && s.table[0].slot == 0 && ByKey(s.table, 0, 0) == 0
  {
    assert HasKey(s.table[0], 0, 0);
  }

  lemma ProtectTask(w: World)
    requires |w.snapshots| == SLOT_COUNT
    ensures Step(w, ProtectTimer).s == ProtectFires(w.s)
  {
  }

  lemma TimesOut(s: State)
    requires OneDeferred(s)
    ensures Deferred(1, 0, 0) in ProtectFires(s).log
  {
    OnlyDeferred(s);
    ProtectOwn(s, 0);
    GoesOutInLog(s, ProtectFires(s), 1, 0, 0);
  }

  /** With one call only, the protect task sends the hang-up, but for index 0: the call never got one. */
  lemma TimeoutSendsNoIndex()
    ensures Deferred(1, 0, 0) in Exec(Start(), [NormalDial(), HangUpRequest(1, true), ProtectTimer]).s.log
  {
    AfterHangUp();
    var w2 := Step(Step(Start(), NormalDial()), HangUpRequest(1, true));
    TimesOut(w2.s);
    ProtectTask(w2);
    ThreeTasks(Start(), NormalDial(), HangUpRequest(1, true), ProtectTimer);
  }

  // ---------------------------------------------------------------- runs of several tasks

  lemma FourTasks(w: World, k1: Task, k2: Task, k3: Task, k4: Task)
    requires |w.snapshots| == SLOT_COUNT
    ensures Exec(w, [k1, k2, k3, k4]) == Step(Step(Step(Step(w, k1), k2), k3), k4)
  {
    assert [k1, k2, k3, k4][1..] == [k2, k3, k4] && [k2, k3, k4][1..] == [k3, k4];
    assert Exec(w, [k1, k2, k3, k4]) == Exec(Step(w, k1), [k2, k3, k4]);
    assert Exec(Step(w, k1), [k2, k3, k4]) == Exec(Step(Step(w, k1), k2), [k3, k4]);
    TwoTasks(Step(Step(w, k1), k2), k3, k4);
  }

  /** An emergency dial the stack refuses, over a normal dial without an index: the normal call is taken out of the
      table and the emergency call that failed stays in it. */
  lemma WrongCallFails()
    ensures OneEmergency(Exec(Start(), [NormalDial(), EccDial(false)]).s)
  {
    AfterNormalDial();
    var w1 := Step(Start(), NormalDial());
    EccIsRefused(w1.s);
    EccTask(w1, false);
    TwoTasks(Start(), NormalDial(), EccDial(false));
  }

  lemma TwoTasks(w: World, k1: Task, k2: Task)
    requires |w.snapshots| == SLOT_COUNT
    ensures Exec(w, [k1, k2]) == Step(Step(w, k1), k2)
  {
    assert [k1, k2][1..] == [k2];
    assert Exec(Step(w, k1), [k2]) == Step(Step(w, k1), k2);
  }

  // ---------------------------------------------------------------- two dialed calls on two slots

  function EccDialElsewhere(): Task {
    Dial(1, Cs, 0, true, true, true, true)
  }

  /** The first report of the emergency call, on its own slot. */
  function FirstReport(): Report {
    Report(1, 1, Dialing, Cs, 0, 0)
  }

  /** Two dialed calls, on two slots. */
  predicate OnTwoSlots(s: State) {
    Inv(s) && s.table == [Dialed(1, false), Dialed(2, true).(slot := 1)]
  }

  lemma EccIsCreatedElsewhere(s: State)
    requires OneDialed(s)
    ensures var s' := DialCall(s, LocalReport(1, Cs, 0), true, true, true, true).s;
      OnTwoSlots(s') && s'.hang == s.hang
  {
    CreateDialingEffect(EccAdmitted(s, true), LocalReport(1, Cs, 0));
    DialCallOk(s, LocalReport(1, Cs, 0), true, true, true, true);
  }

  lemma EccElsewhere(w: World)
    requires |w.snapshots| == SLOT_COUNT && OneDialed(w.s)
    ensures var s' := Step(w, EccDialElsewhere()).s; OnTwoSlots(s') && s'.hang == w.s.hang
  {
    EccIsCreatedElsewhere(w.s);
  }

  /** The state both runs below end in. */
  lemma WrongCallIsReached(s: State)
    requires OnTwoSlots(s)
    ensures var s' := Handle(s, FirstReport());
      && ById(s'.table, 1) >= 0 && HasKey(s'.table[ById(s'.table, 1)], 1, 1) && Unnamed(s'.table, 2)
      && (s.hang == Some(1) ==> Deferrals(s'.log) == Deferrals(s.log) + [Deferred(1, 1, 1)])
  {
    var r := FirstReport();
    assert HasKey(s.table[1], 0, 1) && ByIndex(s.table, 0) == 0;
    ReportNames(s, r);
    HandleOk(s, r);
    OtherStays(s.table, Handle(s, r).table, 1, 1);
    C.DeferredHangUpIsSent(s, r);
  }

  lemma ThreeTasks(w: World, k1: Task, k2: Task, k3: Task)
    requires |w.snapshots| == SLOT_COUNT
    ensures Exec(w, [k1, k2, k3]) == Step(Step(Step(w, k1), k2), k3)
  {
    assert [k1, k2, k3][1..] == [k2, k3];
    TwoTasks(Step(w, k1), k2, k3);
  }

  /** Dial on slot 0, dial an emergency number on slot 1, and the stack reports the emergency call: the call of slot 0
      takes its slot and index, and the emergency call stays without one. */
  lemma WrongCallIsNamed()
    ensures var t := Exec(Start(), [NormalDial(), EccDialElsewhere(), CallReport(FirstReport())]).s.table;
      ById(t, 1) >= 0 && HasKey(t[ById(t, 1)], 1, 1) && Unnamed(t, 2)
  {
    AfterNormalDial();
    var w1 := Step(Start(), NormalDial());
    EccElsewhere(w1);
    WrongCallIsReached(Step(w1, EccDialElsewhere()).s);
    ThreeTasks(Start(), NormalDial(), EccDialElsewhere(), CallReport(FirstReport()));
  }

  lemma WrongCallEnds(s: State)
    requires OnTwoSlots(s)
    ensures var t := Handle(s, FirstReport().(tel := Disconnected)).table; ById(t, 1) < 0 && Unnamed(t, 2)
  {
    var r := FirstReport().(tel := Disconnected);
    assert HasKey(s.table[1], 0, 1) && ByIndex(s.table, 0) == 0;
    ReportNames(s, r);
    HandleOk(s, r);
    OtherStays(s.table, Handle(s, r).table, 1, 1);
  }

  /** The same two dials, and the stack reports the end of the emergency call: the call of slot 0 ends. */
  lemma WrongCallIsEnded()
    ensures var t := Exec(Start(), [NormalDial(), EccDialElsewhere(),
                                    CallReport(FirstReport().(tel := Disconnected))]).s.table;
      ById(t, 1) < 0 && Unnamed(t, 2)
  {
    AfterNormalDial();
    var w1 := Step(Start(), NormalDial());
    EccElsewhere(w1);
    WrongCallEnds(Step(w1, EccDialElsewhere()).s);
    ThreeTasks(Start(), NormalDial(), EccDialElsewhere(), CallReport(FirstReport().(tel := Disconnected)));
  }

  /** The first of these runs with a hang-up of the first call in between: it goes out with the slot and index of the
      emergency call. */
  lemma WrongCallIsHungUp()
    ensures var w := Exec(Start(), [NormalDial(), HangUpRequest(1, true), EccDialElsewhere(),
                                    CallReport(FirstReport())]);
      Deferred(1, 1, 1) in w.s.log && Unnamed(w.s.table, 2)
  {
    var w2 := Step(Step(Start(), NormalDial()), HangUpRequest(1, true));
    AfterHangUp();
    EccElsewhere(w2);
    var w3 := Step(w2, EccDialElsewhere());
    WrongCallIsReached(w3.s);
    DeferralsAreSent(Handle(w3.s, FirstReport()).log);
    assert Deferred(1, 1, 1) in Deferrals(Handle(w3.s, FirstReport()).log);
    FourTasks(Start(), NormalDial(), HangUpRequest(1, true), EccDialElsewhere(), CallReport(FirstReport()));
  }

  // ---------------------------------------------------------------- reports a call does not follow

  function Reported(tel: Tel): Report {
    Report(0, 1, tel, Cs, 0, 0)
  }

  /** One call, which came in with index 1 on slot 0. */
  predicate OneKnown(s: State, tel: Tel) {
    Inv(s) && |s.table| == 1 && HasKey(s.table[0], 1, 0) && s.table[0].tel == tel && s.table[0].kind == Cs
  }

  lemma AfterIncoming()
    ensures var s := Step(Start(), CallReport(Reported(Ringing))).s; OneKnown(s, Ringing) && s.table[0].video == 0
  {
    HandleOk(Start().s, Reported(Ringing));
    CreateIncomingEffect(Start().s, Reported(Ringing));
    IncomingIs(Start().s, Reported(Ringing));
  }

  lemma OneStays(t: seq<Call>, t': seq<Call>, id: int)
    requires |t| == 1 && t[0].id == id && ById(t', id) >= 0 && Delete(t', id) == Delete(t, id)
    ensures |t'| == 1
  {
  }

  lemma OneStep(s: State, tel: Tel, next: Tel)
    requires OneKnown(s, tel) && next != Disconnected && next != Tel.Other
    ensures OneKnown(Handle(s, Reported(next)), if Follows(s.table[0], Reported(next)) then next else tel)
  {
    var r := Reported(next);
    assert ByKey(s.table, 1, 0) == 0 && ByIndex(s.table, 0) < 0;
    HandleOk(s, r);
    ReportIsTaken(s, r);
    OneStays(s.table, Handle(s, r).table, s.table[0].id);
  }

  /** A dialing report leaves an active call active. */
  lemma DialingDoesNotMove()
    ensures OneKnown(Exec(Start(), [CallReport(Reported(Ringing)), CallReport(Reported(Active)),
                                    CallReport(Reported(Dialing))]).s, Active)
  {
    AfterIncoming();
    var w1 := Step(Start(), CallReport(Reported(Ringing)));
    OneStep(w1.s, Ringing, Active);
    OneStep(Handle(w1.s, Reported(Active)), Active, Dialing);
    ThreeTasks(Start(), CallReport(Reported(Ringing)), CallReport(Reported(Active)), CallReport(Reported(Dialing)));
  }

  /** A waiting report leaves a ringing call ringing. */
  lemma WaitingDoesNotMove()
    ensures OneKnown(Exec(Start(), [CallReport(Reported(Ringing)), CallReport(Reported(Waiting))]).s, Ringing)
  {
    AfterIncoming();
    OneStep(Step(Start(), CallReport(Reported(Ringing))).s, Ringing, Waiting);
    TwoTasks(Start(), CallReport(Reported(Ringing)), CallReport(Reported(Waiting)));
  }

  /** An alerting report leaves a disconnecting call disconnecting. */
  lemma AlertingDoesNotMove()
    ensures OneKnown(Exec(Start(), [CallReport(Reported(Ringing)), CallReport(Reported(Disconnecting)),
                                    CallReport(Reported(Alerting))]).s, Disconnecting)
  {
    AfterIncoming();
    var w1 := Step(Start(), CallReport(Reported(Ringing)));
    OneStep(w1.s, Ringing, Disconnecting);
    OneStep(Handle(w1.s, Reported(Disconnecting)), Disconnecting, Alerting);
    ThreeTasks(Start(), CallReport(Reported(Ringing)), CallReport(Reported(Disconnecting)),
               CallReport(Reported(Alerting)));
  }

  // ---------------------------------------------------------------- a call that is never taken up

  function Again(k: Task, n: nat): seq<Task> {
    if n == 0 then [] else [k] + Again(k, n - 1)
  }

  function HeldReport(): Task {
    CallsReport(0, [Reported(Holding)])
  }

  function AfterHeld(): World {
    World(Start().s, [[Reported(Holding)], []])
  }

  lemma SameEntryIsSilent(r: Report)
    requires r.tel != Alerting
    ensures Diff([r], [r]) == []
  {
    assert EntryAt([r], r.index) == 0;
    assert Departures([r][1..], [r]) == [];
    assert Arrivals([r], [r][1..]) == [];
  }

  lemma HeldFirst()
    ensures Step(Start(), HeldReport()) == AfterHeld()
  {
    var r := Reported(Holding);
    assert Arrivals([], [r]) == [r];
    assert HandleAll(Start().s, [r]) == HandleAll(Handle(Start().s, r), []);
    assert Kept([r]) == [r];
  }

  lemma SilentBatch(w: World, slot: int, news: seq<Report>)
    requires |w.snapshots| == SLOT_COUNT && 0 <= slot < SLOT_COUNT
    requires Diff(w.snapshots[slot], news) == [] && Kept(news) == w.snapshots[slot]
    ensures Step(w, CallsReport(slot, news)) == w
  {
  }

  lemma HeldAgain()
    ensures Step(AfterHeld(), HeldReport()) == AfterHeld()
  {
    SameEntryIsSilent(Reported(Holding));
    assert Kept([Reported(Holding)]) == [Reported(Holding)];
    SilentBatch(AfterHeld(), 0, [Reported(Holding)]);
  }

  lemma {:induction false} StaysPut(w: World, k: Task, n: nat)
    requires |w.snapshots| == SLOT_COUNT && Step(w, k) == w
    ensures Exec(w, Again(k, n)) == w
  {
    if n > 0 {
      assert Again(k, n)[1..] == Again(k, n - 1);
      StaysPut(w, k, n - 1);
    }
  }

  /** A held call the call manager does not know is listed in every report and never gets into the table, however often
      it is reported. */
  lemma HeldIsNeverTakenUp(n: nat)
    ensures var w := Exec(Start(), Again(HeldReport(), n + 1));
      w.s.table == [] && w.snapshots[0] == [Reported(Holding)]
  {
    HeldFirst();
    HeldAgain();
    assert Again(HeldReport(), n + 1)[1..] == Again(HeldReport(), n);
    StaysPut(AfterHeld(), HeldReport(), n);
  }

  // ---------------------------------------------------------------- a full table

  /** Four calls that came in and one emergency call. */
  function FullTable(): seq<Call> {
    Rung(4) + [Dialed(5, true)]
  }

  function Rung(n: nat): seq<Call> {
    if n == 0 then [] else Rung(n - 1) + [Received(n)]
  }

  function Received(n: int): Call {
    Call(n, 0, n, Cs, false, Incoming, Ringing, Inbound, 0, true)
  }

  /** The n-th call comes in. */
  function Rings(n: int): Task {
    CallReport(Report(0, n, Ringing, Cs, 0, 0))
  }

  function RingAll(n: nat): seq<Task> {
    if n == 0 then [] else RingAll(n - 1) + [Rings(n)]
  }

  lemma {:induction false} RungIs(n: nat)
    ensures |Rung(n)| == n && forall i | 0 <= i < n :: Rung(n)[i] == Received(i + 1)
  {
    if n > 0 {
      RungIs(n - 1);
    }
  }

  lemma {:induction false} ExecAppend(w: World, ks: seq<Task>, more: seq<Task>)
    requires |w.snapshots| == SLOT_COUNT
    ensures Exec(w, ks + more) == Exec(Exec(w, ks), more)
    decreases |ks|
  {
    if ks == [] {
      assert ks + more == more;
    } else {
      assert (ks + more)[1..] == ks[1..] + more;
      ExecAppend(Step(w, ks[0]), ks[1..], more);
    }
  }

  lemma ExecOne(w: World, k: Task)
    requires |w.snapshots| == SLOT_COUNT
    ensures Exec(w, [k]) == Step(w, k)
  {
    assert Exec(w, [k]) == Exec(Step(w, k), []);
  }

  /** The first n calls have come in. */
  predicate RingingCalls(s: State, n: nat) {
    Inv(s) && s.table == Rung(n) && s.lastId == n
  }

  lemma OneMoreRings(s: State, n: nat)
    requires RingingCalls(s, n) && n < 4
    ensures RingingCalls(Handle(s, Report(0, n + 1, Ringing, Cs, 0, 0)), n + 1)
  {
    var r := Report(0, n + 1, Ringing, Cs, 0, 0);
    RungIs(n);
    HandleOk(s, r);
    assert ByIndex(s.table, 0) < 0 && !Found(s, r);
    IncomingIs(s, r);
    CreateIncomingEffect(s, r);
  }

  lemma RingTask(w: World, n: nat)
    requires |w.snapshots| == SLOT_COUNT && RingingCalls(w.s, n) && n < 4
    ensures RingingCalls(Step(w, Rings(n + 1)).s, n + 1)
  {
    OneMoreRings(w.s, n);
  }

  lemma RingAllNext(w: World, n: nat)
    requires |w.snapshots| == SLOT_COUNT
    ensures Exec(w, RingAll(n + 1)) == Step(Exec(w, RingAll(n)), Rings(n + 1))
  {
    assert RingAll(n + 1) == RingAll(n) + [Rings(n + 1)];
    ExecAppend(w, RingAll(n), [Rings(n + 1)]);
    ExecOne(Exec(w, RingAll(n)), Rings(n + 1));
  }

  /** The first n calls have rung, one after the other. */
  predicate AfterRings(w: World, n: nat)
    requires |w.snapshots| == SLOT_COUNT
  {
    RingingCalls(Exec(w, RingAll(n)).s, n)
  }

  lemma NoneRings(w: World)
    requires |w.snapshots| == SLOT_COUNT && RingingCalls(w.s, 0)
    ensures AfterRings(w, 0)
  {
    assert Exec(w, []) == w;
  }

  lemma OneMoreInRun(w: World, n: nat)
    requires |w.snapshots| == SLOT_COUNT && AfterRings(w, n) && n < 4
    ensures AfterRings(w, n + 1)
  {
    RingAllNext(w, n);
    RingTask(Exec(w, RingAll(n)), n);
  }

  lemma {:induction false} AllRing(w: World, n: nat)
    requires |w.snapshots| == SLOT_COUNT && AfterRings(w, 0) && n <= 4
    ensures AfterRings(w, n)
  {
    hide AfterRings;
    if n > 0 {
      AllRing(w, n - 1);
      OneMoreInRun(w, n - 1);
    }
  }

  lemma EccFills(s: State)
    requires RingingCalls(s, 4)
    ensures var s' := DialCall(s, LocalReport(0, Cs, 0), true, true, true, true).s; Inv(s') && s'.table == FullTable()
  {
    RungIs(4);
    assert !EccRefused(s.table);
    CreateDialingEffect(EccAdmitted(s, true), LocalReport(0, Cs, 0));
    DialCallOk(s, LocalReport(0, Cs, 0), true, true, true, true);
  }

  /** The first call is reported as active, and as an IMS call. */
  function ChangedReport(): Report {
    Report(0, 1, Active, Ims, 0, 0)
  }

  lemma LostByReport(s: State, r: Report, c: Call)
    requires Inv(s) && Found(s, r) && r.index > 0 && r.tel == Active && c == Known(s, r) && Loses(s.table, c, r)
    ensures ById(Handle(s, r).table, c.id) < 0
  {
    ReportIsTaken(s, r);
  }

  lemma FullLoses(s: State)
    requires Inv(s) && s.table == FullTable()
    ensures ById(Handle(s, ChangedReport()).table, 1) < 0
  {
    RungIs(4);
    assert s.table[0] == Received(1) && HasKey(s.table[0], 1, 0) && ByKey(s.table, 1, 0) == 0;
    LostByReport(s, ChangedReport(), Received(1));
  }

  /** Four calls ring, an emergency call fills the table, and a report that the first call is active with another type
      takes that call away. */
  lemma FullTableLosesCall()
    ensures var w := Exec(Start(), RingAll(4) + [EccDial(true)]);
      w.s.table == FullTable() && ById(Step(w, CallReport(ChangedReport())).s.table, 1) < 0
  {
    var w4 := Exec(Start(), RingAll(4));
    assert RingingCalls(Start().s, 0);
    NoneRings(Start());
    AllRing(Start(), 4);
    ExecAppend(Start(), RingAll(4), [EccDial(true)]);
    ExecOne(w4, EccDial(true));
    EccTask(w4, true);
    EccFills(w4.s);
    FullLoses(Step(w4, EccDial(true)).s);
  }

  // ---------------------------------------------------------------- the emergency mark

  /** The normal call, once its first report has named it. */
  function NamedCall(): Call {
    Dialed(1, false).(index := 1)
  }

  lemma FirstNames(s: State)
    requires OneDialed(s) && s.mo == Some(1) && s.hang == None
    ensures var s' := Handle(s, Reported(Dialing)); Inv(s') && s'.table == [NamedCall()] && s'.lastId == 1
  {
    var r := Reported(Dialing);
    assert HasKey(s.table[0], 0, 0) && ByKey(s.table, 0, 0) == 0 && ByKey(s.table, 1, 0) < 0;
    HandleOk(s, r);
    RefreshIfNecessaryIs(s, s.table[0], r);
  }

  lemma EccOverNamed(s: State)
    requires Inv(s) && s.table == [NamedCall()] && s.lastId == 1
    ensures var s' := DialCall(s, LocalReport(0, Cs, 0), true, true, true, true).s;
      Inv(s') && s'.table == [NamedCall(), Dialed(2, true)] && s'.dialEcc
  {
    assert !EccRefused(s.table);
    CreateDialingEffect(EccAdmitted(s, true), LocalReport(0, Cs, 0));
    DialCallOk(s, LocalReport(0, Cs, 0), true, true, true, true);
  }

  /** The normal call is reported again, as an IMS call. */
  function OtherType(): Report {
    Report(0, 1, Dialing, Ims, 0, 0)
  }

  lemma TakesMark(s: State)
    requires Inv(s) && s.table == [NamedCall(), Dialed(2, true)] && s.dialEcc
    ensures var t := Handle(s, OtherType()).table; |t| == 2 && t[1].id == 1 && t[1].ecc
  {
    var c, r := NamedCall(), OtherType();
    assert HasKey(s.table[0], 1, 0) && ByKey(s.table, 1, 0) == 0;
    assert Delete(s.table, 1) == [Dialed(2, true)];
    RefreshIfNecessaryIs(s, c, r);
    assert Put(s.table, c) == s.table;
    assert Handle(s, r) == Refresh(s.(table := s.table), c, r).s;
  }

  /** Dial, the call is named, dial an emergency number, and the first call is reported with another type: the normal
      call carries the emergency mark. */
  lemma MarkIsTaken()
    ensures var t := Exec(Start(), [NormalDial(), CallReport(Reported(Dialing)), EccDial(true),
                                    CallReport(OtherType())]).s.table;
      |t| == 2 && t[1].id == 1 && t[1].ecc
  {
    AfterNormalDial();
    var w1 := Step(Start(), NormalDial());
    FirstNames(w1.s);
    var w2 := Step(w1, CallReport(Reported(Dialing)));
    EccOverNamed(w2.s);
    EccTask(w2, true);
    TakesMark(Step(w2, EccDial(true)).s);
    FourTasks(Start(), NormalDial(), CallReport(Reported(Dialing)), EccDial(true), CallReport(OtherType()));
  }
}
