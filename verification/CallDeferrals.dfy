/** The fate of a hang-up that waits for its call's index, over every task and over whole runs. */
module CallDeferrals {
  import opened Options
  import opened CallTable
  import opened CallHandlers
  import opened CallSafety
  import opened CallOutcomes
  import opened CallRequests
  import opened CallReports
  import opened CallTracking
  import opened CallOnce
  import opened CallRuns
  import C = CallCommands
  import O = CallOrders

  // ---------------------------------------------------------------- the three outcomes

  /** The hang-up goes on waiting, for a call that still has no index. */
  predicate Waits(s: State, s': State, id: int) {
    s'.hang == Some(id) && Unnamed(s'.table, id) && Deferrals(s'.log) == Deferrals(s.log)
  }

  /** It was sent, once, and nothing else was. */
  predicate GoesOut(s: State, s': State, id: int, slot: int, index: int) {
    s'.hang == None && Deferrals(s'.log) == Deferrals(s.log) + [Deferred(id, slot, index)]
  }

  /** It was not sent, its call still has no index, and no flag names the call any more. */
  predicate Lost(s: State, s': State, id: int) {
    !Flags(s', id) && Unnamed(s'.table, id) && Deferrals(s'.log) == Deferrals(s.log)
  }

  /** The call a hang-up request means. */
  function Chosen(s: State, callId: int): int {
    if callId == 0 then Foreground(s.table) else callId
  }

  /** The tasks that lose the hang-up waiting for this call: a request that defers the hang-up of another call, and the
      call's protect task, if another call without an index stands before it on its slot. */
  predicate Drops(s: State, k: Task, id: int) {
    match k
    case HangUpRequest(callId, _) => s.mo == Some(Chosen(s, callId))
    case ProtectTimer =>
      s.protect == Some(id) && var i := ById(s.table, id); i >= 0 && ByKey(s.table, 0, s.table[i].slot) != i
    case _ => false
  }

  // ---------------------------------------------------------------- what each task sends

  /** At most the hang-up that waits goes out. */
  predicate SendsAtMost(s: State, s': State, slot: int, index: int) {
    Sends(s, s', []) || (s.hang.Some? && Sends(s, s', [Deferred(s.hang.value, slot, index)]))
  }

  lemma WaitingPlace(s: State)
    requires Inv(s) && s.hang.Some?
    ensures var i := ById(s.table, s.hang.value); i >= 0 && s.table[i].index == 0 && s.hang.value <= s.lastId
  {
    var i :| 0 <= i < |s.table| && s.table[i].id == s.hang.value && s.table[i].index == 0;
    FoundById(s.table, i);
  }

  /** The slot of the call that is waited for. */
  function WaitingSlot(s: State): int
    requires s.hang.Some? ==> ById(s.table, s.hang.value) >= 0
  {
    if s.hang.Some? then s.table[ById(s.table, s.hang.value)].slot else 0
  }

  /** A failed dial sends the hang-up that waits for the call it takes out. */
  lemma FailSends(s: State, k: int)
    requires Core(s) && 0 <= k < |s.table|
    ensures var c := s.table[k]; var first := ByKey(s.table, c.index, c.slot);
      first >= 0 && Sends(s, DealFailDial(s, c), Owed(s, s.table[first].id, c.slot, c.index))
  {
    assert HasKey(s.table[k], s.table[k].index, s.table[k].slot);
    DisconnectedSends(s, FailReport(s.table[k]));
  }

  lemma OwedAtFirst(s: State, c: Call, first: int)
    requires UniqueIds(s.table) && 0 <= first < |s.table| && HasKey(s.table[first], c.index, c.slot)
    requires s.hang.Some? ==> ById(s.table, s.hang.value) >= 0 && s.table[ById(s.table, s.hang.value)].index == 0
    ensures Owed(s, s.table[first].id, c.slot, c.index)
         == if s.hang == Some(s.table[first].id) then [Deferred(s.hang.value, WaitingSlot(s), 0)] else []
  {
    FoundById(s.table, first);
  }

  lemma RequestFailedSends(s: State)
    requires Inv(s)
    ensures s.hang.Some? ==> ById(s.table, s.hang.value) >= 0
    ensures SendsAtMost(s, RequestFailed(s), WaitingSlot(s), 0)
  {
    if s.hang.Some? {
      WaitingPlace(s);
    }
    var k := LastRunning(s.table, Outbound);
    if k >= 0 {
      var c := s.table[k];
      FailSends(s, k);
      OwedAtFirst(s, c, ByKey(s.table, c.index, c.slot));
    }
  }

  lemma {:induction false} NoDeferrals(log: seq<Command>, more: seq<Command>)
    requires forall i | 0 <= i < |more| :: !more[i].Deferred?
    ensures Deferrals(log + more) == Deferrals(log)
  {
    if more == [] {
      assert log + more == log;
    } else {
      var init := more[..|more| - 1];
      NoDeferrals(log, init);
      assert log + more == (log + init) + [more[|more| - 1]];
      DeferralsOfOne(log + init, more[|more| - 1]);
    }
  }

  lemma ClearTheLineSends(s: State)
    ensures Sends(s, ClearTheLine(s), [])
  {
    var h, r := HangUpAll(s.table, false), HangUpAll(s.table, true);
    NoneDeferred(s.table, false);
    NoneDeferred(s.table, true);
    NoDeferrals(s.log, h);
    NoDeferrals(s.log + h, r);
  }

  /** The dial the stack refuses fails the first unnamed call of its slot. */
  lemma RefusalSends(s: State, r: Report)
    requires Core(s) && Local(r) && CreateDialing(s, r).ok
    ensures var s3 := Sent(CreateDialing(s, r).s, StackDial(r.slot));
      exists first | 0 <= first < |s3.table| :: HasKey(s3.table[first], 0, r.slot)
        && Sends(s3, HandleDialFail(s3).s, Owed(s3, s3.table[first].id, r.slot, 0))
  {
    CreateDialingEffect(s, r);
    CreateDialingOk(s, r);
    var s3 := Sent(CreateDialing(s, r).s, StackDial(r.slot));
    assert s3.table == s.table + [Created(s, r)] && s3.table[|s.table|] == Created(s, r);
    DialedIsLast(s3, s.table, Created(s, r));
    FailSends(s3, |s.table|);
  }

  lemma SendsThen(s: State, s1: State, s2: State, ds: seq<Command>)
    requires Sends(s, s1, []) && Sends(s1, s2, ds)
    ensures Sends(s, s2, ds)
  {
    assert Deferrals(s.log) + [] == Deferrals(s.log);
  }

  lemma CreatingSends(s: State, r: Report)
    requires Core(s) && Local(r)
    ensures var o := CreateDialing(s, r);
      && (o.ok ==> Sends(s, Sent(o.s, StackDial(r.slot)), [])) && (!o.ok ==> Sends(s, FlagCleared(o.s), []))
      && o.s.hang == s.hang
      && (o.ok ==> o.s.table == s.table + [Created(s, r)])
  {
    CreateDialingEffect(s, r);
    DeferralsOfOne(s.log, StackDial(r.slot));
    assert Deferrals(s.log) + [] == Deferrals(s.log);
  }

  /** The call that is waited for has its place. */
  predicate Placed(s: State) {
    s.hang.Some? ==>
      && ById(s.table, s.hang.value) >= 0 && s.table[ById(s.table, s.hang.value)].index == 0
      && s.hang.value <= s.lastId
  }

  /** The call just created is not the one that is waited for. */
  lemma OwedBefore(s: State, s3: State, c: Call, first: int, slot: int)
    requires UniqueIds(s.table) && Placed(s) && s3.table == s.table + [c] && c.id > s.lastId && s3.hang == s.hang
    requires 0 <= first < |s3.table| && HasKey(s3.table[first], 0, slot)
    ensures Owed(s3, s3.table[first].id, slot, 0) == []
      || (s.hang.Some? && Owed(s3, s3.table[first].id, slot, 0) == [Deferred(s.hang.value, WaitingSlot(s), 0)])
  {
    if s.hang == Some(s3.table[first].id) {
      assert s3.table[first] == s.table[first];
      FoundById(s.table, first);
    }
  }

  lemma RefusedSends(s: State, r: Report)
    requires Core(s) && Local(r) && Placed(s) && CreateDialing(s, r).ok
    ensures SendsAtMost(s, HandleDialFail(Sent(CreateDialing(s, r).s, StackDial(r.slot))).s, WaitingSlot(s), 0)
  {
    var s3 := Sent(CreateDialing(s, r).s, StackDial(r.slot));
    CreatingSends(s, r);
    RefusalSends(s, r);
    var first :| 0 <= first < |s3.table| && HasKey(s3.table[first], 0, r.slot)
      && Sends(s3, HandleDialFail(s3).s, Owed(s3, s3.table[first].id, r.slot, 0));
    OwedBefore(s, s3, Created(s, r), first, r.slot);
    SendsThen(s, s3, HandleDialFail(s3).s, Owed(s3, s3.table[first].id, r.slot, 0));
  }

  lemma StartIs(s: State, r: Report, accepted: bool)
    requires Local(r)
    ensures var o := CreateDialing(s, r); var s' := StartReported(s, r, accepted).s;
      s' == if !o.ok then FlagCleared(o.s)
            else if accepted then Sent(o.s, StackDial(r.slot)) else HandleDialFail(Sent(o.s, StackDial(r.slot))).s
  {
  }

  lemma StartSends(s: State, r: Report, accepted: bool)
    requires Core(s) && Local(r) && Placed(s)
    ensures SendsAtMost(s, StartReported(s, r, accepted).s, WaitingSlot(s), 0)
  {
    StartIs(s, r, accepted);
    CreatingSends(s, r);
    if CreateDialing(s, r).ok && !accepted {
      RefusedSends(s, r);
    }
  }

  lemma SendsAtMostThen(s: State, s1: State, s2: State, slot: int)
    requires Sends(s, s1, []) && SendsAtMost(s1, s2, slot, 0)
    ensures SendsAtMost(s, s2, slot, 0)
  {
    if Sends(s1, s2, []) {
      SendsThen(s, s1, s2, []);
    } else {
      SendsThen(s, s1, s2, [Deferred(s1.hang.value, slot, 0)]);
    }
  }

  lemma DialSends(s: State, r: Report, allowed: bool, ecc: bool, posted: bool, accepted: bool)
    requires Inv(s) && Local(r) && Placed(s)
    ensures SendsAtMost(s, DialCall(s, r, allowed, ecc, posted, accepted).s, WaitingSlot(s), 0)
  {
    DialIs(s, r, allowed, ecc, posted, accepted);
    assert Deferrals(s.log) + [] == Deferrals(s.log);
    if ecc || !HasEcc(s.table) {
      var s1 := s.(dialEcc := ecc, dialing := true, restore := posted);
      var s2 := if ecc then ClearTheLine(s1) else s1;
      ClearTheLineSends(s1);
      assert Core(s2) && Sends(s, s2, []);
      StartSends(s2, r, accepted);
      SendsAtMostThen(s, s2, StartReported(s2, r, accepted).s, WaitingSlot(s));
    }
  }

  // Hang-ups, rejects and resumes that are posted leave the deferred hang-up alone.

  lemma HangUpTaskSends(s: State, id: int)
    ensures Sends(s, HangUpTask(s, id), [])
  {
    var k := ById(s.table, id);
    assert Deferrals(s.log) + [] == Deferrals(s.log);
    if k >= 0 {
      DeferralsOfOne(s.log, HangUp(id, s.table[k].slot, s.table[k].index));
    }
  }

  lemma RejectTaskSends(s: State, id: int, sent: bool)
    ensures Sends(s, RejectTask(s, id, sent), [])
  {
    HangUpTaskSends(s, id);
    assert Deferrals(s.log) + [] == Deferrals(s.log);
  }

  lemma UnHoldTaskSends(s: State, id: int)
    ensures Sends(s, UnHoldTask(s, id), [])
  {
    assert Deferrals(s.log) + [] == Deferrals(s.log);
    if ById(s.table, id) >= 0 {
      DeferralsOfOne(s.log, UnHold(id));
    }
  }

  // ---------------------------------------------------------------- a batch

  lemma {:induction false} NoneLeft(s: State, es: seq<Report>, slot: int)
    requires Inv(s) && Named(es, slot) && s.hang == None
    ensures Sends(s, HandleAll(s, es), [])
    decreases |es|
  {
    assert Deferrals(s.log) + [] == Deferrals(s.log);
    if es != [] {
      var s1 := Handle(s, es[0]);
      C.DeferredHangUpIsSent(s, es[0]);
      HandleOk(s, es[0]);
      NoneLeft(s1, es[1..], slot);
      SendsThen(s, s1, HandleAll(s1, es[1..]), []);
    }
  }

  /** A whole batch sends it at most once: while it waits, each event decides anew. */
  lemma {:induction false} BatchSends(s: State, es: seq<Report>, slot: int)
    requires Inv(s) && Named(es, slot)
    ensures Sends(s, HandleAll(s, es), [])
      || (s.hang.Some? && exists at, index :: Sends(s, HandleAll(s, es), [Deferred(s.hang.value, at, index)]))
    decreases |es|
  {
    assert Deferrals(s.log) + [] == Deferrals(s.log);
    if es != [] {
      var s1, rest := Handle(s, es[0]), es[1..];
      var ds := C.Due(s, es[0]);
      C.DeferredHangUpIsSent(s, es[0]);
      HandleOk(s, es[0]);
      if ds == [] {
        BatchSends(s1, rest, slot);
        if Sends(s1, HandleAll(s1, rest), []) {
          SendsThen(s, s1, HandleAll(s1, rest), []);
        } else {
          var at, index :| Sends(s1, HandleAll(s1, rest), [Deferred(s1.hang.value, at, index)]);
          SendsThen(s, s1, HandleAll(s1, rest), [Deferred(s.hang.value, at, index)]);
          assert Sends(s, HandleAll(s, es), [Deferred(s.hang.value, at, index)]);
        }
      } else {
        NoneLeft(s1, rest, slot);
        assert ds == [Deferred(s.hang.value, ds[0].slot, ds[0].index)];
        assert Sends(s, HandleAll(s, es), [Deferred(s.hang.value, ds[0].slot, ds[0].index)]);
      }
    }
  }

  // ---------------------------------------------------------------- one task

  /** All tasks but the two that can lose the hang-up: nothing, or the hang-up that waits; with index 0 unless a report
      gave the call its index. */
  lemma StepSends(w: World, k: Task)
    requires WorldOk(w) && Promised(k) && Placed(w.s) && !k.HangUpRequest? && !k.ProtectTimer?
    ensures var s, s' := w.s, Step(w, k).s;
      if k.CallsReport? || k.CallReport? then
        Sends(s, s', []) || (s.hang.Some? && exists at, index :: Sends(s, s', [Deferred(s.hang.value, at, index)]))
      else SendsAtMost(s, s', WaitingSlot(s), 0)
  {
    assert Deferrals(w.s.log) + [] == Deferrals(w.s.log);
    match k
    case CallsReport(slot, news) =>
      if 0 <= slot < SLOT_COUNT {
        NamedDiff(w.snapshots[slot], news, slot);
        BatchSends(w.s, Diff(w.snapshots[slot], news), slot);
      }
    case CallReport(r) => SingleSends(w.s, r);
    case RequestFailure => RequestFailedSends(w.s);
    case Dial(slot, kind, video, allowed, ecc, posted, accepted) =>
      DialSends(w.s, LocalReport(slot, kind, video), allowed, ecc, posted, accepted);
    case HangUpPosted(id) => HangUpTaskSends(w.s, id);
    case RejectPosted(id, sent) => RejectTaskSends(w.s, id, sent);
    case UnHoldPosted(id) => UnHoldTaskSends(w.s, id);
    case RestoreTimer =>
  }

  lemma SingleSends(s: State, r: Report)
    requires Inv(s) && r.index > 0
    ensures var s' := Handle(s, r);
      Sends(s, s', []) || (s.hang.Some? && exists at, index :: Sends(s, s', [Deferred(s.hang.value, at, index)]))
  {
    var ds := C.Due(s, r);
    C.DeferredHangUpIsSent(s, r);
    if ds != [] {
      assert Sends(s, Handle(s, r), [Deferred(s.hang.value, ds[0].slot, ds[0].index)]);
    }
  }

  /** It was sent, with some slot and index. */
  ghost predicate WentOut(s: State, s': State, id: int) {
    exists at, index :: GoesOut(s, s', id, at, index)
  }

  lemma Outcomes(s: State, s': State, id: int, ds: seq<Command>, at: int, index: int)
    requires Sends(s, s', ds) && Inv(s') && s.hang == Some(id)
    requires ds == [] || ds == [Deferred(id, at, index)]
    ensures Deferrals(s.log) + [] == Deferrals(s.log)
    ensures if ds == [] then Waits(s, s', id) else GoesOut(s, s', id, at, index)
  {
  }

  lemma RequestFate(s: State, callId: int, posted: bool, id: int)
    requires Inv(s) && s.hang == Some(id)
    ensures var k, s' := HangUpRequest(callId, posted), HangUpCall(s, callId, posted);
      if Drops(s, k, id) then Lost(s, s', id) else Waits(s, s', id)
  {
    if s.mo == Some(Chosen(s, callId)) {
      var i :| 0 <= i < |s.table| && s.table[i].id == s.mo.value && s.table[i].index == 0;
      FoundById(s.table, i);
    }
  }

  lemma ProtectIdle(s: State)
    requires s.hang.Some? && s.protect != s.hang
    ensures ProtectFires(s) == s.(protect := None)
  {
  }

  lemma AnotherTaken(s: State, s': State, first: int, id: int)
    requires Inv(s) && s.hang == Some(id) && 0 <= first < |s.table| && s.table[first].id != id
    requires s'.table == Delete(s.table, s.table[first].id) && s'.hang == None && (s'.mo == s.mo || s'.mo == None)
    requires Deferrals(s'.log) == Deferrals(s.log) + []
    ensures Lost(s, s', id)
  {
    OthersUnnamed(s.table, s.table[first].id, id);
    assert Deferrals(s.log) + [] == Deferrals(s.log);
  }

  lemma DropsAt(s: State, id: int, k: int)
    requires s.protect == Some(id) && k == ById(s.table, id) >= 0
    ensures Drops(s, ProtectTimer, id) <==> ByKey(s.table, 0, s.table[k].slot) != k
  {
  }

  lemma ProtectOwn(s: State, k: int)
    requires Inv(s) && 0 <= k < |s.table| && s.protect == s.hang == Some(s.table[k].id) && s.table[k].index == 0
    ensures var s', c := ProtectFires(s), s.table[k];
      if ByKey(s.table, 0, c.slot) != k then Lost(s, s', c.id) else GoesOut(s, s', c.id, c.slot, 0)
  {
    var first := ByKey(s.table, 0, s.table[k].slot);
    ProtectTakesFirst(s, k);
    if first != k {
      assert s.table[first].id != s.table[k].id;
      AnotherTaken(s, ProtectFires(s), first, s.table[k].id);
    }
  }

  lemma ProtectFate(s: State, id: int)
    requires Inv(s) && s.hang == Some(id) && ById(s.table, id) >= 0
    ensures var s', at := ProtectFires(s), s.table[ById(s.table, id)].slot;
      if Drops(s, ProtectTimer, id) then Lost(s, s', id)
      else if s.protect == Some(id) then GoesOut(s, s', id, at, 0) else Waits(s, s', id)
  {
    var k := ById(s.table, id);
    WaitingPlace(s);
    if s.protect == Some(id) {
      DropsAt(s, id, k);
      ProtectOwn(s, k);
    } else {
      ProtectIdle(s);
    }
  }

  /** What becomes of a hang-up that waits, over any task: it waits on for a call without an index, or it goes out once,
      or it is lost; and it is lost exactly if the task is one of the two that drop it. Tasks that are no reports send
      it with index 0, for the slot of its call. */
  lemma HangUpFate(w: World, k: Task, id: int)
    requires WorldOk(w) && Promised(k) && w.s.hang == Some(id)
    ensures var s, s' := w.s, Step(w, k).s;
      && (Lost(s, s', id) <==> Drops(s, k, id))
      && (!Drops(s, k, id) ==> Waits(s, s', id) || WentOut(s, s', id))
      && ById(s.table, id) >= 0
      && (WentOut(s, s', id) && !k.CallsReport? && !k.CallReport? ==> GoesOut(s, s', id, WaitingSlot(s), 0))
  {
    WaitingPlace(w.s);
    StepOk(w, k);
    var s, s' := w.s, Step(w, k).s;
    match k
    case HangUpRequest(callId, posted) => RequestFate(s, callId, posted, id);
    case ProtectTimer => ProtectFate(s, id);
    case _ => StepFate(w, k, id);
  }

  lemma StepFate(w: World, k: Task, id: int)
    requires WorldOk(w) && Promised(k) && w.s.hang == Some(id) && !k.HangUpRequest? && !k.ProtectTimer?
    ensures var s, s' := w.s, Step(w, k).s;
      && ById(s.table, id) >= 0 && (Waits(s, s', id) || WentOut(s, s', id))
      && (k.CallsReport? || k.CallReport? || Waits(s, s', id) || GoesOut(s, s', id, WaitingSlot(s), 0))
  {
    var s, s' := w.s, Step(w, k).s;
    WaitingPlace(s);
    StepOk(w, k);
    StepSends(w, k);
    if Sends(s, s', []) {
      Outcomes(s, s', id, [], 0, 0);
    } else if k.CallsReport? || k.CallReport? {
      var at, index :| Sends(s, s', [Deferred(s.hang.value, at, index)]);
      Outcomes(s, s', id, [Deferred(id, at, index)], at, index);
    } else {
      Outcomes(s, s', id, [Deferred(id, WaitingSlot(s), 0)], WaitingSlot(s), 0);
    }
  }

  /** Losing it takes a second call without an index. */
  lemma DropNeedsAnother(s: State, k: Task, id: int)
    requires Inv(s) && s.hang == Some(id) && Drops(s, k, id)
    ensures exists other :: other != id && Unnamed(s.table, other)
  {
    if k.HangUpRequest? {
      assert Unnamed(s.table, s.mo.value);
    } else {
      WaitingPlace(s);
      var i := ById(s.table, id);
      var first := ByKey(s.table, 0, s.table[i].slot);
      assert HasKey(s.table[i], 0, s.table[i].slot);
      assert s.table[first].id != id;
      assert Unnamed(s.table, s.table[first].id);
    }
  }

  // ---------------------------------------------------------------- whole runs

  /** A deferred hang-up for this call has been sent. */
  predicate SentFor(log: seq<Command>, id: int) {
    exists i | 0 <= i < |log| :: log[i].Deferred? && log[i].id == id
  }

  /** Some task of the run drops the hang-up while it waits. */
  predicate Dropped(w: World, ks: seq<Task>, id: int)
    requires |w.snapshots| == SLOT_COUNT
    decreases |ks|
  {
    ks != [] && w.s.hang == Some(id) && (Drops(w.s, ks[0], id) || Dropped(Step(w, ks[0]), ks[1..], id))
  }

  lemma {:induction false} InDeferrals(log: seq<Command>, i: int)
    requires 0 <= i < |log| && log[i].Deferred?
    ensures log[i] in Deferrals(log)
  {
    if i < |log| - 1 {
      InDeferrals(log[..|log| - 1], i);
    }
  }

  lemma SentAsDeferral(log: seq<Command>, id: int)
    ensures SentFor(log, id) <==> exists d :: d in Deferrals(log) && d.Deferred? && d.id == id
  {
    if SentFor(log, id) {
      var i :| 0 <= i < |log| && log[i].Deferred? && log[i].id == id;
      InDeferrals(log, i);
    }
    if exists d :: d in Deferrals(log) && d.Deferred? && d.id == id {
      var d :| d in Deferrals(log) && d.Deferred? && d.id == id;
      DeferralsAreSent(log);
      var i :| 0 <= i < |log| && log[i] == d;
    }
  }

  lemma SameSent(log: seq<Command>, log': seq<Command>, id: int)
    requires Deferrals(log) == Deferrals(log')
    ensures SentFor(log, id) <==> SentFor(log', id)
  {
    SentAsDeferral(log, id);
    SentAsDeferral(log', id);
  }

  lemma {:induction false} ExecOnce(w: World, ks: seq<Task>, gone: set<int>)
    requires |w.snapshots| == SLOT_COUNT && Once(w.s, gone)
    ensures Once(Exec(w, ks).s, gone)
    decreases |ks|
  {
    if ks != [] {
      StepOnce(w, ks[0], gone);
      ExecOnce(Step(w, ks[0]), ks[1..], gone);
    }
  }

  /** A hang-up that is lost is never sent. */
  lemma LostForGood(w: World, w1: World, ks: seq<Task>, id: int)
    requires WorldOk(w) && WorldOk(w1) && w.s.hang == Some(id) && Lost(w.s, w1.s, id) && w1.s.lastId >= id
    ensures !SentFor(Exec(w1, ks).s.log, id) && !Flags(Exec(w1, ks).s, id)
  {
    SameSent(w.s.log, w1.s.log, id);
    assert !SentFor(w1.s.log, id);
    ExecOnce(w1, ks, {id});
  }

  lemma SentStays(w: World, k: Task, id: int)
    requires WorldOk(w) && Promised(k) && SentFor(w.s.log, id)
    ensures SentFor(Step(w, k).s.log, id)
  {
    SentAsDeferral(w.s.log, id);
    DeferralsGrow(w, k);
    SentAsDeferral(Step(w, k).s.log, id);
  }

  /** Sent is sent. */
  lemma DeferralsGrow(w: World, k: Task)
    requires WorldOk(w) && Promised(k)
    ensures Deferrals(w.s.log) <= Deferrals(Step(w, k).s.log)
  {
    if w.s.hang.Some? {
      HangUpFate(w, k, w.s.hang.value);
    } else if k.ProtectTimer? {
      assert Step(w, k).s == w.s;
    } else if !k.HangUpRequest? {
      StepSends(w, k);
    }
  }

  lemma {:induction false} SentForGood(w: World, ks: seq<Task>, id: int)
    requires WorldOk(w) && SentFor(w.s.log, id) && forall i | 0 <= i < |ks| :: Promised(ks[i])
    ensures SentFor(Exec(w, ks).s.log, id) && Exec(w, ks).s.hang != Some(id)
    decreases |ks|
  {
    if ks != [] {
      SentStays(w, ks[0], id);
      StepOk(w, ks[0]);
      SentForGood(Step(w, ks[0]), ks[1..], id);
    }
  }

  lemma GoesOutInLog(s: State, s': State, id: int, at: int, index: int)
    requires GoesOut(s, s', id, at, index)
    ensures Deferred(id, at, index) in s'.log
  {
    assert Deferred(id, at, index) in Deferrals(s'.log);
    DeferralsAreSent(s'.log);
  }

  lemma GoesOutIsSent(s: State, s': State, id: int)
    requires WentOut(s, s', id)
    ensures SentFor(s'.log, id)
  {
    var at, index :| GoesOut(s, s', id, at, index);
    GoesOutInLog(s, s', id, at, index);
  }

  lemma IdsOnlyGrow(w: World, k: Task)
    requires WorldOk(w) && Promised(k) && (k.HangUpRequest? || k.ProtectTimer?)
    ensures Step(w, k).s.lastId >= w.s.lastId
  {
    hide DealFailDial;
    if k.ProtectTimer? && w.s.protect.Some? && ById(w.s.table, w.s.protect.value) >= 0 {
      DealFailDialOk(w.s.(protect := None), ById(w.s.table, w.s.protect.value));
    }
  }

  /** Over a whole run a hang-up that waits is sent exactly if no task drops it while it waits and it does not wait
      still at the end; then it is sent once. A dropped one is never sent. */
  lemma {:induction false} HangUpOverRun(w: World, ks: seq<Task>, id: int)
    requires WorldOk(w) && w.s.hang == Some(id) && forall i | 0 <= i < |ks| :: Promised(ks[i])
    ensures var s' := Exec(w, ks).s;
      && (SentFor(s'.log, id) <==> !Dropped(w, ks, id) && s'.hang != Some(id))
      && (Dropped(w, ks, id) ==> s'.hang != Some(id))
      && forall i, j | 0 <= i < |s'.log| && 0 <= j < |s'.log| && s'.log[i].Deferred? && s'.log[j].Deferred?
           && s'.log[i].id == s'.log[j].id :: i == j
    decreases |ks|
  {
    ExecOk(w, ks);
    if ks != [] {
      var w1 := Step(w, ks[0]);
      StepOk(w, ks[0]);
      HangUpFate(w, ks[0], id);
      if Drops(w.s, ks[0], id) {
        IdsOnlyGrow(w, ks[0]);
        WaitingPlace(w.s);
        LostForGood(w, w1, ks[1..], id);
      } else if Waits(w.s, w1.s, id) {
        HangUpOverRun(w1, ks[1..], id);
      } else {
        GoesOutIsSent(w.s, w1.s, id);
        SentForGood(w1, ks[1..], id);
      }
    }
  }

  // ---------------------------------------------------------------- hang-ups that do not wait

  /** A hang-up that is not deferred changes nothing by itself and posts a request for the call that is meant. Whatever
      tasks run in between, that task then sends one hang-up with the call's id, slot and index, if the call is still in
      the table, and nothing if it is not; it does nothing else. */
  lemma HangUpIsCarriedOut(w: World, callId: int, posted: bool, i: nat, between: seq<Task>)
    requires WorldOk(w) && i < |w.s.table| && w.s.table[i].tel != Disconnecting && w.s.mo != Some(w.s.table[i].id)
    requires w.s.table[i].id == if callId == 0 then O.Meant(w.s.table) else callId
    requires forall n | 0 <= n < |between| :: Promised(between[n])
    ensures Requested(w.s, callId) == Some(w.s.table[i].id) && Step(w, HangUpRequest(callId, posted)) == w
    ensures var id, w1 := w.s.table[i].id, Exec(w, between);
      && (forall j | 0 <= j < |w1.s.table| && w1.s.table[j].id == id ::
            Step(w1, HangUpPosted(id))
            == w1.(s := w1.s.(log := w1.s.log + [HangUp(id, w1.s.table[j].slot, w1.s.table[j].index)])))
      && ((forall j | 0 <= j < |w1.s.table| :: w1.s.table[j].id != id) ==> Step(w1, HangUpPosted(id)) == w1)
  {
    hide Exec, Step, O.Meant, WorldOk;
    RequestIsPosted(w, callId, posted, i);
    ExecOk(w, between);
    PostedReaches(Exec(w, between), w.s.table[i].id);
  }

  lemma RequestIsPosted(w: World, callId: int, posted: bool, i: nat)
    requires WorldOk(w) && i < |w.s.table| && w.s.table[i].tel != Disconnecting && w.s.mo != Some(w.s.table[i].id)
    requires w.s.table[i].id == if callId == 0 then O.Meant(w.s.table) else callId
    ensures Requested(w.s, callId) == Some(w.s.table[i].id) && Step(w, HangUpRequest(callId, posted)) == w
  {
    hide HangUpCall, Requested;
    O.HangUpIsRequested(w.s, callId, posted);
  }

  lemma PostedReaches(w: World, id: int)
    requires WorldOk(w)
    ensures forall j | 0 <= j < |w.s.table| && w.s.table[j].id == id ::
      Step(w, HangUpPosted(id)) == w.(s := w.s.(log := w.s.log + [HangUp(id, w.s.table[j].slot, w.s.table[j].index)]))
    ensures (forall j | 0 <= j < |w.s.table| :: w.s.table[j].id != id) ==> Step(w, HangUpPosted(id)) == w
  {
    IdsAreUnique(w);
    hide HangUpTask, WorldOk;
    O.HangUpReaches(w.s, id);
  }

  lemma IdsAreUnique(w: World)
    requires WorldOk(w)
    ensures UniqueIds(w.s.table)
  {
  }
}
