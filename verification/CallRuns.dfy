/** Whole runs of the main loop: reports, requests and timers in any order. */
module CallRuns {
  import opened Options
  import opened CallTable
  import opened CallHandlers
  import opened CallSafety
  import opened CallRequests
  import opened CallReports
  import opened CallOutcomes
  import opened CallPresence
  import opened CallTracking
  import opened CallAgreement
  import opened CallOnce

  const SLOT_COUNT := 2

  /** The call state and the last report of each slot. */
  datatype World = World(s: State, snapshots: seq<seq<Report>>)

  /** One task of the main loop. Requests carry what the environment answers: see DialCall and HangUpCall. */
  datatype Task =
    | CallsReport(slot: int, news: seq<Report>)
    | CallReport(r: Report)
    | RequestFailure
    | Dial(slot: int, kind: CallType, video: int, allowed: bool, ecc: bool, posted: bool, accepted: bool)
    | HangUpRequest(id: int, posted: bool)
    | HangUpPosted(id: int)
    | RejectPosted(id: int, sent: bool)
    | UnHoldPosted(id: int)
    | ProtectTimer
    | RestoreTimer

  /** What the stack promises: indices are positive, and distinct within a report, and a report is about its slot. */
  predicate Promised(k: Task) {
    match k
    case CallsReport(slot, news) => Named(news, slot) && Distinct(news)
    case CallReport(r) => r.index > 0
    case _ => true
  }

  /** HandleCallsReportInfo: the differences are handled, then the report is kept. */
  function HandleCallsReport(w: World, slot: int, news: seq<Report>): World
    requires |w.snapshots| == SLOT_COUNT
  {
    if !(0 <= slot < SLOT_COUNT) then w
    else World(HandleAll(w.s, Diff(w.snapshots[slot], news)), w.snapshots[slot := Kept(news)])
  }

  function Step(w: World, k: Task): (w': World)
    requires |w.snapshots| == SLOT_COUNT
    ensures |w'.snapshots| == SLOT_COUNT
  {
    match k
    case CallsReport(slot, news) => HandleCallsReport(w, slot, news)
    case CallReport(r) => w.(s := Handle(w.s, r))
    case RequestFailure => w.(s := RequestFailed(w.s))
    case Dial(slot, kind, video, allowed, ecc, posted, accepted) =>
      w.(s := DialCall(w.s, LocalReport(slot, kind, video), allowed, ecc, posted, accepted).s)
    case HangUpRequest(id, posted) => w.(s := HangUpCall(w.s, id, posted))
    case HangUpPosted(id) => w.(s := HangUpTask(w.s, id))
    case RejectPosted(id, sent) => w.(s := RejectTask(w.s, id, sent))
    case UnHoldPosted(id) => w.(s := UnHoldTask(w.s, id))
    case ProtectTimer => w.(s := ProtectFires(w.s))
    case RestoreTimer => w.(s := RestoreFires(w.s))
  }

  function Exec(w: World, ks: seq<Task>): (w': World)
    requires |w.snapshots| == SLOT_COUNT
    ensures |w'.snapshots| == SLOT_COUNT
    decreases |ks|
  {
    if ks == [] then w else Exec(Step(w, ks[0]), ks[1..])
  }

  function Start(): World {
    World(State([], 0, None, None, None, false, false, false, []), [[], []])
  }

  predicate WorldOk(w: World) {
    && Inv(w.s) && Once(w.s, {}) && |w.snapshots| == SLOT_COUNT
    && forall i | 0 <= i < SLOT_COUNT :: SnapshotOk(w.snapshots[i]) && Named(w.snapshots[i], i)
  }

  /** Named calls are listed in the last report of their slot, or have one of the loose keys. */
  predicate Followed(w: World, loose: set<(int, int)>)
    requires |w.snapshots| == SLOT_COUNT
  {
    forall i | 0 <= i < SLOT_COUNT :: Listed(w.s.table, i, w.snapshots[i], loose)
  }

  /** The calls listed in the last report of their slot are as they are listed, except exactly those with these keys. */
  ghost predicate AllAgree(w: World, a: Aspect, behind: set<(int, int)>)
    requires |w.snapshots| == SLOT_COUNT
  {
    forall i | 0 <= i < SLOT_COUNT :: Agreed(w.s.table, a, i, w.snapshots[i], behind)
  }

  lemma {:induction false} HandleAllOnce(s: State, es: seq<Report>, gone: set<int>)
    requires Once(s, gone)
    ensures Once(HandleAll(s, es), gone)
    decreases |es|
  {
    if es != [] {
      HandleOnce(s, es[0], gone);
      HandleAllOnce(Handle(s, es[0]), es[1..], gone);
    }
  }

  lemma RestoreOk(s: State, gone: set<int>)
    ensures Inv(s) ==> Inv(RestoreFires(s))
    ensures Once(s, gone) ==> Once(RestoreFires(s), gone)
  {
  }

  /** No task sends a second deferred hang-up for a call, or any for a call that is gone. */
  lemma StepOnce(w: World, k: Task, gone: set<int>)
    requires |w.snapshots| == SLOT_COUNT && Once(w.s, gone)
    ensures Once(Step(w, k).s, gone)
  {
    hide Once, Handle, RequestFailed, DialCall, HangUpCall, HangUpTask, RejectTask, UnHoldTask, ProtectFires;
    match k
    case CallsReport(slot, news) =>
      if 0 <= slot < SLOT_COUNT {
        HandleAllOnce(w.s, Diff(w.snapshots[slot], news), gone);
      }
    case CallReport(r) => HandleOnce(w.s, r, gone);
    case RequestFailure => RequestFailedOnce(w.s, gone);
    case Dial(slot, kind, video, allowed, ecc, posted, accepted) =>
      DialCallOnce(w.s, LocalReport(slot, kind, video), allowed, ecc, posted, accepted, gone);
    case HangUpRequest(id, posted) => HangUpCallOnce(w.s, id, posted, gone);
    case HangUpPosted(id) => TasksOnce(w.s, id, true, gone);
    case RejectPosted(id, sent) => TasksOnce(w.s, id, sent, gone);
    case UnHoldPosted(id) => TasksOnce(w.s, id, true, gone);
    case ProtectTimer => ProtectOnce(w.s, gone);
    case RestoreTimer => RestoreOk(w.s, gone);
  }

  lemma StepOk(w: World, k: Task)
    requires WorldOk(w) && Promised(k)
    ensures WorldOk(Step(w, k))
  {
    hide Inv, Handle, RequestFailed, DialCall, HangUpCall, HangUpTask, RejectTask, UnHoldTask, ProtectFires;
    StepOnce(w, k, {});
    match k
    case CallsReport(slot, news) =>
      if 0 <= slot < SLOT_COUNT {
        NamedDiff(w.snapshots[slot], news, slot);
        HandleAllOk(w.s, Diff(w.snapshots[slot], news), slot);
        KeptDistinct(news);
      }
    case CallReport(r) => HandleOk(w.s, r);
    case RequestFailure => RequestFailedOk(w.s);
    case Dial(slot, kind, video, allowed, ecc, posted, accepted) =>
      DialCallOk(w.s, LocalReport(slot, kind, video), allowed, ecc, posted, accepted);
    case HangUpRequest(id, posted) => HangUpCallOk(w.s, id, posted);
    case HangUpPosted(id) => TasksOk(w.s, id, true);
    case RejectPosted(id, sent) => TasksOk(w.s, id, sent);
    case UnHoldPosted(id) => TasksOk(w.s, id, true);
    case ProtectTimer => ProtectFiresOk(w.s);
    case RestoreTimer => RestoreOk(w.s, {});
  }

  lemma {:induction false} ExecOk(w: World, ks: seq<Task>)
    requires WorldOk(w) && forall i | 0 <= i < |ks| :: Promised(ks[i])
    ensures WorldOk(Exec(w, ks))
    decreases |ks|
  {
    if ks != [] {
      StepOk(w, ks[0]);
      ExecOk(Step(w, ks[0]), ks[1..]);
    }
  }

  /** Every state the main loop can reach is sound. */
  lemma ReachedOk(ks: seq<Task>)
    requires forall i | 0 <= i < |ks| :: Promised(ks[i])
    ensures WorldOk(Exec(Start(), ks))
  {
    StartOk();
    ExecOk(Start(), ks);
  }

  lemma StartOk()
    ensures WorldOk(Start()) && Followed(Start(), {}) && forall a :: AllAgree(Start(), a, {})
  {
  }

  // ---------------------------------------------------------------- the table follows the stack

  lemma ListedWithin(t: seq<Call>, t': seq<Call>, slot: int, snapshot: seq<Report>, loose: set<(int, int)>, r: Report)
    requires Listed(t, slot, snapshot, loose) && Within(t', t, r) && r.index == 0
    ensures Listed(t', slot, snapshot, loose)
  {
    forall i | 0 <= i < |t'| && t'[i].index > 0 && t'[i].slot == slot
      ensures EntryAt(snapshot, t'[i].index) >= 0 || (t'[i].index, slot) in loose
    {
      var k := ByKey(t, t'[i].index, t'[i].slot);
      assert HasKey(t[k], t'[i].index, t'[i].slot);
    }
  }

  /** Any report will do: no named call has index 0. */
  function NoReport(): Report {
    LocalReport(0, Cs, 0)
  }

  lemma FailNamesNone(s: State, k: int)
    requires Core(s) && 0 <= k < |s.table|
    ensures Within(DealFailDial(s, s.table[k]).table, s.table, NoReport())
  {
    var c := s.table[k];
    DealFailDialOk(s, k);
    DeleteWithin(s.table, s.table[ByKey(s.table, c.index, c.slot)].id, NoReport());
  }

  lemma PutNamesNone(t: seq<Call>, k: int, resumable: bool)
    requires UniqueIds(t) && UniqueKeys(t) && 0 <= k < |t|
    ensures Within(Put(t, t[k].(resumable := resumable)), t, NoReport())
  {
    FoundById(t, k);
    SameWithin(t, NoReport());
  }

  lemma AppendNamesNone(t: seq<Call>, c: Call)
    requires UniqueKeys(t) && c.index == 0
    ensures Within(t + [c], t, NoReport())
  {
    AppendNames(t, c, LocalReport(c.slot, Cs, 0));
  }

  lemma DialIs(s: State, r: Report, allowed: bool, ecc: bool, posted: bool, accepted: bool)
    ensures var s1 := s.(dialEcc := ecc, dialing := true, restore := posted);
      var o := DialCall(s, r, allowed, ecc, posted, accepted);
      || (o.s.table == s.table && o.s.log == s.log && o.s.hang == s.hang && o.s.protect == s.protect)
      || ((ecc || !HasEcc(s.table)) && o == StartReported(if ecc then ClearTheLine(s1) else s1, r, accepted))
  {
  }

  lemma StartNamesNone(s: State, r: Report, accepted: bool)
    requires Core(s) && Local(r)
    ensures Within(StartReported(s, r, accepted).s.table, s.table, NoReport())
  {
    SameWithin(s.table, NoReport());
    CreateDialingEffect(s, r);
    if CreateDialing(s, r).ok {
      var t := s.table + [Created(s, r)];
      CreateDialingOk(s, r);
      AppendNamesNone(s.table, Created(s, r));
      StackRefusal(s, r);
      DeleteWithin(t, t[ByKey(t, 0, r.slot)].id, NoReport());
      WithinAgain(Delete(t, t[ByKey(t, 0, r.slot)].id), t, s.table, NoReport());
    }
  }

  lemma DialNamesNone(s: State, r: Report, allowed: bool, ecc: bool, posted: bool, accepted: bool)
    requires Inv(s) && Local(r)
    ensures Within(DialCall(s, r, allowed, ecc, posted, accepted).s.table, s.table, NoReport())
  {
    SameWithin(s.table, NoReport());
    DialIs(s, r, allowed, ecc, posted, accepted);
    if ecc || !HasEcc(s.table) {
      var s1 := s.(dialEcc := ecc, dialing := true, restore := posted);
      assert Core(if ecc then ClearTheLine(s1) else s1);
      StartNamesNone(if ecc then ClearTheLine(s1) else s1, r, accepted);
    }
  }

  lemma RejectNamesNone(s: State, id: int, sent: bool)
    requires Inv(s)
    ensures Within(RejectTask(s, id, sent).table, s.table, NoReport())
  {
    var h := LastRunning(s.table, Hold);
    if ById(s.table, id) >= 0 && sent && h >= 0 {
      PutNamesNone(s.table, h, false);
    } else {
      SameWithin(s.table, NoReport());
    }
  }

  lemma UnHoldNamesNone(s: State, id: int)
    requires Inv(s)
    ensures Within(UnHoldTask(s, id).table, s.table, NoReport())
  {
    if ById(s.table, id) >= 0 {
      PutNamesNone(s.table, ById(s.table, id), true);
    } else {
      SameWithin(s.table, NoReport());
    }
  }

  lemma ProtectNamesNone(s: State)
    requires Inv(s)
    ensures Within(ProtectFires(s).table, s.table, NoReport())
  {
    if s.protect.Some? && s.hang == s.protect && ById(s.table, s.protect.value) >= 0 {
      FailNamesNone(s.(protect := None), ById(s.table, s.protect.value));
    } else {
      SameWithin(s.table, NoReport());
    }
  }

  lemma FailureNamesNone(s: State)
    requires Inv(s)
    ensures Within(RequestFailed(s).table, s.table, NoReport())
  {
    if LastRunning(s.table, Outbound) >= 0 {
      FailNamesNone(s, LastRunning(s.table, Outbound));
    } else {
      SameWithin(s.table, NoReport());
    }
  }

  /** The tasks that leave the table alone. */
  lemma IdleTasks(w: World, k: Task)
    requires |w.snapshots| == SLOT_COUNT && (k.HangUpRequest? || k.HangUpPosted? || k.RestoreTimer?)
    ensures Step(w, k).s.table == w.s.table
  {
  }

  /** No task but a report or a dial can name a call, and a dial does not. */
  lemma OthersNameNone(w: World, k: Task)
    requires WorldOk(w) && !k.CallsReport? && !k.CallReport? && !k.Dial?
    ensures Within(Step(w, k).s.table, w.s.table, NoReport())
  {
    if k.RequestFailure? {
      FailureNamesNone(w.s);
      assert Step(w, k).s == RequestFailed(w.s);
    } else if k.RejectPosted? {
      RejectNamesNone(w.s, k.id, k.sent);
      assert Step(w, k).s == RejectTask(w.s, k.id, k.sent);
    } else if k.UnHoldPosted? {
      UnHoldNamesNone(w.s, k.id);
      assert Step(w, k).s == UnHoldTask(w.s, k.id);
    } else if k.ProtectTimer? {
      ProtectNamesNone(w.s);
      assert Step(w, k).s == ProtectFires(w.s);
    } else {
      IdleTasks(w, k);
      SameWithin(w.s.table, NoReport());
    }
  }

  /** The keys of the calls that were taken up by reports of single calls and that no batch has listed since. */
  function LooseAfter(w: World, k: Task, loose: set<(int, int)>): set<(int, int)>
    requires |w.snapshots| == SLOT_COUNT
  {
    match k
    case CallsReport(slot, news) =>
      if 0 <= slot < SLOT_COUNT then LooseAfterBatch(loose, w.snapshots[slot], news, slot) else loose
    case CallReport(r) => LooseAfterReport(w.s, r, loose)
    case _ => loose
  }

  function Loose(w: World, ks: seq<Task>, loose: set<(int, int)>): set<(int, int)>
    requires |w.snapshots| == SLOT_COUNT
    decreases |ks|
  {
    if ks == [] then loose else Loose(Step(w, ks[0]), ks[1..], LooseAfter(w, ks[0], loose))
  }

  lemma TaskNamesNone(w: World, k: Task)
    requires WorldOk(w) && !k.CallsReport? && !k.CallReport?
    ensures Within(Step(w, k).s.table, w.s.table, NoReport()) && Step(w, k).snapshots == w.snapshots
  {
    if k.Dial? {
      DialNamesNone(w.s, LocalReport(k.slot, k.kind, k.video), k.allowed, k.ecc, k.posted, k.accepted);
    } else {
      OthersNameNone(w, k);
    }
  }

  lemma TaskFollowed(w: World, k: Task, loose: set<(int, int)>)
    requires WorldOk(w) && Followed(w, loose) && !k.CallsReport? && !k.CallReport?
    ensures Followed(Step(w, k), loose)
  {
    TaskNamesNone(w, k);
    forall i | 0 <= i < SLOT_COUNT ensures Listed(Step(w, k).s.table, i, w.snapshots[i], loose) {
      ListedWithin(w.s.table, Step(w, k).s.table, i, w.snapshots[i], loose, NoReport());
    }
  }

  lemma StepFollowed(w: World, k: Task, loose: set<(int, int)>)
    requires WorldOk(w) && Followed(w, loose) && Promised(k)
    ensures Followed(Step(w, k), LooseAfter(w, k, loose))
  {
    match k
    case CallsReport(slot, news) =>
      if 0 <= slot < SLOT_COUNT {
        BatchFollows(w.s, w.snapshots[slot], news, slot, loose);
      }
    case CallReport(r) =>
      forall i | 0 <= i < SLOT_COUNT ensures Listed(Handle(w.s, r).table, i, w.snapshots[i], LooseAfter(w, k, loose)) {
        SingleFollows(w.s, r, i, w.snapshots[i], loose);
      }
    case _ => TaskFollowed(w, k, loose);
  }

  /** No call outlives its entry: in every reachable state a call with a real index is listed, not disconnected, in the
      last report of its slot, or was taken up by a report of a single call and no report of its slot has listed it or
      let it go since. */
  lemma NoCallOutlivesItsEntry(ks: seq<Task>)
    requires forall i | 0 <= i < |ks| :: Promised(ks[i])
    ensures Followed(Exec(Start(), ks), Loose(Start(), ks, {}))
  {
    StartOk();
    ExecFollowed(Start(), ks, {});
  }

  lemma {:induction false} ExecFollowed(w: World, ks: seq<Task>, loose: set<(int, int)>)
    requires WorldOk(w) && Followed(w, loose)
    requires forall i | 0 <= i < |ks| :: Promised(ks[i])
    ensures Followed(Exec(w, ks), Loose(w, ks, loose))
    decreases |ks|
  {
    if ks != [] {
      StepFollowed(w, ks[0], loose);
      StepOk(w, ks[0]);
      ExecFollowed(Step(w, ks[0]), ks[1..], LooseAfter(w, ks[0], loose));
    }
  }

  /** Without reports of single calls nothing is ever loose. */
  lemma {:induction false} NothingLoose(w: World, ks: seq<Task>)
    requires |w.snapshots| == SLOT_COUNT && forall i | 0 <= i < |ks| :: !ks[i].CallReport?
    ensures Loose(w, ks, {}) == {}
    decreases |ks|
  {
    if ks != [] {
      assert LooseAfter(w, ks[0], {}) == {};
      NothingLoose(Step(w, ks[0]), ks[1..]);
    }
  }

  /** As long as the stack reports whole slots only, every call with a real index is listed in the last report of its
      slot. */
  lemma WholeReportsListAll(ks: seq<Task>)
    requires forall i | 0 <= i < |ks| :: Promised(ks[i]) && !ks[i].CallReport?
    ensures Followed(Exec(Start(), ks), {})
  {
    NoCallOutlivesItsEntry(ks);
    NothingLoose(Start(), ks);
  }

  // ---------------------------------------------------------------- the calls are as reported

  /** The calls that miss what is reported of them, kept up over the tasks. */
  function BehindAfter(w: World, a: Aspect, k: Task, behind: set<(int, int)>): set<(int, int)>
    requires |w.snapshots| == SLOT_COUNT
  {
    match k
    case CallsReport(slot, news) =>
      if 0 <= slot < SLOT_COUNT then BehindAfterBatch(w.s, a, Diff(w.snapshots[slot], news), slot, behind) else behind
    case CallReport(r) =>
      if 0 <= r.slot < SLOT_COUNT then BehindAfterReport(w.s, a, r, w.snapshots[r.slot], behind) else behind
    case _ => behind
  }

  function Behind(w: World, a: Aspect, ks: seq<Task>, behind: set<(int, int)>): set<(int, int)>
    requires |w.snapshots| == SLOT_COUNT
    decreases |ks|
  {
    if ks == [] then behind else Behind(Step(w, ks[0]), a, ks[1..], BehindAfter(w, a, ks[0], behind))
  }

  lemma SlotAgrees(w: World, a: Aspect, slot: int, news: seq<Report>, behind: set<(int, int)>, i: int)
    requires WorldOk(w) && Named(news, slot) && Distinct(news) && 0 <= slot < SLOT_COUNT && 0 <= i < SLOT_COUNT
    requires Agreed(w.s.table, a, i, w.snapshots[i], behind)
    ensures var es := Diff(w.snapshots[slot], news);
      Agreed(HandleAll(w.s, es).table, a, i, if i == slot then Kept(news) else w.snapshots[i],
             BehindAfterBatch(w.s, a, es, slot, behind))
  {
    var past := w.snapshots[slot];
    if i == slot {
      BatchAgrees(w.s, a, past, news, slot, behind);
    } else {
      NamedDiff(past, news, slot);
      DiffDistinct(past, news);
      OthersAgree(w.s, a, Diff(past, news), slot, i, w.snapshots[i], behind);
    }
  }

  lemma SlotsAgree(w: World, a: Aspect, behind: set<(int, int)>)
    requires |w.snapshots| == SLOT_COUNT
    requires Agreed(w.s.table, a, 0, w.snapshots[0], behind) && Agreed(w.s.table, a, 1, w.snapshots[1], behind)
    ensures AllAgree(w, a, behind)
  {
  }

  lemma BatchStepAgrees(w: World, a: Aspect, slot: int, news: seq<Report>, behind: set<(int, int)>)
    requires WorldOk(w) && AllAgree(w, a, behind) && Named(news, slot) && Distinct(news) && 0 <= slot < SLOT_COUNT
    ensures AllAgree(HandleCallsReport(w, slot, news), a, BehindAfter(w, a, CallsReport(slot, news), behind))
  {
    SlotAgrees(w, a, slot, news, behind, 0);
    SlotAgrees(w, a, slot, news, behind, 1);
    SlotsAgree(HandleCallsReport(w, slot, news), a, BehindAfter(w, a, CallsReport(slot, news), behind));
  }

  lemma SingleStepAgrees(w: World, a: Aspect, r: Report, behind: set<(int, int)>)
    requires WorldOk(w) && AllAgree(w, a, behind) && r.index > 0
    ensures AllAgree(w.(s := Handle(w.s, r)), a, BehindAfter(w, a, CallReport(r), behind))
  {
    forall i | 0 <= i < SLOT_COUNT
      ensures Agreed(Handle(w.s, r).table, a, i, w.snapshots[i], BehindAfter(w, a, CallReport(r), behind))
    {
      var own := if 0 <= r.slot < SLOT_COUNT then w.snapshots[r.slot] else [];
      SingleAgrees(w.s, a, r, i, w.snapshots[i], own, behind);
    }
  }

  lemma StepAgrees(w: World, a: Aspect, k: Task, behind: set<(int, int)>)
    requires WorldOk(w) && AllAgree(w, a, behind) && Promised(k)
    ensures AllAgree(Step(w, k), a, BehindAfter(w, a, k, behind))
  {
    match k
    case CallsReport(slot, news) =>
      if 0 <= slot < SLOT_COUNT {
        BatchStepAgrees(w, a, slot, news, behind);
      }
    case CallReport(r) => SingleStepAgrees(w, a, r, behind);
    case _ =>
      TaskNamesNone(w, k);
      forall i | 0 <= i < SLOT_COUNT ensures Agreed(Step(w, k).s.table, a, i, w.snapshots[i], behind) {
        WithinAgrees(w.s.table, Step(w, k).s.table, a, i, w.snapshots[i], behind, NoReport());
      }
  }

  lemma {:induction false} ExecAgrees(w: World, a: Aspect, ks: seq<Task>, behind: set<(int, int)>)
    requires WorldOk(w) && AllAgree(w, a, behind)
    requires forall i | 0 <= i < |ks| :: Promised(ks[i])
    ensures AllAgree(Exec(w, ks), a, Behind(w, a, ks, behind))
    decreases |ks|
  {
    if ks != [] {
      StepAgrees(w, a, ks[0], behind);
      StepOk(w, ks[0]);
      ExecAgrees(Step(w, ks[0]), a, ks[1..], BehindAfter(w, a, ks[0], behind));
    }
  }

  /** In every reachable state a call listed in the last report of its slot has the listed state if and only if it is
      not behind, and likewise the listed type and the listed video state: Behind collects, over the run, the calls that
      missed the report that was handled for them. */
  lemma CallsFollowReports(ks: seq<Task>, a: Aspect)
    requires forall i | 0 <= i < |ks| :: Promised(ks[i])
    ensures AllAgree(Exec(Start(), ks), a, Behind(Start(), a, ks, {}))
  {
    StartOk();
    ExecAgrees(Start(), a, ks, {});
  }

  // ---------------------------------------------------------------- what holds in every reachable state

  /** A lookup by index and slot has one answer. */
  lemma OneCallPerIndex(ks: seq<Task>, i: int, j: int)
    requires forall n | 0 <= n < |ks| :: Promised(ks[n])
    requires var t := Exec(Start(), ks).s.table; 0 <= i < |t| && 0 <= j < |t| && SameKey(t[i], t[j])
    ensures i == j
  {
    ReachedOk(ks);
    var t := Exec(Start(), ks).s.table;
    FoundByKey(t, i);
    FoundByKey(t, j);
  }

  lemma ViewsAgree(ks: seq<Task>, i: int)
    requires forall n | 0 <= n < |ks| :: Promised(ks[n])
    requires 0 <= i < |Exec(Start(), ks).s.table|
    ensures var c := Exec(Start(), ks).s.table[i];
      match c.tel
      case Active => c.running == Live
      case Holding => c.running == Hold
      case Dialing | Alerting => c.running == Outbound
      case Ringing | Waiting => c.running == Inbound
      case Disconnecting => c.running == Ending
      case _ => false
  {
    ReachedOk(ks);
    assert Settled(Exec(Start(), ks).s.table[i]);
  }

  /** Over a whole run a call is hung up at most once because of a deferred hang-up. */
  lemma DeferredOnce(ks: seq<Task>, i: int, j: int)
    requires forall n | 0 <= n < |ks| :: Promised(ks[n])
    requires var log := Exec(Start(), ks).s.log;
      0 <= i < |log| && 0 <= j < |log| && log[i].Deferred? && log[j].Deferred? && log[i].id == log[j].id
    ensures i == j
  {
    ReachedOk(ks);
  }

  /** Pending-MO names a call of the table that still has index 0, and never the one whose hang-up is deferred. */
  lemma FlagsNameUnnamed(ks: seq<Task>)
    requires forall n | 0 <= n < |ks| :: Promised(ks[n])
    ensures var s := Exec(Start(), ks).s;
      && (s.mo.Some? ==> Unnamed(s.table, s.mo.value) && s.mo != s.hang)
      && (s.hang.Some? ==> Unnamed(s.table, s.hang.value))
      && !s.dialing && !s.restore && RestoreFires(s) == s
  {
    ReachedOk(ks);
  }

  /** The reserved place, over a whole run. */
  lemma NormalCallsLeaveRoom(ks: seq<Task>)
    requires forall n | 0 <= n < |ks| :: Promised(ks[n])
    ensures var t := Exec(Start(), ks).s.table;
      && |t| <= 5 && (|t| == 5 ==> exists i | 0 <= i < 5 :: t[i].ecc)
      && CountNormal(t) <= 4
  {
    ReachedOk(ks);
    ReservedPlace(Exec(Start(), ks).s.table);
  }
}
