/** What becomes of the delayed tasks, and what the calls report: a trail kept beside the run records each delayed task
    as it is posted, taken, run, removed or dropped, by what is seen of the state and the step. */
module LoopTrail {
  import opened Options
  import opened Ticks
  import opened DelayedTable
  import opened LoopModel
  import opened LoopQueue
  import opened LoopStop
  import opened LoopSlots
  import opened LoopSafety

  /** A delayed task with the call that posted it or asked for its removal. */
  datatype Note = Note(c: CallId, e: Entry)

  datatype Trail = Trail(inserted: seq<Note>, erased: seq<Note>, taken: seq<Entry>, ran: seq<Entry>,
                         dropped: seq<Entry>)

  const NOTHING: Trail := Trail([], [], [], [], [])

  function Entries(ns: seq<Note>): (es: seq<Entry>)
    ensures |es| == |ns| && forall i | 0 <= i < |ns| :: es[i] == ns[i].e
  {
    seq(|ns|, i requires 0 <= i < |ns| => ns[i].e)
  }

  /** The due tasks the loop has taken and not yet run; the first is the one in progress. */
  function InLoop(loop: Loop): seq<Entry> {
    if loop.RunningDue? then loop.due else []
  }

  // ---------------------------------------------------------------- what is seen

  /** A delayed post in its lock region finds room. */
  predicate Inserts(s: State, c: CallId, step: CallStep) {
    step.Insert? && At(s, c, Admitted) && s.calls[c].kind.Delayed? && |s.clock.delayed| < s.cfg.maxDelayed
  }

  /** Its entry: the id next in the circle, due after the delay and at least one tick ahead. */
  function NewEntry(s: State, ticks: Word, now: Word): Entry {
    Entry(s.clock.lastId % IDS + 1, (now + if ticks > 1 then ticks else 1) % WORD)
  }

  /** A removal in its lock region finds an entry with its id; the first one is meant. */
  predicate Erases(s: State, c: CallId, step: CallStep) {
    step.Erase? && At(s, c, Admitted) && s.calls[c].kind.Remove? && s.calls[c].kind.id != INVALID_ID
      && IndexOf(s.clock.delayed, s.calls[c].kind.id) < |s.clock.delayed|
  }

  /** A due task in progress ends. */
  predicate EndsDue(s: State, step: LoopStep) {
    step.RunDue? && s.loop.RunningDue? && s.loop.due != [] && s.stopper != Undoing
  }

  function Seen(tr: Trail, s: State, step: Step): Trail {
    match step
    case ByCall(c, call) =>
      if Inserts(s, c, call) then
        tr.(inserted := tr.inserted + [Note(c, NewEntry(s, s.calls[c].kind.ticks, call.now))])
      else if Erases(s, c, call) then
        tr.(erased := tr.erased + [Note(c, s.clock.delayed[IndexOf(s.clock.delayed, s.calls[c].kind.id)])])
      else tr
    case ByLoop(loop) =>
      if loop.TakeDue? && s.loop.AtTakeDue? then
        tr.(taken := tr.taken + s.clock.delayed[..DueCount(s.clock.delayed, loop.now)])
      else if EndsDue(s, loop) then tr.(ran := tr.ran + [s.loop.due[0]])
      else tr
    case ByStop(stop) =>
      if stop.DropDelayed? && s.stopper == Dropping then tr.(dropped := tr.dropped + s.clock.delayed) else tr
  }

  function TrailOf(s: State, steps: seq<Step>, tr: Trail): Trail
    decreases |steps|
  {
    if steps == [] then tr else TrailOf(Next(s, steps[0]), steps[1..], Seen(tr, s, steps[0]))
  }

  // ---------------------------------------------------------------- conservation

  /** The posted tasks are the waiting ones, those in the loop's hands, the run, the removed and the dropped ones; what
      was taken is run in the order it was taken. */
  ghost predicate Balance(posted: seq<Entry>, waiting: seq<Entry>, due: seq<Entry>, removed: seq<Entry>, tr: Trail) {
    && multiset(posted)
       == multiset(waiting) + multiset(due) + multiset(tr.ran) + multiset(removed) + multiset(tr.dropped)
    && tr.taken == tr.ran + due
  }

  lemma TakeBalances(posted: seq<Entry>, q: seq<Entry>, k: nat, removed: seq<Entry>, tr: Trail)
    requires Balance(posted, q, [], removed, tr) && k <= |q|
    ensures Balance(posted, q[k..], q[..k], removed, tr.(taken := tr.taken + q[..k]))
  {
    assert q == q[..k] + q[k..];
  }

  lemma RunBalances(posted: seq<Entry>, q: seq<Entry>, due: seq<Entry>, removed: seq<Entry>, tr: Trail)
    requires Balance(posted, q, due, removed, tr) && due != []
    ensures Balance(posted, q, due[1..], removed, tr.(ran := tr.ran + [due[0]]))
  {
    assert due == [due[0]] + due[1..];
    assert tr.ran + [due[0]] + due[1..] == tr.ran + ([due[0]] + due[1..]);
  }

  /** Every task ever posted is in exactly one of these places. */
  ghost predicate Conserved(s: State, tr: Trail) {
    Balance(Entries(tr.inserted), s.clock.delayed, InLoop(s.loop), Entries(tr.erased), tr)
  }

  lemma EntriesAppend(ns: seq<Note>, n: Note)
    ensures Entries(ns + [n]) == Entries(ns) + [n.e]
  {
  }

  lemma InsertedIn(q: seq<Entry>, p: nat, e: Entry)
    requires p <= |q|
    ensures multiset(InsertAt(q, p, e)) == multiset(q) + multiset{e}
  {
    assert q == q[..p] + q[p..];
  }

  lemma RemovedFrom(q: seq<Entry>, p: nat)
    requires p < |q|
    ensures multiset(RemoveAt(q, p)) + multiset{q[p]} == multiset(q)
  {
    assert q == q[..p] + [q[p]] + q[p + 1..];
  }

  /** A call changes the table only as the trail sees it, and never what the loop has taken. */
  lemma TableByCall(s: State, c: CallId, step: CallStep)
    ensures var t := CallNext(s, c, step);
      && t.loop == s.loop
      && (if Inserts(s, c, step) then
            multiset(t.clock.delayed)
            == multiset(s.clock.delayed) + multiset{NewEntry(s, s.calls[c].kind.ticks, step.now)}
          else if Erases(s, c, step) then
            multiset(t.clock.delayed) + multiset{s.clock.delayed[IndexOf(s.clock.delayed, s.calls[c].kind.id)]}
            == multiset(s.clock.delayed)
          else t.clock.delayed == s.clock.delayed)
  {
    var q := s.clock.delayed;
    CallKeepsLoop(s, c, step);
    if Inserts(s, c, step) {
      InsertedInto(s, c, step);
    } else if Erases(s, c, step) {
      RemovedFrom(q, IndexOf(q, s.calls[c].kind.id));
    } else {
      TableKept(s, c, step);
    }
  }

  lemma InsertedInto(s: State, c: CallId, step: CallStep)
    requires Inserts(s, c, step)
    ensures multiset(CallNext(s, c, step).clock.delayed)
         == multiset(s.clock.delayed) + multiset{NewEntry(s, s.calls[c].kind.ticks, step.now)}
  {
    var due := DueTick(step.now, s.calls[c].kind.ticks);
    InsertedIn(s.clock.delayed, InsertPos(s.clock.delayed, due), Entry(NextId(s.clock.lastId), due));
  }

  lemma TableKept(s: State, c: CallId, step: CallStep)
    requires !Inserts(s, c, step) && !Erases(s, c, step)
    ensures CallNext(s, c, step).clock.delayed == s.clock.delayed
  {
  }

  lemma ConservedByCall(s: State, tr: Trail, c: CallId, step: CallStep)
    requires Conserved(s, tr)
    ensures Conserved(CallNext(s, c, step), Seen(tr, s, ByCall(c, step)))
  {
    hide CallNext;
    TableByCall(s, c, step);
    if Inserts(s, c, step) {
      EntriesAppend(tr.inserted, Note(c, NewEntry(s, s.calls[c].kind.ticks, step.now)));
    } else if Erases(s, c, step) {
      EntriesAppend(tr.erased, Note(c, s.clock.delayed[IndexOf(s.clock.delayed, s.calls[c].kind.id)]));
    }
  }

  /** The loop takes the due tasks off the front of the table and ends them one by one, and else touches neither. */
  lemma TableByLoop(s: State, step: LoopStep)
    ensures var t := LoopNext(s, step);
      if step.TakeDue? && s.loop.AtTakeDue? then
        var k := DueCount(s.clock.delayed, step.now);
        t.clock.delayed == s.clock.delayed[k..] && InLoop(t.loop) == s.clock.delayed[..k] && InLoop(s.loop) == []
      else
        && t.clock.delayed == s.clock.delayed
        && InLoop(t.loop) == if EndsDue(s, step) then s.loop.due[1..] else InLoop(s.loop)
  {
  }

  lemma ConservedByLoop(s: State, tr: Trail, step: LoopStep)
    requires Conserved(s, tr)
    ensures Conserved(LoopNext(s, step), Seen(tr, s, ByLoop(step)))
  {
    hide LoopNext, Entries, Balance;
    var posted, removed := Entries(tr.inserted), Entries(tr.erased);
    TableByLoop(s, step);
    if step.TakeDue? && s.loop.AtTakeDue? {
      TakeBalances(posted, s.clock.delayed, DueCount(s.clock.delayed, step.now), removed, tr);
    } else if EndsDue(s, step) {
      RunBalances(posted, s.clock.delayed, s.loop.due, removed, tr);
    }
  }

  lemma TableByStop(s: State, step: StopStep)
    ensures var t := StopNext(s, step);
      t.loop == s.loop
      && t.clock.delayed == if step.DropDelayed? && s.stopper == Dropping then [] else s.clock.delayed
  {
  }

  lemma ConservedByStop(s: State, tr: Trail, step: StopStep)
    requires Conserved(s, tr)
    ensures Conserved(StopNext(s, step), Seen(tr, s, ByStop(step)))
  {
    hide StopNext, Entries;
    TableByStop(s, step);
  }

  // ---------------------------------------------------------------- ids and results

  /** Ids are given out in a circle, in the order of posting. */
  ghost predicate InCircle(s: State, tr: Trail) {
    && s.clock.lastId == (if tr.inserted == [] then INVALID_ID else IdOf(|tr.inserted| - 1))
    && forall i | 0 <= i < |tr.inserted| :: tr.inserted[i].e.id == IdOf(i)
  }

  lemma InCircleStep(s: State, tr: Trail, step: Step)
    requires InCircle(s, tr)
    ensures InCircle(Next(s, step), Seen(tr, s, step))
  {
    hide CallNext, IdOf, NextId;
    match step
    case ByCall(c, call) =>
      LastIdByCall(s, c, call);
      NextIdFollows(|tr.inserted|);
    case ByLoop(loop) => LastIdByLoop(s, loop);
    case ByStop(_) =>
  }

  lemma LastIdByLoop(s: State, step: LoopStep)
    ensures LoopNext(s, step).clock.lastId == s.clock.lastId
  {
  }

  lemma LastIdByCall(s: State, c: CallId, step: CallStep)
    ensures CallNext(s, c, step).clock.lastId == if Inserts(s, c, step) then NextId(s.clock.lastId) else s.clock.lastId
  {
  }

  function Callers(ns: seq<Note>): set<CallId> {
    set n | n in ns :: n.c
  }

  lemma CallersAppend(ns: seq<Note>, n: Note)
    ensures Callers(ns + [n]) == Callers(ns) + {n.c}
  {
    forall c ensures c in Callers(ns + [n]) <==> c in Callers(ns) + {n.c} {
      if c in Callers(ns) {
        var x :| x in ns && x.c == c;
        assert x in ns + [n];
      }
      assert n in ns + [n];
    }
  }

  predicate Succeeded(call: Call) {
    call.pc == Leaving(Success) || call.pc == Left(Success)
  }

  predicate IsOver(call: Call) {
    call.pc.Leaving? || call.pc.Left?
  }

  /** A call on the table succeeds exactly if its entry went in or came out; one on the queue exactly if its message
      went in, and a synchronous one if besides its task was run to the end before it gave up. */
  predicate ResultOk(call: Call, inserted: bool, erased: bool) {
    match call.kind
    case Delayed(_) => inserted <==> Succeeded(call)
    case Remove(_) => erased <==> Succeeded(call)
    case Async => IsOver(call) ==> (call.pushed <==> Succeeded(call))
    case Sync =>
      IsOver(call) ==> (call.pushed && call.done && !call.abandoned && call.status == Success <==> Succeeded(call))
    case _ => true
  }

  ghost predicate ResultsOk(s: State, tr: Trail) {
    && (forall c | c in s.calls :: ResultOk(s.calls[c], c in Callers(tr.inserted), c in Callers(tr.erased)))
    && Callers(tr.inserted) <= s.calls.Keys && Callers(tr.erased) <= s.calls.Keys
    && (forall n | n in tr.inserted :: s.calls[n.c].kind.Delayed?)
    && (forall n | n in tr.erased :: s.calls[n.c].kind == Kind.Remove(n.e.id))
    && Singly(tr.inserted) && Singly(tr.erased)
  }

  /** No call is noted twice. */
  predicate Singly(ns: seq<Note>) {
    forall i, j | 0 <= i < j < |ns| :: ns[i].c != ns[j].c
  }

  /** What a step of the call leaves of its result, given what was noted of it before. */
  ghost predicate ResultKept(s: State, c: CallId, step: CallStep, inserted: bool, erased: bool) {
    var t := CallNext(s, c, step);
    && (c in t.calls ==> ResultOk(t.calls[c], inserted || Inserts(s, c, step), erased || Erases(s, c, step)))
    && (c in s.calls ==> c in t.calls && t.calls[c].kind == s.calls[c].kind)
  }

  ghost predicate ResultBefore(s: State, c: CallId, inserted: bool, erased: bool) {
    if c in s.calls then CallOk(s.calls[c]) && AnswerOk(s.calls[c]) && ResultOk(s.calls[c], inserted, erased)
    else !inserted && !erased
  }

  lemma ResultFrame(s: State, c: CallId, step: CallStep, inserted: bool, erased: bool)
    requires FrameStep(step) && ResultBefore(s, c, inserted, erased)
    ensures ResultKept(s, c, step, inserted, erased)
  {
  }

  lemma ResultEnqueue(s: State, c: CallId, step: CallStep, inserted: bool, erased: bool)
    requires EnqueueStep(step) && ResultBefore(s, c, inserted, erased)
    ensures ResultKept(s, c, step, inserted, erased)
  {
  }

  lemma ResultTable(s: State, c: CallId, step: CallStep, inserted: bool, erased: bool)
    requires TableStep(step) && ResultBefore(s, c, inserted, erased)
    ensures ResultKept(s, c, step, inserted, erased)
  {
  }

  lemma ResultSlot(s: State, c: CallId, step: CallStep, inserted: bool, erased: bool)
    requires (step.Acquire? || step.GiveBack?) && ResultBefore(s, c, inserted, erased)
    ensures ResultKept(s, c, step, inserted, erased)
  {
  }

  lemma ResultWake(s: State, c: CallId, step: CallStep, inserted: bool, erased: bool)
    requires (step.WaitOk? || step.WaitTimeout?) && ResultBefore(s, c, inserted, erased)
    ensures ResultKept(s, c, step, inserted, erased)
  {
  }

  lemma ResultConclude(s: State, c: CallId, inserted: bool, erased: bool)
    requires ResultBefore(s, c, inserted, erased)
    ensures ResultKept(s, c, Conclude, inserted, erased)
  {
  }

  lemma ResultCallback(s: State, c: CallId, step: CallStep, inserted: bool, erased: bool)
    requires CallbackStep(step) && ResultBefore(s, c, inserted, erased)
    ensures ResultKept(s, c, step, inserted, erased)
  {
  }

  lemma ResultByStep(s: State, c: CallId, step: CallStep, inserted: bool, erased: bool)
    requires ResultBefore(s, c, inserted, erased)
    ensures ResultKept(s, c, step, inserted, erased)
  {
    hide ResultBefore, ResultKept;
    if FrameStep(step) {
      ResultFrame(s, c, step, inserted, erased);
    } else if EnqueueStep(step) {
      ResultEnqueue(s, c, step, inserted, erased);
    } else if TableStep(step) {
      ResultTable(s, c, step, inserted, erased);
    } else if step.Acquire? || step.GiveBack? {
      ResultSlot(s, c, step, inserted, erased);
    } else if step.Conclude? {
      ResultConclude(s, c, inserted, erased);
    } else if WaiterStep(step) {
      ResultWake(s, c, step, inserted, erased);
    } else {
      ResultCallback(s, c, step, inserted, erased);
    }
  }

  /** A note is made of a call that has not been noted. */
  lemma NotedOnce(s: State, tr: Trail, c: CallId, step: CallStep)
    requires ResultsOk(s, tr) && (Inserts(s, c, step) || Erases(s, c, step))
    ensures c in s.calls && c !in Callers(tr.inserted) && c !in Callers(tr.erased)
    ensures forall n | n in tr.inserted || n in tr.erased :: n.c != c
  {
    assert ResultOk(s.calls[c], c in Callers(tr.inserted), c in Callers(tr.erased));
    assert forall n | n in tr.inserted :: n.c in Callers(tr.inserted);
    assert forall n | n in tr.erased :: n.c in Callers(tr.erased);
  }

  lemma SinglyAppend(ns: seq<Note>, n: Note)
    requires Singly(ns) && forall x | x in ns :: x.c != n.c
    ensures Singly(ns + [n])
  {
  }

  lemma ResultsByCall(s: State, tr: Trail, c: CallId, step: CallStep)
    requires ResultsOk(s, tr) && CallsOk(s) && AnswersOk(s)
    ensures ResultsOk(CallNext(s, c, step), Seen(tr, s, ByCall(c, step)))
  {
    hide CallNext, ResultOk, NewEntry, CallOk, AnswerOk;
    var t, tr' := CallNext(s, c, step), Seen(tr, s, ByCall(c, step));
    var inserted, erased := c in Callers(tr.inserted), c in Callers(tr.erased);
    assert c in s.calls ==> ResultOk(s.calls[c], inserted, erased);
    assert ResultBefore(s, c, inserted, erased);
    ResultByStep(s, c, step, inserted, erased);
    CallStepOk(s, c, step);
    if Inserts(s, c, step) {
      var n := Note(c, NewEntry(s, s.calls[c].kind.ticks, step.now));
      NotedOnce(s, tr, c, step);
      CallersAppend(tr.inserted, n);
      SinglyAppend(tr.inserted, n);
    } else if Erases(s, c, step) {
      var n := Note(c, s.clock.delayed[IndexOf(s.clock.delayed, s.calls[c].kind.id)]);
      NotedOnce(s, tr, c, step);
      CallersAppend(tr.erased, n);
      SinglyAppend(tr.erased, n);
    }
    forall d | d in t.calls ensures ResultOk(t.calls[d], d in Callers(tr'.inserted), d in Callers(tr'.erased)) {
      if d != c {
        assert d in s.calls && t.calls[d] == s.calls[d];
        assert ResultOk(s.calls[d], d in Callers(tr.inserted), d in Callers(tr.erased));
      }
    }
  }

  /** Completing answers a call that is still inside or has given up. */
  lemma CompletesCall(s: State)
    requires Inv(s) && s.loop.Completing?
    ensures var c := s.loop.c;
      && c in s.calls && CallOk(s.calls[c]) && Holds(s.calls[c]) && !s.calls[c].done
      && LoopNext(s, Complete).calls == s.calls[c := s.calls[c].(status := s.loop.ret, done := true)]
  {
    assert s.loop.c in s.calls ==> CallOk(s.calls[s.loop.c]);
    CompletingHolds(s);
    hide Inv, Holds;
    CompleteAnswers(s);
  }

  lemma CompleteAnswers(s: State)
    requires s.loop.Completing? && HasSlot(s, s.loop.c)
    ensures LoopNext(s, Complete).calls == s.calls[s.loop.c := s.calls[s.loop.c].(status := s.loop.ret, done := true)]
  {
  }

  lemma AnswerKeepsResult(call: Call, ret: Ret, inserted: bool, erased: bool)
    requires CallOk(call) && Holds(call) && !call.done && ResultOk(call, inserted, erased)
    ensures ResultOk(call.(status := ret, done := true), inserted, erased)
  {
  }

  lemma ResultsByLoop(s: State, tr: Trail, step: LoopStep)
    requires ResultsOk(s, tr) && Inv(s)
    ensures ResultsOk(LoopNext(s, step), Seen(tr, s, ByLoop(step)))
  {
    hide Inv, LoopNext, CallOk, Holds, ResultOk;
    if step.Complete? && s.loop.Completing? {
      var c := s.loop.c;
      CompletesCall(s);
      assert ResultOk(s.calls[c], c in Callers(tr.inserted), c in Callers(tr.erased));
      AnswerKeepsResult(s.calls[c], s.loop.ret, c in Callers(tr.inserted), c in Callers(tr.erased));
    } else {
      CallsKept(s, step);
    }
  }

  lemma CallsKept(s: State, step: LoopStep)
    requires !(step.Complete? && s.loop.Completing?)
    ensures LoopNext(s, step).calls == s.calls
  {
  }

  // ---------------------------------------------------------------- over every run

  ghost predicate TrailOk(s: State, tr: Trail) {
    Conserved(s, tr) && InCircle(s, tr) && ResultsOk(s, tr)
  }

  lemma TrailStep(s: State, tr: Trail, step: Step)
    requires Inv(s) && TrailOk(s, tr)
    ensures TrailOk(Next(s, step), Seen(tr, s, step))
  {
    hide CallNext, LoopNext, StopNext, Seen, Conserved, ResultsOk;
    InCircleStep(s, tr, step);
    match step
    case ByCall(c, call) =>
      ConservedByCall(s, tr, c, call);
      ResultsByCall(s, tr, c, call);
    case ByLoop(loop) =>
      ConservedByLoop(s, tr, loop);
      ResultsByLoop(s, tr, loop);
    case ByStop(stop) =>
      ConservedByStop(s, tr, stop);
      ResultsByStop(s, tr, stop);
  }

  lemma ResultsByStop(s: State, tr: Trail, step: StopStep)
    requires ResultsOk(s, tr)
    ensures ResultsOk(StopNext(s, step), Seen(tr, s, ByStop(step)))
  {
    assert StopNext(s, step).calls == s.calls;
  }

  lemma {:induction false} TrailRun(s: State, steps: seq<Step>, tr: Trail)
    requires Inv(s) && TrailOk(s, tr)
    ensures TrailOk(Exec(s, steps), TrailOf(s, steps, tr))
    decreases |steps|
  {
    if steps != [] {
      NextInv(s, steps[0]);
      TrailStep(s, tr, steps[0]);
      TrailRun(Next(s, steps[0]), steps[1..], Seen(tr, s, steps[0]));
    }
  }

  lemma ReachedTrail(cfg: Config, steps: seq<Step>)
    ensures TrailOk(Exec(Start(cfg), steps), TrailOf(Start(cfg), steps, NOTHING))
  {
    StartInv(cfg);
    TrailRun(Start(cfg), steps, NOTHING);
  }

  /** Over every run each delayed task ever posted is waiting in the table, taken and not yet run, run, removed or
      dropped by Stop, and in one of these places only; what the loop takes it runs, in the order it took it, and by the
      time it is back at its wait it has run it all. */
  lemma DelayedTasksConserved(cfg: Config, steps: seq<Step>)
    ensures var s, tr := Exec(Start(cfg), steps), TrailOf(Start(cfg), steps, NOTHING);
      && multiset(Entries(tr.inserted))
         == multiset(s.clock.delayed) + multiset(InLoop(s.loop)) + multiset(tr.ran) + multiset(Entries(tr.erased))
            + multiset(tr.dropped)
      && tr.taken == tr.ran + InLoop(s.loop)
      && (!s.loop.RunningDue? ==> tr.taken == tr.ran)
  {
    ReachedTrail(cfg, steps);
  }

  /** What one round takes is the front of the table as far as it is due, and nothing else leaves the table that way. */
  lemma RoundTakesTheDue(s: State, tr: Trail, now: Word)
    requires s.loop.AtTakeDue?
    ensures var t, tr' := Next(s, ByLoop(LoopStep.TakeDue(now))), Seen(tr, s, ByLoop(LoopStep.TakeDue(now)));
      exists k: nat | k <= |s.clock.delayed| ::
        && (forall i | 0 <= i < k :: IsDue(s.clock.delayed[i].dueTick, now))
        && (k < |s.clock.delayed| ==> !IsDue(s.clock.delayed[k].dueTick, now))
        && t.clock.delayed == s.clock.delayed[k..] && tr'.taken == tr.taken + s.clock.delayed[..k]
        && InLoop(t.loop) == s.clock.delayed[..k] && (t.clock.pending <==> t.clock.delayed != [])
  {
    DueCountStops(s.clock.delayed, now);
  }

  /** Over every run ids are given out in a circle, so that two tasks share one only if a multiple of IDS posts lie
      between them; and no call is noted twice. */
  lemma DelayedIdsInCircle(cfg: Config, steps: seq<Step>, i: nat, j: nat)
    requires var tr := TrailOf(Start(cfg), steps, NOTHING); i < j < |tr.inserted|
    ensures var tr := TrailOf(Start(cfg), steps, NOTHING);
      && tr.inserted[i].e.id == i % IDS + 1 && tr.inserted[j].e.id == j % IDS + 1
      && (tr.inserted[i].e.id == tr.inserted[j].e.id <==> (j - i) % IDS == 0)
      && tr.inserted[i].c != tr.inserted[j].c
  {
    ReachedTrail(cfg, steps);
    SameIdExactly(j, i);
  }

  /** Over every run PostAsyncTask with a delay succeeds exactly if its task went into the table, RemoveAsyncTask
      exactly if an entry with its id came out, PostAsyncTask without a delay exactly if its message went into the ring,
      and PostSyncTask exactly if its task was run to the end before the call gave up. */
  lemma ResultsMeanWhatTheySay(cfg: Config, steps: seq<Step>, c: CallId)
    requires var s := Exec(Start(cfg), steps); c in s.calls && IsOver(s.calls[c])
    ensures var s, tr := Exec(Start(cfg), steps), TrailOf(Start(cfg), steps, NOTHING);
      var call := s.calls[c];
      match call.kind
      case Delayed(_) => call.pc.ret == Success <==> exists n | n in tr.inserted :: n.c == c
      case Remove(id) => call.pc.ret == Success <==> exists n | n in tr.erased :: n.c == c && n.e.id == id
      case Async => call.pc.ret == Success <==> TaskMsg(c) in s.queue.accepted
      case Sync =>
        call.pc.ret == Success <==> Finished(TaskMsg(c), true) in s.queue.finished && !call.abandoned
      case _ => true
  {
    ReachedTrail(cfg, steps);
    ReachedInv(cfg, steps);
    var s, tr := Exec(Start(cfg), steps), TrailOf(Start(cfg), steps, NOTHING);
    hide Exec, TrailOf, NOTHING, Start;
    assert ResultOk(s.calls[c], c in Callers(tr.inserted), c in Callers(tr.erased));
    if s.calls[c].kind.Async? {
      AcceptedIfPushed(s, c);
    } else if s.calls[c].kind.Sync? {
      AnsweredIfRan(s, c);
    }
  }

  lemma AcceptedIfPushed(s: State, c: CallId)
    requires Inv(s) && c in s.calls
    ensures TaskMsg(c) in s.queue.accepted <==> s.calls[c].pushed
  {
    assert Copies(s.queue.accepted, TaskMsg(c)) == if MailOf(s, c).pushed then 1 else 0;
  }

  lemma {:induction false} VerdictIn(f: seq<Finished>, c: CallId)
    requires Copies(Msgs(f), TaskMsg(c)) <= 1
    ensures Finished(TaskMsg(c), true) in f <==> Verdict(f, c) == Some(true)
  {
    if f != [] {
      var init, x := f[..|f| - 1], f[|f| - 1];
      assert f == init + [x];
      MsgsAppend(init, x);
      CopiesAppend(Msgs(init), TaskMsg(c), x.m);
      VerdictIn(init, c);
      VerdictCounts(init, c);
      if Finished(TaskMsg(c), true) in init {
        assert Verdict(init, c).Some?;
      }
    }
  }

  lemma AnsweredIfRan(s: State, c: CallId)
    requires Inv(s) && c in s.calls && s.calls[c].kind.Sync?
    ensures Finished(TaskMsg(c), true) in s.queue.finished <==> s.calls[c].done && s.calls[c].status == Success
  {
    var f := Msgs(s.queue.finished);
    assert s.queue.accepted == f + (Hand(s.loop) + s.queue.ring);
    assert Copies(s.queue.accepted, TaskMsg(c)) == if MailOf(s, c).pushed then 1 else 0;
    VerdictIn(s.queue.finished, c);
    assert !MailOf(s, c).async;
  }
}
