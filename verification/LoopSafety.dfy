/** The invariant of the event handler over every interleaving, and what follows from it. */
module LoopSafety {
  import opened Options
  import opened DelayedTable
  import opened LoopModel
  import opened LoopQueue
  import opened LoopStop
  import opened LoopTimer
  import opened LoopSlots

  // ---------------------------------------------------------------- shutdown

  /** Between the state test that saw RUNNING and the exit: the call may reach the kernel objects. */
  predicate Inside(call: Call) {
    !(call.pc.Fired? || call.pc.Entered? || call.pc.Leaving? || call.pc.Left?)
  }

  ghost predicate NobodyInside(s: State) {
    forall c | c in s.calls :: !Inside(s.calls[c])
  }

  predicate SawNoCalls(stopper: Stopper) {
    stopper in {CheckingTimer, CheckingSlots, ReleasingObjects, Finishing, AllDone}
  }

  predicate SawNoTimer(stopper: Stopper) {
    stopper in {CheckingSlots, ReleasingObjects, Finishing, AllDone}
  }

  predicate SawNoSlots(stopper: Stopper) {
    stopper in {ReleasingObjects, Finishing, AllDone}
  }

  /** What each of the three readings saw stays true, although they are made one after another. */
  ghost predicate QuietOk(s: State) {
    && (SawNoCalls(s.stopper) ==> NobodyInside(s))
    && (SawNoTimer(s.stopper) ==> !s.clock.flag)
    && (SawNoSlots(s.stopper) ==> NoneInUse(s.waiters.slots))
    && (s.released ==> (s.stopper == Finishing || s.stopper == AllDone) && !s.clock.pending)
  }

  /** With nobody inside, a step of a call only lets it in by a state that reads RUNNING. */
  lemma OutsideStep(s: State, c: CallId, step: CallStep)
    requires s.run != Running && (c in s.calls ==> !Inside(s.calls[c]))
    ensures var t := CallNext(s, c, step);
      && (c in t.calls ==> !Inside(t.calls[c]))
      && t.clock.flag == s.clock.flag && t.waiters == s.waiters && (t.clock.pending ==> s.clock.pending)
      && t.stopper == s.stopper && t.released == s.released
  {
  }

  lemma QuietFrame(s: State, c: CallId, step: CallStep)
    ensures CallNext(s, c, step).stopper == s.stopper && CallNext(s, c, step).released == s.released
  {
  }

  lemma QuietByCall(s: State, c: CallId, step: CallStep)
    requires QuietOk(s) && StopOk(s) && CallsOk(s)
    ensures QuietOk(CallNext(s, c, step))
  {
    QuietFrame(s, c, step);
    if SawNoCalls(s.stopper) {
      OutsideStep(s, c, step);
      CallStepOk(s, c, step);
    }
  }

  lemma QuietByLoop(s: State, step: LoopStep)
    requires QuietOk(s) && StopOk(s)
    ensures QuietOk(LoopNext(s, step))
  {
    if SawExit(s.stopper) {
      assert LoopNext(s, step) == s;
    }
  }

  lemma QuietByStop(s: State, step: StopStep)
    requires QuietOk(s) && CountOk(s)
    ensures QuietOk(StopNext(s, step))
  {
    if s.active == 0 {
      assert Active(s.calls) == {};
      assert forall c | c in s.calls :: c !in Active(s.calls);
    }
  }

  // ---------------------------------------------------------------- the invariant

  ghost predicate Inv(s: State) {
    && CallsOk(s) && QueueOk(s) && StopOk(s) && CountOk(s) && SignalsOk(s)
    && TokenOk(s) && WatchOk(s) && SlotsOk(s) && QuietOk(s)
  }

  lemma StartInv(cfg: Config)
    ensures Inv(Start(cfg))
  {
    var s := Start(cfg);
    assert Active(s.calls) == {} && Signallers(s.calls) == {} && Flaggers(s.calls) == {};
    assert forall c: CallId :: Copies(s.queue.accepted, TaskMsg(c)) == 0;
    assert Copies(s.queue.ring, TimerMsg) == 0;
  }

  lemma CallInv(s: State, c: CallId, step: CallStep)
    requires Inv(s)
    ensures Inv(CallNext(s, c, step))
  {
    CallsOkByCall(s, c, step);
    QueueOkByCall(s, c, step);
    StopOkByCall(s, c, step);
    CountByCall(s, c, step);
    SignalsByCall(s, c, step);
    TokenByCall(s, c, step);
    WatchByCall(s, c, step);
    SlotsByCall(s, c, step);
    QuietByCall(s, c, step);
  }

  lemma LoopInv(s: State, step: LoopStep)
    requires Inv(s)
    ensures Inv(LoopNext(s, step))
  {
    CallsOkByLoop(s, step);
    QueueOkByLoop(s, step);
    StopOkByLoop(s, step);
    CountByLoop(s, step);
    SignalsByLoop(s, step);
    TokenByLoop(s, step);
    WatchByLoop(s, step);
    SlotsByLoop(s, step);
    QuietByLoop(s, step);
  }

  lemma StopInv(s: State, step: StopStep)
    requires Inv(s)
    ensures Inv(StopNext(s, step))
  {
    QueueOkByStop(s, step);
    StopOkByStop(s, step);
    CountByStop(s, step);
    SignalsByStop(s, step);
    TokenByStop(s, step);
    WatchByStop(s, step);
    SlotsByStop(s, step);
    QuietByStop(s, step);
  }

  lemma NextInv(s: State, step: Step)
    requires Inv(s)
    ensures Inv(Next(s, step))
  {
    match step
    case ByCall(c, call) => CallInv(s, c, call);
    case ByLoop(loop) => LoopInv(s, loop);
    case ByStop(stop) => StopInv(s, stop);
  }

  lemma {:induction false} ExecInv(s: State, steps: seq<Step>)
    requires Inv(s)
    ensures Inv(Exec(s, steps))
    decreases |steps|
  {
    if steps != [] {
      NextInv(s, steps[0]);
      ExecInv(Next(s, steps[0]), steps[1..]);
    }
  }

  lemma ReachedInv(cfg: Config, steps: seq<Step>)
    ensures Inv(Exec(Start(cfg), steps))
  {
    StartInv(cfg);
    ExecInv(Start(cfg), steps);
  }

  lemma {:induction false} ExecAppend(s: State, a: seq<Step>, b: seq<Step>)
    ensures Exec(s, a + b) == Exec(Exec(s, a), b)
    decreases |a|
  {
    if a == [] {
      assert a + b == b;
    } else {
      assert (a + b)[0] == a[0] && (a + b)[1..] == a[1..] + b;
      ExecAppend(Next(s, a[0]), a[1..], b);
    }
  }

  // ---------------------------------------------------------------- messages

  /** In every run the k-th accepted message is the k-th finished one; what is not finished is in the loop's
      hand or in the ring; and no call's message is accepted, hence finished, more than once. */
  lemma MessagesConserved(cfg: Config, steps: seq<Step>)
    ensures var s := Exec(Start(cfg), steps);
      && s.queue.accepted == Msgs(s.queue.finished) + Hand(s.loop) + s.queue.ring
      && (forall i | 0 <= i < |s.queue.finished| :: s.queue.finished[i].m == s.queue.accepted[i])
      && (forall c: CallId :: Copies(s.queue.accepted, TaskMsg(c)) <= 1)
      && |s.queue.ring| <= cfg.queueSize + 1
  {
    ReachedInv(cfg, steps);
    ConfigKept(Start(cfg), steps);
    var s := Exec(Start(cfg), steps);
    assert forall i | 0 <= i < |s.queue.finished| :: s.queue.accepted[i] == Msgs(s.queue.finished)[i];
  }

  lemma CallKeepsLog(s: State, c: CallId, step: CallStep)
    ensures CallNext(s, c, step).cfg == s.cfg && CallNext(s, c, step).queue.finished == s.queue.finished
  {
  }

  /** What is finished stays finished. */
  lemma LogGrows(s: State, step: Step)
    ensures Next(s, step).cfg == s.cfg && s.queue.finished <= Next(s, step).queue.finished
  {
    match step
    case ByCall(c, call) => CallKeepsLog(s, c, call);
    case ByLoop(_) =>
    case ByStop(_) =>
  }

  lemma {:induction false} ConfigKept(s: State, steps: seq<Step>)
    ensures Exec(s, steps).cfg == s.cfg && s.queue.finished <= Exec(s, steps).queue.finished
    decreases |steps|
  {
    if steps != [] {
      LogGrows(s, steps[0]);
      ConfigKept(Next(s, steps[0]), steps[1..]);
    }
  }

  /** Exactly once: every message accepted before the loop's last look at the ring is finished, in order,
      whatever happens afterwards. */
  lemma DrainFinishesAll(cfg: Config, before: seq<Step>, after: seq<Step>)
    requires var s := Exec(Start(cfg), before); s.loop == Draining && s.queue.ring == []
    ensures var s := Exec(Start(cfg), before);
      s.queue.accepted <= Msgs(Exec(s, after).queue.finished)
  {
    ReachedInv(cfg, before);
    var s := Exec(Start(cfg), before);
    ConfigKept(s, after);
    var f := Exec(s, after).queue.finished;
    assert Msgs(f)[..|s.queue.finished|] == Msgs(s.queue.finished);
  }

  predicate LoopOver(s: State) {
    s.loop == Exiting || s.loop == Exited
  }

  lemma OverStaysOver(s: State, step: Step)
    requires LoopOver(s)
    ensures LoopOver(Next(s, step)) && Next(s, step).queue.finished == s.queue.finished
  {
    match step
    case ByCall(c, call) => CallKeepsLoop(s, c, call); CallKeepsLog(s, c, call);
    case ByLoop(_) =>
    case ByStop(_) =>
  }

  lemma CallKeepsLoop(s: State, c: CallId, step: CallStep)
    ensures CallNext(s, c, step).loop == s.loop
  {
  }

  lemma {:induction false} NothingFinishedAfter(s: State, steps: seq<Step>)
    requires LoopOver(s)
    ensures LoopOver(Exec(s, steps)) && Exec(s, steps).queue.finished == s.queue.finished
    decreases |steps|
  {
    if steps != [] {
      OverStaysOver(s, steps[0]);
      NothingFinishedAfter(Next(s, steps[0]), steps[1..]);
    }
  }

  /** The drain ends when the loop finds the ring empty. From then on, whatever happens, the finished messages are
      exactly those that were accepted before: one accepted later is never finished. */
  lemma DrainFinishesExactly(cfg: Config, before: seq<Step>, after: seq<Step>)
    requires var s := Exec(Start(cfg), before); s.loop == Draining && s.queue.ring == []
    ensures var s := Exec(Start(cfg), before);
      Msgs(Exec(Next(s, ByLoop(Drain)), after).queue.finished) == s.queue.accepted
  {
    ReachedInv(cfg, before);
    var s := Exec(Start(cfg), before);
    NothingFinishedAfter(Next(s, ByLoop(Drain)), after);
  }

  lemma RingNotFinished(s: State, c: CallId)
    requires Fifo(s) && OnceEach(s) && Hand(s.loop) == [] && TaskMsg(c) in s.queue.ring
    ensures Copies(Msgs(s.queue.finished), TaskMsg(c)) == 0
  {
    var f := Msgs(s.queue.finished);
    assert s.queue.accepted == f + s.queue.ring;
    assert Copies(s.queue.accepted, TaskMsg(c)) == Copies(f, TaskMsg(c)) + Copies(s.queue.ring, TaskMsg(c));
  }

  /** A message that is in the ring when the loop is over stays there for good. */
  lemma LeftInRing(cfg: Config, before: seq<Step>, after: seq<Step>, c: CallId)
    requires var s := Exec(Start(cfg), before); LoopOver(s) && TaskMsg(c) in s.queue.ring
    ensures Copies(Msgs(Exec(Exec(Start(cfg), before), after).queue.finished), TaskMsg(c)) == 0
  {
    ReachedInv(cfg, before);
    NothingFinishedAfter(Exec(Start(cfg), before), after);
    RingNotFinished(Exec(Start(cfg), before), c);
  }

  // ---------------------------------------------------------------- synchronous calls

  // A call from the loop's own task queues nothing: the task runs inside the call, which is a step of the run.

  /** The step runs the task of the inline call c. */
  predicate RunsInline(s: State, step: Step, c: CallId) {
    step == ByCall(c, RunInline) && At(s, c, Admitted) && s.calls[c].kind.Inline?
  }

  function InlineRuns(s: State, steps: seq<Step>, c: CallId): nat
    decreases |steps|
  {
    if steps == [] then 0
    else (if RunsInline(s, steps[0], c) then 1 else 0) + InlineRuns(Next(s, steps[0]), steps[1..], c)
  }

  predicate EndsWell(s: State, c: CallId) {
    At(s, c, Leaving(Success)) || At(s, c, Left(Success))
  }

  /** How far an inline call can be, and whether its task has run. */
  predicate InlineShape(s: State, c: CallId) {
    c in s.calls && s.calls[c].kind.Inline? ==>
      var pc := s.calls[c].pc; pc == Entered || pc == Admitted || pc.Leaving? || pc.Left?
  }

  function InlineRan(s: State, c: CallId): nat {
    if c in s.calls && s.calls[c].kind.Inline? && EndsWell(s, c) then 1 else 0
  }

  predicate RunsAdd(s: State, step: Step, c: CallId) {
    var t := Next(s, step);
    InlineShape(t, c) && InlineRan(t, c) == InlineRan(s, c) + if RunsInline(s, step, c) then 1 else 0
  }

  /** A step of a call leaves the other calls alone. */
  lemma OthersKept(s: State, d: CallId, step: CallStep, c: CallId)
    requires c != d
    ensures var t := CallNext(s, d, step);
      (c in t.calls <==> c in s.calls) && (c in s.calls ==> t.calls[c] == s.calls[c])
  {
  }

  lemma FrameStepRuns(s: State, c: CallId, step: CallStep)
    requires InlineShape(s, c) && FrameStep(step)
    ensures RunsAdd(s, ByCall(c, step), c)
  {
  }

  lemma EnqueueStepRuns(s: State, c: CallId, step: CallStep)
    requires InlineShape(s, c) && EnqueueStep(step)
    ensures RunsAdd(s, ByCall(c, step), c)
  {
  }

  lemma TableStepRuns(s: State, c: CallId, step: CallStep)
    requires InlineShape(s, c) && TableStep(step)
    ensures RunsAdd(s, ByCall(c, step), c)
  {
  }

  lemma WaiterStepRuns(s: State, c: CallId, step: CallStep)
    requires InlineShape(s, c) && WaiterStep(step)
    ensures RunsAdd(s, ByCall(c, step), c)
  {
  }

  lemma CallbackStepRuns(s: State, c: CallId, step: CallStep)
    requires InlineShape(s, c) && CallbackStep(step)
    ensures RunsAdd(s, ByCall(c, step), c)
  {
  }

  lemma CallStepRuns(s: State, d: CallId, step: CallStep, c: CallId)
    requires InlineShape(s, c)
    ensures RunsAdd(s, ByCall(d, step), c)
  {
    if c != d {
      OthersKept(s, d, step, c);
    } else if FrameStep(step) {
      FrameStepRuns(s, c, step);
    } else if EnqueueStep(step) {
      EnqueueStepRuns(s, c, step);
    } else if TableStep(step) {
      TableStepRuns(s, c, step);
    } else if WaiterStep(step) {
      WaiterStepRuns(s, c, step);
    } else {
      CallbackStepRuns(s, c, step);
    }
  }

  lemma LoopStepRuns(s: State, step: LoopStep, c: CallId)
    requires InlineShape(s, c)
    ensures RunsAdd(s, ByLoop(step), c)
  {
  }

  lemma {:induction false} RunsAddUp(s: State, steps: seq<Step>, c: CallId)
    requires InlineShape(s, c)
    ensures InlineRan(Exec(s, steps), c) == InlineRan(s, c) + InlineRuns(s, steps, c)
    decreases |steps|
  {
    if steps != [] {
      match steps[0] {
        case ByCall(d, step) => CallStepRuns(s, d, step, c);
        case ByLoop(step) => LoopStepRuns(s, step, c);
        case ByStop(step) =>
      }
      RunsAddUp(Next(s, steps[0]), steps[1..], c);
    }
  }

  /** PostSyncTask from the loop's own task runs its task once if and only if it reports success, and not at all
      otherwise. */
  lemma InlineRunsOnce(cfg: Config, steps: seq<Step>, c: CallId)
    requires var s := Exec(Start(cfg), steps); c in s.calls && s.calls[c].kind.Inline?
    ensures InlineRuns(Start(cfg), steps, c) == if EndsWell(Exec(Start(cfg), steps), c) then 1 else 0
  {
    RunsAddUp(Start(cfg), steps, c);
  }

  /** PostSyncTask reports success only for a task that ran to the end, and ran once: on the loop if the call queued it,
      inside the call if that came from the loop. */
  lemma SuccessMeansRanOnce(cfg: Config, steps: seq<Step>, c: CallId)
    requires var s := Exec(Start(cfg), steps);
      c in s.calls && (s.calls[c].kind.Sync? || s.calls[c].kind.Inline?) && EndsWell(s, c)
    ensures var s := Exec(Start(cfg), steps);
      if IsSync(s, c) then Verdict(s.queue.finished, c) == Some(true) && Copies(Msgs(s.queue.finished), TaskMsg(c)) == 1
      else InlineRuns(Start(cfg), steps, c) == 1
  {
    var s := Exec(Start(cfg), steps);
    if IsSync(s, c) {
      ReachedInv(cfg, steps);
      assert CallOk(s.calls[c]) && AnswerOk(s.calls[c]);
      assert !MailOf(s, c).async;
      FinishedOnce(s, c);
    } else {
      InlineRunsOnce(cfg, steps, c);
    }
  }

  /** A finished message is finished once. */
  lemma FinishedOnce(s: State, c: CallId)
    requires Fifo(s) && OnceEach(s) && Verdict(s.queue.finished, c).Some?
    ensures Copies(Msgs(s.queue.finished), TaskMsg(c)) == 1
  {
    VerdictCounts(s.queue.finished, c);
    var f, rest := Msgs(s.queue.finished), Hand(s.loop) + s.queue.ring;
    assert s.queue.accepted == f + rest;
    assert Copies(s.queue.accepted, TaskMsg(c)) == Copies(f, TaskMsg(c)) + Copies(rest, TaskMsg(c));
  }

  /** A slot is never lost: one in use belongs to a call still inside, or to an abandoned one whose message
      is accepted and not yet finished. */
  lemma SlotsComeBack(cfg: Config, steps: seq<Step>, i: nat)
    requires var s := Exec(Start(cfg), steps); i < |s.waiters.slots| && s.waiters.slots[i].Some?
    ensures var s := Exec(Start(cfg), steps);
      var c := s.waiters.slots[i].value;
      && c in s.calls
      && (Inside(s.calls[c]) || (s.calls[c].abandoned && Verdict(s.queue.finished, c) == None
                                 && Copies(s.queue.accepted, TaskMsg(c)) == 1))
  {
    ReachedInv(cfg, steps);
    var s := Exec(Start(cfg), steps);
    var c := s.waiters.slots[i].value;
    assert CallOk(s.calls[c]);
    assert !MailOf(s, c).async;
  }

  /** No interleaving leaves a signal behind on a free slot, and none refuses the signal of a completion. */
  lemma SignalsMatchSlots(cfg: Config, steps: seq<Step>)
    ensures var s := Exec(Start(cfg), steps);
      && (forall i | 0 <= i < |s.waiters.slots| && i < |s.waiters.sems| ::
            s.waiters.sems[i] <= 1 && (s.waiters.slots[i] == None ==> s.waiters.sems[i] == 0))
      && (s.loop.Completing? ==> HasSlot(s, s.loop.c) && s.waiters.sems[s.calls[s.loop.c].slot] == 0)
  {
    ReachedInv(cfg, steps);
    var s := Exec(Start(cfg), steps);
    if s.loop.Completing? {
      CompletingHolds(s);
    }
  }

  // ---------------------------------------------------------------- ring and semaphore

  /** While the handler runs, the ring and the queue semaphore agree: no message waits unsignalled, no pop
      finds the ring empty and no post is refused. */
  lemma RunningBalance(cfg: Config, steps: seq<Step>)
    requires Exec(Start(cfg), steps).run == Running
    ensures var s := Exec(Start(cfg), steps);
      && |s.queue.ring| == s.queue.sem + |Signallers(s.calls)| + (if s.loop == AtPop then 1 else 0)
      && (s.loop == AtPop ==> s.queue.ring != [])
      && (forall c | At(s, c, Signalling) :: PostTo(s.queue, s.cfg).sem == s.queue.sem + 1)
      && (s.loop == AtWait && s.queue.ring != [] ==> s.queue.sem > 0 || exists c :: At(s, c, Signalling))
  {
    ReachedInv(cfg, steps);
    var s := Exec(Start(cfg), steps);
    forall c | At(s, c, Signalling) ensures PostTo(s.queue, s.cfg).sem == s.queue.sem + 1 {
      NoSignalRefused(s, c);
    }
    if s.loop == AtWait && s.queue.ring != [] && s.queue.sem == 0 {
      assert |Signallers(s.calls)| > 0;
      var c :| c in Signallers(s.calls);
      assert At(s, c, Signalling);
    }
  }

  /** The timer message always fits and is never in the ring twice; and a loop that Stop has woken never
      waits without a signal. */
  lemma TimerAndStopGetThrough(cfg: Config, steps: seq<Step>)
    ensures var s := Exec(Start(cfg), steps);
      && Copies(s.queue.ring, TimerMsg) <= 1
      && (forall c | At(s, c, Pushing) && s.calls[c].kind.Timer? :: |s.queue.ring| < Limit(s.cfg, Timer))
      && (WakePosted(s.stopper) && s.loop == AtWait ==> s.queue.sem > 0)
  {
    ReachedInv(cfg, steps);
    var s := Exec(Start(cfg), steps);
    forall c | At(s, c, Pushing) && s.calls[c].kind.Timer? ensures |s.queue.ring| < Limit(s.cfg, Timer) {
      TimerAlwaysFits(s, c);
    }
  }

  // ---------------------------------------------------------------- delayed tasks

  /** A table with entries that nothing will look at. */
  ghost predicate Stranded(s: State) {
    s.run == Running && s.clock.delayed != [] && !Watched(s)
  }

  /** Stop is never called from the loop, as its documentation demands. */
  predicate NeverStopsItself(steps: seq<Step>) {
    forall i | 0 <= i < |steps| :: steps[i] != ByStop(Cas(true))
  }

  lemma {:induction false} NothingLostInRun(s: State, steps: seq<Step>)
    requires Inv(s) && NothingLost(s) && NeverStopsItself(steps)
    ensures NothingLost(Exec(s, steps))
    decreases |steps|
  {
    if steps != [] {
      NextInv(s, steps[0]);
      NothingLostStep(s, steps[0]);
      assert forall i | 0 <= i < |steps[1..]| :: steps[1..][i] == steps[i + 1];
      NothingLostInRun(Next(s, steps[0]), steps[1..]);
    }
  }

  /** No run in which Stop is not called from the loop strands a delayed task. */
  lemma NothingStranded(cfg: Config, steps: seq<Step>)
    requires NeverStopsItself(steps)
    ensures !Stranded(Exec(Start(cfg), steps))
  {
    ReachedInv(cfg, steps);
    StartInv(cfg);
    NothingLostInRun(Start(cfg), steps);
  }

  /** And in any run at all, a stranded task is one whose expiry a callback refused while RUNNING was
      withdrawn for the length of such a call. */
  lemma StrandedMeansLost(cfg: Config, steps: seq<Step>)
    ensures Stranded(Exec(Start(cfg), steps)) ==> Exec(Start(cfg), steps).clock.lost
  {
    ReachedInv(cfg, steps);
  }

  // ---------------------------------------------------------------- shutdown

  /** The step uses a mutex, a semaphore, the timer, the ring or the timer message. */
  predicate Touches(step: Step) {
    match step
    case ByCall(_, call) => !(call.Begin? || call.EnterCallback? || call.TestState? || call.Leave? || call.RunInline?)
    case ByLoop(_) => true
    case ByStop(stop) => !(stop.Cas? || stop.Undo? || stop.FinishStop?)
  }

  lemma UntouchedByCall(s: State, c: CallId, step: CallStep)
    requires (c in s.calls ==> !Inside(s.calls[c])) && !s.clock.pending && Touches(ByCall(c, step))
    ensures CallNext(s, c, step) == s
  {
  }

  lemma UntouchedByLoop(s: State, step: LoopStep)
    requires s.loop == Exited
    ensures LoopNext(s, step) == s
  {
  }

  lemma ReleasedStays(s: State, step: Step)
    requires Inv(s) && s.released
    ensures Next(s, step).released
  {
    match step
    case ByCall(c, call) => QuietFrame(s, c, call);
    case ByLoop(_) =>
    case ByStop(_) =>
  }

  lemma {:induction false} ReleasedForGood(s: State, steps: seq<Step>)
    requires Inv(s) && s.released
    ensures Exec(s, steps).released
    decreases |steps|
  {
    if steps != [] {
      ReleasedStays(s, steps[0]);
      NextInv(s, steps[0]);
      ReleasedForGood(Next(s, steps[0]), steps[1..]);
    }
  }

  lemma ReleasedState(s: State)
    requires Inv(s) && s.released
    ensures s.loop == Exited && NobodyInside(s) && !s.clock.flag && NoneInUse(s.waiters.slots) && !s.clock.pending
    ensures s.stopper == Finishing || s.stopper == AllDone
  {
  }

  lemma ReleasedUntouched(s: State, step: Step)
    requires s.loop == Exited && NobodyInside(s) && !s.clock.pending && (s.stopper == Finishing || s.stopper == AllDone)
    requires Touches(step)
    ensures Next(s, step) == s
  {
    match step
    case ByCall(c, call) => UntouchedByCall(s, c, call);
    case ByLoop(loop) => UntouchedByLoop(s, loop);
    case ByStop(_) =>
  }

  /** Once Stop has freed the kernel objects, and ever after, no step that uses one is enabled: the loop has
      exited, no call that saw RUNNING is active, no slot is held and no timer message is queued. */
  lemma NoUseAfterRelease(cfg: Config, before: seq<Step>, after: seq<Step>, step: Step)
    requires Exec(Start(cfg), before).released && Touches(step)
    ensures var s := Exec(Start(cfg), before + after);
      && s.released && s.loop == Exited && NobodyInside(s) && !s.clock.flag && NoneInUse(s.waiters.slots)
      && Next(s, step) == s
  {
    ReachedInv(cfg, before);
    ExecAppend(Start(cfg), before, after);
    ReleasedForGood(Exec(Start(cfg), before), after);
    ReachedInv(cfg, before + after);
    ReleasedState(Exec(Start(cfg), before + after));
    ReleasedUntouched(Exec(Start(cfg), before + after), step);
  }

  /** The objects are freed only in that state too; and what is then left in the ring is asynchronous
      messages alone, accepted after the loop's last look. */
  lemma ReleaseIsQuiet(cfg: Config, steps: seq<Step>, i: nat)
    requires var s := Exec(Start(cfg), steps); s.stopper == ReleasingObjects && i < |s.queue.ring|
    ensures var s := Exec(Start(cfg), steps);
      && s.loop == Exited && NobodyInside(s) && !s.clock.flag && NoneInUse(s.waiters.slots)
      && s.queue.ring[i].TaskMsg? && s.queue.ring[i].c in s.calls && s.calls[s.queue.ring[i].c].kind.Async?
  {
    ReachedInv(cfg, steps);
    var s := Exec(Start(cfg), steps);
    var m := s.queue.ring[i];
    assert Copies(s.queue.ring, m) > 0;
    var f := Msgs(s.queue.finished);
    assert s.queue.accepted == f + s.queue.ring;
    assert Copies(s.queue.accepted, m) == Copies(f, m) + Copies(s.queue.ring, m);
    assert m != TimerMsg;
    var c := m.c;
    assert MailOf(s, c).pushed && CallOk(s.calls[c]) && AnswerOk(s.calls[c]);
    if s.calls[c].kind.Sync? {
      assert Copies(f, TaskMsg(c)) == 0;
      VerdictCounts(s.queue.finished, c);
      assert !MailOf(s, c).async && !s.calls[c].done;
      assert Holds(s.calls[c]);
      assert false;
    }
  }
}
