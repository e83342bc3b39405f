/** The order of a stop, the count of active calls, and the agreement between ring and queue semaphore. */
module LoopStop {
  import opened Options
  import opened LoopModel
  import opened LoopQueue

  // ---------------------------------------------------------------- the order of a stop

  /** The loop has read a state other than RUNNING and will not wait again. */
  predicate LastRound(loop: Loop) {
    match loop
    case AtWait => false
    case AtPop => false
    case InHand(_, stopping) => stopping
    case ClearingFlag(stopping) => stopping
    case AtTakeDue(stopping) => stopping
    case RunningDue(_, stopping) => stopping
    case RunningTask(_, stopping) => stopping
    case Completing(_, _, stopping) => stopping
    case Recycling(_, stopping) => stopping
    case Draining => true
    case Exiting => true
    case Exited => true
  }

  /** Stop has posted its wake-up. */
  predicate WakePosted(stopper: Stopper) {
    stopper !in {Idle, Undoing, StoppingTimer, Dropping, Waking}
  }

  predicate SawExit(stopper: Stopper) {
    stopper in {CheckingCalls, CheckingTimer, CheckingSlots, ReleasingObjects, Finishing, AllDone}
  }

  predicate StopOk(s: State) {
    && s.run == (if s.stopper == Idle then Running else if s.stopper == AllDone then Stopped else Stopping)
    && (s.stopper == Undoing ==> OnLoop(s.loop))
    && (LastRound(s.loop) || s.loop.Recycling? ==> s.stopper != Idle && s.stopper != Undoing)
    && (SawExit(s.stopper) ==> s.loop == Exited)
  }

  lemma StopOkByCall(s: State, c: CallId, step: CallStep)
    requires StopOk(s)
    ensures StopOk(CallNext(s, c, step))
  {
  }

  lemma StopOkByLoop(s: State, step: LoopStep)
    requires StopOk(s)
    ensures StopOk(LoopNext(s, step))
  {
  }

  lemma StopOkByStop(s: State, step: StopStep)
    requires StopOk(s)
    ensures StopOk(StopNext(s, step))
  {
  }

  // ---------------------------------------------------------------- active calls

  /** The call counts in activeCalls_. */
  predicate IsActive(call: Call) {
    call.pc != Fired && !call.pc.Left?
  }

  ghost function Active(calls: map<CallId, Call>): set<CallId> {
    set c | c in calls && IsActive(calls[c])
  }

  ghost predicate CountOk(s: State) {
    s.active == |Active(s.calls)|
  }

  lemma ActiveUpdate(calls: map<CallId, Call>, c: CallId, call: Call)
    ensures Active(calls[c := call]) == if IsActive(call) then Active(calls) + {c} else Active(calls) - {c}
  {
  }

  /** A step changes the counter exactly by the change in its own call's standing. */
  lemma CountByCall(s: State, c: CallId, step: CallStep)
    requires CountOk(s) && CallsOk(s)
    ensures CountOk(CallNext(s, c, step))
  {
    var t := CallNext(s, c, step);
    CallStepOk(s, c, step);
    if t.calls != s.calls {
      ActiveUpdate(s.calls, c, t.calls[c]);
      ActiveDelta(s, c, step);
    } else {
      ActiveSame(s, c, step);
    }
  }

  lemma ActiveSame(s: State, c: CallId, step: CallStep)
    requires CallNext(s, c, step).calls == s.calls
    ensures CallNext(s, c, step).active == s.active
  {
  }

  lemma ActiveDelta(s: State, c: CallId, step: CallStep)
    requires CallNext(s, c, step).calls != s.calls
    ensures var t := CallNext(s, c, step);
      c in t.calls && t.active - s.active
        == (if IsActive(t.calls[c]) then 1 else 0) - (if c in s.calls && IsActive(s.calls[c]) then 1 else 0)
  {
    if FrameStep(step) {
      ActiveDeltaFrame(s, c, step);
    } else {
      ActiveDeltaInside(s, c, step);
    }
  }

  lemma ActiveDeltaFrame(s: State, c: CallId, step: CallStep)
    requires FrameStep(step) && CallNext(s, c, step).calls != s.calls
    ensures var t := CallNext(s, c, step);
      c in t.calls && t.active - s.active
        == (if IsActive(t.calls[c]) then 1 else 0) - (if c in s.calls && IsActive(s.calls[c]) then 1 else 0)
  {
  }

  lemma ActiveDeltaInside(s: State, c: CallId, step: CallStep)
    requires !FrameStep(step) && CallNext(s, c, step).calls != s.calls
    ensures var t := CallNext(s, c, step);
      t.active == s.active && c in s.calls && IsActive(s.calls[c]) && c in t.calls && IsActive(t.calls[c])
  {
  }

  /** Completing a call moves no program counter. */
  lemma CountByLoop(s: State, step: LoopStep)
    requires CountOk(s)
    ensures CountOk(LoopNext(s, step))
  {
    if step.Complete? {
      CountByComplete(s);
    } else {
      NoCallChanges(s, step);
    }
  }

  lemma NoCallChanges(s: State, step: LoopStep)
    requires !step.Complete?
    ensures LoopNext(s, step).calls == s.calls && LoopNext(s, step).active == s.active
  {
  }

  lemma CountByComplete(s: State)
    requires CountOk(s)
    ensures CountOk(CompleteNext(s))
  {
    var t := CompleteNext(s);
    if t.calls != s.calls {
      ActiveUpdate(s.calls, s.loop.c, t.calls[s.loop.c]);
    }
  }

  lemma CountByStop(s: State, step: StopStep)
    requires CountOk(s)
    ensures CountOk(StopNext(s, step))
  {
  }

  // ---------------------------------------------------------------- ring and semaphore

  /** The calls between Enqueue's lock region and its post. */
  ghost function Signallers(calls: map<CallId, Call>): set<CallId> {
    set c | c in calls && calls[c].pc == Signalling
  }

  lemma SignallersUpdate(calls: map<CallId, Call>, c: CallId, call: Call)
    ensures Signallers(calls[c := call])
         == if call.pc == Signalling then Signallers(calls) + {c} else Signallers(calls) - {c}
  {
  }

  /** Until Stop posts its wake-up and the loop starts its last round: one message in the ring for every
      signal in the semaphore, every call about to signal, and the signal the loop has just taken. */
  ghost predicate Balanced(s: State) {
    !WakePosted(s.stopper) && !LastRound(s.loop) ==>
      |s.queue.ring| == s.queue.sem + |Signallers(s.calls)| + if s.loop == AtPop then 1 else 0
  }

  /** After Stop has posted, a loop that may still wait finds a signal. */
  predicate WillWake(s: State) {
    WakePosted(s.stopper) && !LastRound(s.loop) && s.loop != AtPop ==> s.queue.sem > 0
  }

  ghost predicate SignalsOk(s: State) {
    Balanced(s) && WillWake(s) && s.queue.sem <= s.cfg.queueSize + 1
  }

  /** What one step of a call does to the ring and its semaphore. */
  ghost predicate SignalEffect(s: State, c: CallId, t: State) {
    && t.loop == s.loop && t.stopper == s.stopper && t.cfg == s.cfg
    && (var before := if c in s.calls && s.calls[c].pc == Signalling then 1 else 0;
        var after := if c in t.calls && t.calls[c].pc == Signalling then 1 else 0;
        if before == after then t.queue.sem == s.queue.sem && |t.queue.ring| == |s.queue.ring|
        else if after == 1 then t.queue.sem == s.queue.sem && |t.queue.ring| == |s.queue.ring| + 1
        else t.queue == PostTo(s.queue, s.cfg))
  }

  lemma SignalFrame(s: State, c: CallId, step: CallStep)
    requires FrameStep(step)
    ensures SignalEffect(s, c, CallNext(s, c, step))
  {
  }

  lemma SignalEnqueue(s: State, c: CallId, step: CallStep)
    requires EnqueueStep(step)
    ensures SignalEffect(s, c, CallNext(s, c, step))
  {
  }

  lemma SignalTable(s: State, c: CallId, step: CallStep)
    requires TableStep(step) || CallbackStep(step)
    ensures SignalEffect(s, c, CallNext(s, c, step))
  {
  }

  lemma SignalWaiter(s: State, c: CallId, step: CallStep)
    requires WaiterStep(step)
    ensures SignalEffect(s, c, CallNext(s, c, step))
  {
  }

  lemma SignalByStep(s: State, c: CallId, step: CallStep)
    ensures SignalEffect(s, c, CallNext(s, c, step))
  {
    if FrameStep(step) {
      SignalFrame(s, c, step);
    } else if EnqueueStep(step) {
      SignalEnqueue(s, c, step);
    } else if WaiterStep(step) {
      SignalWaiter(s, c, step);
    } else {
      SignalTable(s, c, step);
    }
  }

  /** While the balance holds, the semaphore's maximum refuses no post: the ring would have to hold one
      message more than it has slots. */
  lemma NoSignalRefused(s: State, c: CallId)
    requires SignalsOk(s) && FitsRing(s) && At(s, c, Signalling) && !WakePosted(s.stopper) && !LastRound(s.loop)
    ensures PostTo(s.queue, s.cfg).sem == s.queue.sem + 1
  {
    assert c in Signallers(s.calls);
  }

  lemma SignalsByCall(s: State, c: CallId, step: CallStep)
    requires SignalsOk(s) && FitsRing(s) && CallsOk(s)
    ensures SignalsOk(CallNext(s, c, step))
  {
    var t := CallNext(s, c, step);
    SignalByStep(s, c, step);
    CallStepOk(s, c, step);
    if t.calls != s.calls {
      SignallersUpdate(s.calls, c, t.calls[c]);
      if At(s, c, Signalling) && !WakePosted(s.stopper) && !LastRound(s.loop) {
        NoSignalRefused(s, c);
      }
    }
  }

  lemma SignalsByLoop(s: State, step: LoopStep)
    requires SignalsOk(s) && StopOk(s)
    ensures SignalsOk(LoopNext(s, step))
  {
    if step.Wait? || step.Pop? || step.Drain? {
      SignalsByPop(s, step);
    } else {
      SignalsByDispatch(s, step);
    }
  }

  lemma SignalsByPop(s: State, step: LoopStep)
    requires SignalsOk(s) && StopOk(s) && (step.Wait? || step.Pop? || step.Drain?)
    ensures SignalsOk(LoopNext(s, step))
  {
  }

  lemma SignalsByDispatch(s: State, step: LoopStep)
    requires SignalsOk(s) && !step.Wait? && !step.Pop? && !step.Drain?
    ensures SignalsOk(LoopNext(s, step))
  {
    DispatchSignals(s, step);
  }

  /** Dispatching touches neither the ring nor its semaphore, and ends where the pop's reading says. */
  lemma DispatchSignals(s: State, step: LoopStep)
    requires !step.Wait? && !step.Pop? && !step.Drain?
    ensures var t := LoopNext(s, step);
      && t.queue.ring == s.queue.ring && t.queue.sem == s.queue.sem && t.cfg == s.cfg && t.stopper == s.stopper
      && LastRound(t.loop) == LastRound(s.loop) && (t.loop == AtPop <==> s.loop == AtPop)
      && Signallers(t.calls) == Signallers(s.calls)
  {
    var t := LoopNext(s, step);
    if step.Complete? && t.calls != s.calls {
      SignallersUpdate(s.calls, s.loop.c, t.calls[s.loop.c]);
    } else {
      assert t.calls == s.calls;
    }
  }

  lemma SignalsByStop(s: State, step: StopStep)
    requires SignalsOk(s)
    ensures SignalsOk(StopNext(s, step))
  {
  }
}
