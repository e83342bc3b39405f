/** The timer message and the delayed table: timerMessageQueued_ is a token held in one place, and a table
    with entries is always watched by something that will arm the timer. */
module LoopTimer {
  import opened Options
  import opened DelayedTable
  import opened LoopModel
  import opened LoopQueue
  import opened LoopStop

  // ---------------------------------------------------------------- the token

  /** The callback set timerMessageQueued_ and has neither queued the message nor cleared it. */
  predicate IsFlagger(call: Call) {
    call.kind.Timer? && call.pc in {Flagged, Pushing, Unflagging}
  }

  ghost function Flaggers(calls: map<CallId, Call>): set<CallId> {
    set c | c in calls && IsFlagger(calls[c])
  }

  lemma FlaggersUpdate(calls: map<CallId, Call>, c: CallId, call: Call)
    ensures Flaggers(calls[c := call]) == if IsFlagger(call) then Flaggers(calls) + {c} else Flaggers(calls) - {c}
  {
  }

  /** The timer message in the loop's hand. */
  function InHandTimer(loop: Loop): nat {
    if Hand(loop) == [TimerMsg] then 1 else 0
  }

  function One(b: bool): nat {
    if b then 1 else 0
  }

  /** One token: with a callback, in the ring or in the loop's hand when the flag is set, nowhere when it
      is not. */
  ghost predicate TokenOk(s: State) {
    |Flaggers(s.calls)| + Copies(s.queue.ring, TimerMsg) + InHandTimer(s.loop) == One(s.clock.flag)
  }

  /** How one step of a call moves the token. */
  ghost predicate TokenEffect(s: State, c: CallId, t: State) {
    var before := c in s.calls && IsFlagger(s.calls[c]);
    var after := c in t.calls && IsFlagger(t.calls[c]);
    && t.loop == s.loop
    && (if before == after then
          && t.clock.flag == s.clock.flag
          && (t.queue.ring == s.queue.ring || exists m: Msg :: m != TimerMsg && t.queue.ring == s.queue.ring + [m])
        else if after then !s.clock.flag && t.clock.flag && t.queue.ring == s.queue.ring
        else
          || (t.queue.ring == s.queue.ring && !t.clock.flag)
          || (t.queue.ring == s.queue.ring + [TimerMsg] && t.clock.flag == s.clock.flag))
  }

  lemma TokenFrame(s: State, c: CallId, step: CallStep)
    requires FrameStep(step) && (c in s.calls ==> CallOk(s.calls[c]))
    ensures TokenEffect(s, c, CallNext(s, c, step))
  {
  }

  lemma TokenEnqueue(s: State, c: CallId, step: CallStep)
    requires EnqueueStep(step) && (c in s.calls ==> CallOk(s.calls[c]))
    ensures TokenEffect(s, c, CallNext(s, c, step))
  {
    if step.Push? && At(s, c, Pushing) && !s.calls[c].kind.Timer? {
      assert MessageOf(c, s.calls[c].kind) != TimerMsg;
    }
  }

  lemma TokenTable(s: State, c: CallId, step: CallStep)
    requires TableStep(step) && (c in s.calls ==> CallOk(s.calls[c]))
    ensures TokenEffect(s, c, CallNext(s, c, step))
  {
  }

  lemma TokenWaiter(s: State, c: CallId, step: CallStep)
    requires WaiterStep(step) && (c in s.calls ==> CallOk(s.calls[c]))
    ensures TokenEffect(s, c, CallNext(s, c, step))
  {
  }

  lemma TokenCallback(s: State, c: CallId, step: CallStep)
    requires CallbackStep(step) && (c in s.calls ==> CallOk(s.calls[c]))
    ensures TokenEffect(s, c, CallNext(s, c, step))
  {
  }

  lemma TokenByStep(s: State, c: CallId, step: CallStep)
    requires c in s.calls ==> CallOk(s.calls[c])
    ensures TokenEffect(s, c, CallNext(s, c, step))
  {
    if FrameStep(step) {
      TokenFrame(s, c, step);
    } else if EnqueueStep(step) {
      TokenEnqueue(s, c, step);
    } else if TableStep(step) {
      TokenTable(s, c, step);
    } else if WaiterStep(step) {
      TokenWaiter(s, c, step);
    } else {
      TokenCallback(s, c, step);
    }
  }

  lemma TokenByCall(s: State, c: CallId, step: CallStep)
    requires TokenOk(s) && CallsOk(s)
    ensures TokenOk(CallNext(s, c, step))
  {
    var t := CallNext(s, c, step);
    TokenByStep(s, c, step);
    CallStepOk(s, c, step);
    if t.calls != s.calls {
      FlaggersUpdate(s.calls, c, t.calls[c]);
    }
    TokenMoves(s, c, t);
  }

  lemma TokenMoves(s: State, c: CallId, t: State)
    requires TokenOk(s) && TokenEffect(s, c, t)
    requires t.calls == s.calls || (c in t.calls && Flaggers(t.calls)
          == if IsFlagger(t.calls[c]) then Flaggers(s.calls) + {c} else Flaggers(s.calls) - {c})
    ensures TokenOk(t)
  {
    assert c in Flaggers(s.calls) <==> c in s.calls && IsFlagger(s.calls[c]);
  }

  lemma CopiesOfTail(ring: seq<Msg>, m: Msg)
    requires ring != []
    ensures Copies(ring, m) == One(ring[0] == m) + Copies(ring[1..], m)
  {
    assert ring == [ring[0]] + ring[1..];
  }

  /** A pop takes the token from the ring into the loop's hand. */
  lemma TokenByPop(s: State, step: LoopStep)
    requires TokenOk(s) && (step.Pop? || step.Drain?)
    ensures TokenOk(LoopNext(s, step))
  {
    var t := LoopNext(s, step);
    PopEffect(s, step);
    assert t.clock == s.clock && t.calls == s.calls;
    if t.queue.ring != s.queue.ring {
      CopiesOfTail(s.queue.ring, TimerMsg);
    }
  }

  /** Outside a pop the token stays, or the loop lets go of it and clears the flag. */
  lemma TokenDropped(s: State, step: LoopStep)
    requires !step.Pop? && !step.Drain? && !step.Complete?
    ensures var t := LoopNext(s, step);
      && t.queue.ring == s.queue.ring && t.calls == s.calls
      && (|| (t.clock.flag == s.clock.flag && InHandTimer(t.loop) == InHandTimer(s.loop))
          || (!t.clock.flag && InHandTimer(s.loop) == 1 && InHandTimer(t.loop) == 0))
  {
  }

  lemma TokenByComplete(s: State)
    requires TokenOk(s)
    ensures TokenOk(CompleteNext(s))
  {
    var t := CompleteNext(s);
    if t.calls != s.calls {
      FlaggersUpdate(s.calls, s.loop.c, t.calls[s.loop.c]);
    }
  }

  lemma TokenByLoop(s: State, step: LoopStep)
    requires TokenOk(s)
    ensures TokenOk(LoopNext(s, step))
  {
    if step.Pop? || step.Drain? {
      TokenByPop(s, step);
    } else if step.Complete? {
      TokenByComplete(s);
    } else {
      TokenDropped(s, step);
    }
  }

  lemma TokenByStop(s: State, step: StopStep)
    requires TokenOk(s)
    ensures TokenOk(StopNext(s, step))
  {
  }

  /** The extra slot of the ring is always free for the timer message: its Enqueue is never refused for
      want of room, however many ordinary messages wait. */
  lemma TimerAlwaysFits(s: State, c: CallId)
    requires TokenOk(s) && FitsRing(s) && At(s, c, Pushing) && s.calls[c].kind.Timer?
    ensures |s.queue.ring| < Limit(s.cfg, Timer)
    ensures TimerMsg !in s.queue.ring
  {
    assert c in Flaggers(s.calls);
    assert Copies(s.queue.ring, TimerMsg) == 0;
  }

  // ---------------------------------------------------------------- no delayed task is stranded

  /** A timer callback that will test timerMessageQueued_ or restart the timer. */
  predicate IsLive(call: Call) {
    call.kind.Timer? && call.pc in {Fired, Entered, Admitted, Rearming}
  }

  /** Something is still going to look at the delayed table: the timer is pending, the timer message is on
      its way, a callback is part-way through, or the loop is about to take the due tasks. */
  ghost predicate Watched(s: State) {
    s.clock.pending || s.clock.flag || s.loop.AtTakeDue? || exists c | c in s.calls :: IsLive(s.calls[c])
  }

  /** No call of Stop has taken effect. */
  predicate NotStopping(stopper: Stopper) {
    stopper == Idle || stopper == Undoing
  }

  ghost predicate WatchOk(s: State) {
    NotStopping(s.stopper) && s.clock.delayed != [] && !s.clock.lost ==> Watched(s)
  }

  /** The witness a watching callback leaves: it stays live, or the watch passes on. */
  lemma WatchPasses(s: State, c: CallId, step: CallStep, w: CallId)
    requires w in s.calls && IsLive(s.calls[w]) && !CallNext(s, c, step).clock.lost
    requires CallsOk(s)
    ensures Watched(CallNext(s, c, step))
  {
    var t := CallNext(s, c, step);
    CallStepOk(s, c, step);
    if w != c {
      assert w in t.calls && t.calls[w] == s.calls[w];
    } else {
      LiveStep(s, c, step);
    }
  }

  lemma LiveStep(s: State, c: CallId, step: CallStep)
    requires c in s.calls && IsLive(s.calls[c])
    ensures var t := CallNext(s, c, step);
      t.clock.lost || t.clock.pending || t.clock.flag || (c in t.calls && IsLive(t.calls[c]))
  {
  }

  /** The timer and the flag stop watching only by passing the watch to a callback, or when the table is
      re-armed. */
  lemma TimerStep(s: State, c: CallId, step: CallStep)
    requires (s.clock.pending || s.clock.flag) && (c in s.calls ==> CallOk(s.calls[c]))
    ensures var t := CallNext(s, c, step);
      t.clock.pending || t.clock.flag || t.clock.delayed == [] || (c in t.calls && IsLive(t.calls[c]))
  {
    var t := CallNext(s, c, step);
    if TableStep(step) {
      ArmingStep(s, c, step);
    }
  }

  /** Whatever is put first in the table, or comes first by a removal, is armed for. */
  lemma ArmingStep(s: State, c: CallId, step: CallStep)
    requires TableStep(step)
    ensures var t := CallNext(s, c, step);
      && (t.clock.delayed == [] || t.clock.pending || (t.clock.pending == s.clock.pending && s.clock.delayed != []))
      && t.clock.flag == s.clock.flag && t.loop == s.loop
      && (t.clock.lost ==> s.clock.lost)
  {
  }

  /** A table step on a table nobody watches finds it empty or lost, or arms the timer. */
  lemma WatchByCall(s: State, c: CallId, step: CallStep)
    requires WatchOk(s) && CallsOk(s)
    ensures WatchOk(CallNext(s, c, step))
  {
    var t := CallNext(s, c, step);
    QuietClock(s, c, step);
    if NotStopping(t.stopper) && t.clock.delayed != [] && !t.clock.lost && !t.clock.pending {
      if TableStep(step) {
        ArmingStep(s, c, step);
      }
      if s.clock.delayed != [] && !s.clock.lost {
        if s.clock.pending || s.clock.flag {
          TimerStep(s, c, step);
        } else if !s.loop.AtTakeDue? {
          var w :| w in s.calls && IsLive(s.calls[w]);
          WatchPasses(s, c, step, w);
        }
      }
    }
  }

  /** Outside the table steps the table is untouched, and only a restart of the timer forgets a lost expiry. */
  lemma QuietClock(s: State, c: CallId, step: CallStep)
    ensures var t := CallNext(s, c, step);
      && t.stopper == s.stopper && t.loop == s.loop
      && (!TableStep(step) ==> t.clock.delayed == s.clock.delayed)
      && (s.clock.lost && !t.clock.lost ==> t.clock.delayed == [] || t.clock.pending)
  {
  }

  lemma WatchByLoop(s: State, step: LoopStep)
    requires WatchOk(s) && StopOk(s)
    ensures WatchOk(LoopNext(s, step))
  {
    var t := LoopNext(s, step);
    if exists w | w in s.calls :: IsLive(s.calls[w]) {
      var w :| w in s.calls && IsLive(s.calls[w]);
      assert w in t.calls && IsLive(t.calls[w]);
    }
  }

  lemma WatchByStop(s: State, step: StopStep)
    requires WatchOk(s)
    ensures WatchOk(StopNext(s, step))
  {
    assert StopNext(s, step).calls == s.calls;
  }

  /** Until Stop is called from the loop itself, no expiry is refused while the handler runs. */
  predicate NothingLost(s: State) {
    s.stopper != Undoing && (s.clock.lost ==> !NotStopping(s.stopper))
  }

  lemma NothingLostStep(s: State, step: Step)
    requires NothingLost(s) && StopOk(s) && step != ByStop(Cas(true))
    ensures NothingLost(Next(s, step))
  {
    match step
    case ByCall(c, call) => LostByCall(s, c, call);
    case ByLoop(_) =>
    case ByStop(_) =>
  }

  lemma LostByCall(s: State, c: CallId, step: CallStep)
    ensures var t := CallNext(s, c, step);
      t.stopper == s.stopper && (t.clock.lost ==> s.clock.lost || s.run != Running)
  {
  }
}
