/** The synchronous handshake: waiter slots, their semaphores, and what PostSyncTask returns. */
module LoopSlots {
  import opened Options
  import opened LoopModel
  import opened LoopQueue

  predicate TookSignal(call: Call) {
    call.pc == Woken(true)
  }

  predicate Sized(s: State) {
    |s.waiters.slots| == |s.waiters.sems| == s.cfg.waiters
  }

  /** The slot a call holds is in use by that call. */
  ghost predicate Owned(s: State) {
    forall c | c in s.calls && Holds(s.calls[c]) ::
      s.calls[c].slot < |s.waiters.slots| && s.waiters.slots[s.calls[c].slot] == Some(c)
  }

  /** A slot in use is held by the call it names. */
  ghost predicate NoLeak(s: State) {
    forall i | 0 <= i < |s.waiters.slots| && s.waiters.slots[i].Some? ::
      var c := s.waiters.slots[i].value;
      c in s.calls && Holds(s.calls[c]) && s.calls[c].slot == i
  }

  /** The signal a slot's semaphore should hold: one when its context is done and the signal not yet taken. */
  function SignalDue(s: State, i: nat): nat
    requires i < |s.waiters.slots|
  {
    match s.waiters.slots[i]
    case None => 0
    case Some(c) => if c in s.calls && s.calls[c].done && !TookSignal(s.calls[c]) then 1 else 0
  }

  ghost predicate SemsOk(s: State) {
    forall i | 0 <= i < |s.waiters.sems| && i < |s.waiters.slots| :: s.waiters.sems[i] == SignalDue(s, i)
  }

  /** What a synchronous call knows once it has its answer. */
  predicate AnswerOk(call: Call) {
    call.kind.Sync? ==>
      && (TookSignal(call) ==> call.done)
      && (call.pc.Leaving? || call.pc.Left? ==>
            && (call.pushed ==> call.done || call.abandoned)
            && (call.pc.ret == Success ==> call.done && call.status == Success))
  }

  ghost predicate AnswersOk(s: State) {
    forall c | c in s.calls :: AnswerOk(s.calls[c])
  }

  ghost predicate SlotsOk(s: State) {
    Sized(s) && Owned(s) && NoLeak(s) && SemsOk(s) && AnswersOk(s)
  }

  // ---------------------------------------------------------------- steps outside the waiter code

  /** Nothing about c's slot and answer differs. */
  predicate SameStanding(s: State, c: CallId, t: State) {
    && t.waiters == s.waiters && t.cfg == s.cfg
    && (var before := c in s.calls && Holds(s.calls[c]);
        var after := c in t.calls && Holds(t.calls[c]);
        before == after)
    && (c in t.calls ==> AnswerOk(t.calls[c]))
    && (c in s.calls ==> (
          && c in t.calls && t.calls[c].slot == s.calls[c].slot && t.calls[c].done == s.calls[c].done
          && TookSignal(t.calls[c]) == TookSignal(s.calls[c])))
  }

  lemma StandingFrame(s: State, c: CallId, step: CallStep)
    requires FrameStep(step) && (c in s.calls ==> CallOk(s.calls[c]) && AnswerOk(s.calls[c]))
    ensures SameStanding(s, c, CallNext(s, c, step))
  {
  }

  lemma StandingEnqueue(s: State, c: CallId, step: CallStep)
    requires EnqueueStep(step) && (c in s.calls ==> CallOk(s.calls[c]) && AnswerOk(s.calls[c]))
    ensures SameStanding(s, c, CallNext(s, c, step))
  {
  }

  lemma StandingTable(s: State, c: CallId, step: CallStep)
    requires TableStep(step) && (c in s.calls ==> CallOk(s.calls[c]) && AnswerOk(s.calls[c]))
    ensures SameStanding(s, c, CallNext(s, c, step))
  {
  }

  lemma StandingCallback(s: State, c: CallId, step: CallStep)
    requires CallbackStep(step) && (c in s.calls ==> CallOk(s.calls[c]) && AnswerOk(s.calls[c]))
    ensures SameStanding(s, c, CallNext(s, c, step))
  {
  }

  lemma StandingKeeps(s: State, c: CallId, t: State)
    requires SlotsOk(s) && OnlyCall(s, c, t) && SameStanding(s, c, t)
    ensures SlotsOk(t)
  {
    assert forall i | 0 <= i < |t.waiters.slots| :: SignalDue(t, i) == SignalDue(s, i);
  }

  // ---------------------------------------------------------------- the waiter code

  /** A free slot's semaphore holds no signal: an abandoned call leaves none behind for the next caller. */
  lemma FreeSlotIsSilent(s: State, i: nat)
    requires SlotsOk(s) && i < |s.waiters.slots| && s.waiters.slots[i] == None
    ensures s.waiters.sems[i] == 0
  {
  }

  /** No slot belongs to two calls. */
  lemma SlotsAreExclusive(s: State, c: CallId, d: CallId)
    requires SlotsOk(s) && c in s.calls && d in s.calls && Holds(s.calls[c]) && Holds(s.calls[d])
    requires s.calls[c].slot == s.calls[d].slot
    ensures c == d
  {
  }

  /** Taking a free slot by a call that holds none. */
  lemma ClaimKeeps(s: State, c: CallId, i: nat, t: State)
    requires SlotsOk(s) && c in s.calls && !Holds(s.calls[c]) && !s.calls[c].done
    requires i < |s.waiters.slots| && s.waiters.slots[i] == None
    requires c in t.calls && t.calls == s.calls[c := t.calls[c]] && t.cfg == s.cfg
    requires Holds(t.calls[c]) && AnswerOk(t.calls[c]) && t.calls[c].slot == i && !t.calls[c].done
    requires t.waiters == s.waiters.(slots := s.waiters.slots[i := Some(c)])
    ensures SlotsOk(t)
  {
    forall j | 0 <= j < |t.waiters.slots| ensures t.waiters.sems[j] == SignalDue(t, j) {
      assert s.waiters.sems[j] == SignalDue(s, j);
      assert s.waiters.slots[j] != Some(c);
    }
  }

  lemma AcquireKeeps(s: State, c: CallId)
    requires SlotsOk(s) && CallsOk(s)
    ensures SlotsOk(AcquireNext(s, c))
  {
    var t := AcquireNext(s, c);
    if t != s {
      assert CallOk(s.calls[c]) && AnswerOk(s.calls[c]) && !Holds(s.calls[c]);
      if FirstFree(s.waiters.slots) < |s.waiters.slots| {
        ClaimKeeps(s, c, FirstFree(s.waiters.slots), t);
      } else {
        StandingKeeps(s, c, t);
      }
    }
  }

  /** Giving up a slot, its semaphore at zero, by the call that holds it. */
  lemma FreeKeeps(s: State, c: CallId, t: State)
    requires SlotsOk(s) && c in s.calls && Holds(s.calls[c])
    requires c in t.calls && t.calls == s.calls[c := t.calls[c]] && t.cfg == s.cfg
    requires !Holds(t.calls[c]) && AnswerOk(t.calls[c])
    requires var i := s.calls[c].slot;
      && t.waiters.slots == s.waiters.slots[i := None] && t.waiters.sems == s.waiters.sems[i := 0]
    ensures SlotsOk(t)
  {
    var i := s.calls[c].slot;
    forall j | 0 <= j < |t.waiters.slots| ensures t.waiters.sems[j] == SignalDue(t, j) {
      if j != i {
        assert s.waiters.sems[j] == SignalDue(s, j);
        assert s.waiters.slots[j] != Some(c);
      }
    }
  }

  lemma GiveBackKeeps(s: State, c: CallId)
    requires SlotsOk(s) && CallsOk(s)
    ensures SlotsOk(GiveBackNext(s, c))
  {
    var t := GiveBackNext(s, c);
    if t != s {
      assert CallOk(s.calls[c]) && AnswerOk(s.calls[c]) && Holds(s.calls[c]);
      var i := s.calls[c].slot;
      assert s.waiters.sems[i] == SignalDue(s, i);
      assert s.waiters.sems == s.waiters.sems[i := 0];
      FreeKeeps(s, c, t);
    }
  }

  /** A wait that ends with the signal takes the signal of its own, finished task. */
  lemma WaitOkKeeps(s: State, c: CallId)
    requires SlotsOk(s) && CallsOk(s)
    ensures SlotsOk(WaitOkNext(s, c))
  {
    var t := WaitOkNext(s, c);
    if t != s {
      assert CallOk(s.calls[c]) && Holds(s.calls[c]);
      var i := s.calls[c].slot;
      assert s.waiters.sems[i] == SignalDue(s, i);
      forall j | 0 <= j < |t.waiters.slots| ensures t.waiters.sems[j] == SignalDue(t, j) {
        assert s.waiters.sems[j] == SignalDue(s, j);
        assert j != i ==> s.waiters.slots[j] != Some(c);
      }
    }
  }

  lemma WaitTimeoutKeeps(s: State, c: CallId)
    requires SlotsOk(s) && CallsOk(s)
    ensures SlotsOk(WaitTimeoutNext(s, c))
  {
    var t := WaitTimeoutNext(s, c);
    assert c in s.calls ==> CallOk(s.calls[c]) && AnswerOk(s.calls[c]);
    StandingKeeps(s, c, t);
  }

  /** Whichever way the wait ended, a call that finds its context done leaves its slot free and silent: a
      timeout that raced with completion takes exactly the one signal left. */
  lemma ConcludeTakesTheSignal(s: State, c: CallId)
    requires SlotsOk(s) && CallsOk(s) && c in s.calls && s.calls[c].pc.Woken? && s.calls[c].done
    ensures var i, t := s.calls[c].slot, ConcludeNext(s, c);
      && i < |s.waiters.slots| && s.waiters.sems[i] == (if s.calls[c].pc.ok then 0 else 1)
      && t.waiters.slots == s.waiters.slots[i := None] && t.waiters.sems == s.waiters.sems[i := 0]
      && t.calls == s.calls[c := s.calls[c].(pc := Leaving(s.calls[c].status))]
  {
    assert CallOk(s.calls[c]) && Holds(s.calls[c]);
    var i := s.calls[c].slot;
    assert s.waiters.sems[i] == SignalDue(s, i);
    assert s.calls[c].pc.ok ==> s.waiters.sems == s.waiters.sems[i := 0];
  }

  lemma ConcludeKeeps(s: State, c: CallId)
    requires SlotsOk(s) && CallsOk(s)
    ensures SlotsOk(ConcludeNext(s, c))
  {
    var t := ConcludeNext(s, c);
    if t != s {
      assert CallOk(s.calls[c]) && AnswerOk(s.calls[c]) && Holds(s.calls[c]);
      if s.calls[c].done {
        ConcludeTakesTheSignal(s, c);
        FreeKeeps(s, c, t);
      } else {
        StandingKeeps(s, c, t);
      }
    }
  }

  lemma SlotsByCall(s: State, c: CallId, step: CallStep)
    requires SlotsOk(s) && CallsOk(s)
    ensures SlotsOk(CallNext(s, c, step))
  {
    assert c in s.calls ==> CallOk(s.calls[c]) && AnswerOk(s.calls[c]);
    if WaiterStep(step) {
      match step
      case Acquire => AcquireKeeps(s, c);
      case GiveBack => GiveBackKeeps(s, c);
      case WaitOk => WaitOkKeeps(s, c);
      case WaitTimeout => WaitTimeoutKeeps(s, c);
      case Conclude => ConcludeKeeps(s, c);
    } else {
      CallStepOk(s, c, step);
      if FrameStep(step) {
        StandingFrame(s, c, step);
      } else if EnqueueStep(step) {
        StandingEnqueue(s, c, step);
      } else if TableStep(step) {
        StandingTable(s, c, step);
      } else {
        StandingCallback(s, c, step);
      }
      StandingKeeps(s, c, CallNext(s, c, step));
    }
  }

  // ---------------------------------------------------------------- the loop's side

  /** The context being completed is not done yet and still has its slot, whose semaphore is at zero: the
      post in Complete is never refused. */
  lemma CompletingHolds(s: State)
    requires SlotsOk(s) && CallsOk(s) && QueueOk(s) && s.loop.Completing?
    ensures var c := s.loop.c;
      && c in s.calls && !s.calls[c].done && Holds(s.calls[c]) && HasSlot(s, c)
      && s.waiters.sems[s.calls[c].slot] == 0
  {
    var c := s.loop.c;
    HandNotFinished(s, c);
    assert c in s.calls && s.calls[c].kind.Sync? && s.calls[c].pushed;
    assert !MailOf(s, c).async;
    assert CallOk(s.calls[c]) && AnswerOk(s.calls[c]);
    assert Holds(s.calls[c]);
    assert s.waiters.sems[s.calls[c].slot] == SignalDue(s, s.calls[c].slot);
  }

  lemma CompleteKeepsSlots(s: State)
    requires SlotsOk(s) && CallsOk(s) && QueueOk(s)
    ensures SlotsOk(CompleteNext(s))
  {
    var t := CompleteNext(s);
    if s.loop.Completing? {
      CompletingHolds(s);
      var c := s.loop.c;
      var i := s.calls[c].slot;
      assert CallOk(s.calls[c]) && AnswerOk(s.calls[c]);
      if s.calls[c].abandoned {
        assert s.waiters.sems == s.waiters.sems[i := 0];
        FreeKeeps(s, c, t);
      } else {
        SignalKeeps(s, c, t);
      }
    }
  }

  /** The signal of a context that has just become done. */
  lemma SignalKeeps(s: State, c: CallId, t: State)
    requires SlotsOk(s) && c in s.calls && Holds(s.calls[c]) && !TookSignal(s.calls[c])
    requires c in t.calls && t.calls == s.calls[c := t.calls[c]] && t.cfg == s.cfg
    requires Holds(t.calls[c]) && AnswerOk(t.calls[c]) && t.calls[c].done && !TookSignal(t.calls[c])
    requires t.calls[c].slot == s.calls[c].slot
    requires t.waiters == s.waiters.(sems := s.waiters.sems[s.calls[c].slot := 1])
    ensures SlotsOk(t)
  {
    var i := s.calls[c].slot;
    forall j | 0 <= j < |t.waiters.slots| ensures t.waiters.sems[j] == SignalDue(t, j) {
      assert s.waiters.sems[j] == SignalDue(s, j);
      assert j != i ==> s.waiters.slots[j] != Some(c);
    }
  }

  lemma SlotsByLoop(s: State, step: LoopStep)
    requires SlotsOk(s) && CallsOk(s) && QueueOk(s)
    ensures SlotsOk(LoopNext(s, step))
  {
    if step.Complete? {
      CompleteKeepsSlots(s);
    } else {
      SameWaiters(s, step);
    }
  }

  lemma SameWaiters(s: State, step: LoopStep)
    requires SlotsOk(s) && !step.Complete?
    ensures SlotsOk(LoopNext(s, step))
  {
    var t := LoopNext(s, step);
    assert t.waiters == s.waiters && t.calls == s.calls && t.cfg == s.cfg;
    assert forall i | 0 <= i < |t.waiters.slots| :: SignalDue(t, i) == SignalDue(s, i);
  }

  lemma SlotsByStop(s: State, step: StopStep)
    requires SlotsOk(s)
    ensures SlotsOk(StopNext(s, step))
  {
    var t := StopNext(s, step);
    assert forall i | 0 <= i < |t.waiters.slots| :: SignalDue(t, i) == SignalDue(s, i);
  }
}
