/** Messages: every accepted message is finished, in the loop's hand or in the ring, in acceptance order. */
module LoopQueue {
  import opened Options
  import opened LoopModel

  /** The call has a waiter slot. */
  predicate Holds(call: Call) {
    call.kind.Sync? && (
      || call.pc in {Acquired, Pushing, Signalling, Waiting}
      || call.pc.Releasing?
      || call.pc.Woken?
      || (call.abandoned && !call.done))
  }

  /** What a program counter says about the kind of the call and the history of its message. */
  predicate CallOk(call: Call) {
    && (match call.pc
        case Fired => call.kind.Timer?
        case Flagged => call.kind.Timer?
        case Unflagging => call.kind.Timer?
        case Rearming => call.kind.Timer?
        case Acquired => call.kind.Sync? && !call.pushed
        case Releasing(ret) => call.kind.Sync? && !call.pushed && ret != Success
        case Pushing => (call.kind.Async? || call.kind.Sync? || call.kind.Timer?) && !call.pushed
        case Signalling => (call.kind.Async? || call.kind.Sync? || call.kind.Timer?) && call.pushed == !call.kind.Timer?
        case Waiting => call.kind.Sync? && call.pushed
        case Woken(_) => call.kind.Sync? && call.pushed
        case Entered => !call.pushed
        case Admitted => !call.pushed
        case Leaving(_) => true
        case Left(_) => true)
    && (call.pushed ==> call.kind.Async? || call.kind.Sync?)
    && (call.done || call.abandoned ==> call.kind.Sync? && call.pushed)
    && (call.abandoned ==> call.pc == Leaving(Fail) || call.pc == Left(Fail))
  }

  ghost predicate CallsOk(s: State) {
    forall c | c in s.calls :: CallOk(s.calls[c])
  }

  function Msgs(f: seq<Finished>): (ms: seq<Msg>)
    ensures |ms| == |f|
  {
    seq(|f|, i requires 0 <= i < |f| => f[i].m)
  }

  /** The message the loop has popped and is not through with. */
  function Hand(loop: Loop): seq<Msg> {
    match loop
    case InHand(m, _) => [m]
    case ClearingFlag(_) => [TimerMsg]
    case RunningTask(c, _) => [TaskMsg(c)]
    case Completing(c, _, _) => [TaskMsg(c)]
    case Recycling(m, _) => [m]
    case _ => []
  }

  function Copies(ms: seq<Msg>, m: Msg): nat {
    multiset(ms)[m]
  }

  /** What the calls have to do with messages. */
  datatype Mail = Mail(pushed: bool, async: bool, done: bool, ok: bool)

  function MailOf(s: State, c: CallId): Mail {
    if c in s.calls then
      var call := s.calls[c];
      Mail(call.pushed, call.pushed && call.kind.Async?, call.done, call.done && call.status == Success)
    else Mail(false, false, false, false)
  }

  /** How the loop finished with c's message, if it has. */
  function Verdict(f: seq<Finished>, c: CallId): Option<bool> {
    if f == [] then None
    else if f[|f| - 1].m == TaskMsg(c) then Some(f[|f| - 1].ran)
    else Verdict(f[..|f| - 1], c)
  }

  ghost predicate Fifo(s: State) {
    s.queue.accepted == Msgs(s.queue.finished) + Hand(s.loop) + s.queue.ring
  }

  ghost predicate OnceEach(s: State) {
    forall c: CallId :: Copies(s.queue.accepted, TaskMsg(c)) == if MailOf(s, c).pushed then 1 else 0
  }

  /** A synchronous context is done exactly when its message is finished, and its status tells how. */
  ghost predicate Answered(s: State) {
    forall c: CallId :: !MailOf(s, c).async ==>
      Verdict(s.queue.finished, c) == if MailOf(s, c).done then Some(MailOf(s, c).ok) else None
  }

  predicate CompletesSync(s: State) {
    s.loop.Completing? ==> IsSync(s, s.loop.c)
  }

  predicate FitsRing(s: State) {
    |s.queue.ring| <= s.cfg.queueSize + if TimerMsg in s.queue.ring then 1 else 0
  }

  ghost predicate QueueOk(s: State) {
    Fifo(s) && OnceEach(s) && Answered(s) && CompletesSync(s) && FitsRing(s)
  }

  lemma MsgsAppend(f: seq<Finished>, x: Finished)
    ensures Msgs(f + [x]) == Msgs(f) + [x.m]
  {
  }

  lemma VerdictAppend(f: seq<Finished>, x: Finished, c: CallId)
    ensures Verdict(f + [x], c) == if x.m == TaskMsg(c) then Some(x.ran) else Verdict(f, c)
  {
    assert (f + [x])[..|f|] == f;
  }

  /** A finished message is among the accepted ones. */
  lemma {:induction false} VerdictCounts(f: seq<Finished>, c: CallId)
    ensures Verdict(f, c).Some? <==> Copies(Msgs(f), TaskMsg(c)) > 0
  {
    if f != [] {
      var init := f[..|f| - 1];
      VerdictCounts(init, c);
      MsgsAppend(init, f[|f| - 1]);
      assert f == init + [f[|f| - 1]];
    }
  }

  // ---------------------------------------------------------------- CallsOk

  /** Only c's entry differs between the two tables of calls. */
  ghost predicate OnlyCall(s: State, c: CallId, t: State) {
    t.calls == s.calls || (c in t.calls && t.calls == s.calls[c := t.calls[c]])
  }

  ghost predicate StepOk(s: State, c: CallId, step: CallStep) {
    var t := CallNext(s, c, step);
    OnlyCall(s, c, t) && (c in t.calls ==> CallOk(t.calls[c]))
  }

  lemma FrameStepOk(s: State, c: CallId, step: CallStep)
    requires FrameStep(step) && (c in s.calls ==> CallOk(s.calls[c]))
    ensures StepOk(s, c, step)
  {
  }

  lemma EnqueueStepOk(s: State, c: CallId, step: CallStep)
    requires EnqueueStep(step) && (c in s.calls ==> CallOk(s.calls[c]))
    ensures StepOk(s, c, step)
  {
  }

  lemma TableStepOk(s: State, c: CallId, step: CallStep)
    requires TableStep(step) && (c in s.calls ==> CallOk(s.calls[c]))
    ensures StepOk(s, c, step)
  {
  }

  lemma WaiterStepOk(s: State, c: CallId, step: CallStep)
    requires WaiterStep(step) && (c in s.calls ==> CallOk(s.calls[c]))
    ensures StepOk(s, c, step)
  {
    if step.Acquire? || step.GiveBack? {
      SlotStepOk(s, c, step);
    } else {
      WakeStepOk(s, c, step);
    }
  }

  lemma SlotStepOk(s: State, c: CallId, step: CallStep)
    requires (step.Acquire? || step.GiveBack?) && (c in s.calls ==> CallOk(s.calls[c]))
    ensures StepOk(s, c, step)
  {
  }

  lemma WakeStepOk(s: State, c: CallId, step: CallStep)
    requires (step.WaitOk? || step.WaitTimeout? || step.Conclude?) && (c in s.calls ==> CallOk(s.calls[c]))
    ensures StepOk(s, c, step)
  {
  }

  lemma CallbackStepOk(s: State, c: CallId, step: CallStep)
    requires CallbackStep(step) && (c in s.calls ==> CallOk(s.calls[c]))
    ensures StepOk(s, c, step)
  {
  }

  /** A step of a call changes no other call and leaves its own as its program counter says. */
  lemma CallStepOk(s: State, c: CallId, step: CallStep)
    requires c in s.calls ==> CallOk(s.calls[c])
    ensures StepOk(s, c, step)
  {
    if FrameStep(step) {
      FrameStepOk(s, c, step);
    } else if EnqueueStep(step) {
      EnqueueStepOk(s, c, step);
    } else if TableStep(step) {
      TableStepOk(s, c, step);
    } else if WaiterStep(step) {
      WaiterStepOk(s, c, step);
    } else {
      CallbackStepOk(s, c, step);
    }
  }

  lemma CallsOkByCall(s: State, c: CallId, step: CallStep)
    requires CallsOk(s)
    ensures CallsOk(CallNext(s, c, step))
  {
    CallStepOk(s, c, step);
  }

  // ---------------------------------------------------------------- QueueOk

  /** Nothing about messages differs. */
  ghost predicate SameMail(s: State, t: State) {
    && t.cfg == s.cfg && Hand(t.loop) == Hand(s.loop) && (t.loop.Completing? ==> t.loop == s.loop)
    && t.queue.ring == s.queue.ring && t.queue.accepted == s.queue.accepted && t.queue.finished == s.queue.finished
    && (forall c: CallId :: MailOf(t, c) == MailOf(s, c))
    && (forall c: CallId :: IsSync(s, c) ==> IsSync(t, c))
  }

  lemma SameMailKeeps(s: State, t: State)
    requires QueueOk(s) && SameMail(s, t)
    ensures QueueOk(t)
  {
  }

  /** The call that steps, and the loop and its queue, are as they were in what concerns messages. */
  predicate OwnMail(s: State, c: CallId, t: State) {
    && t.cfg == s.cfg && t.loop == s.loop
    && t.queue.ring == s.queue.ring && t.queue.accepted == s.queue.accepted && t.queue.finished == s.queue.finished
    && MailOf(t, c) == MailOf(s, c) && (IsSync(s, c) ==> IsSync(t, c))
  }

  lemma OwnIsSame(s: State, c: CallId, t: State)
    requires OwnMail(s, c, t) && OnlyCall(s, c, t)
    ensures SameMail(s, t)
  {
  }

  lemma FrameStepMail(s: State, c: CallId, step: CallStep)
    requires FrameStep(step)
    ensures OwnMail(s, c, CallNext(s, c, step))
  {
  }

  lemma EnqueueStepMail(s: State, c: CallId, step: CallStep)
    requires EnqueueStep(step) && !step.Push?
    ensures OwnMail(s, c, CallNext(s, c, step))
  {
  }

  lemma TableStepMail(s: State, c: CallId, step: CallStep)
    requires TableStep(step)
    ensures OwnMail(s, c, CallNext(s, c, step))
  {
  }

  lemma WaiterStepMail(s: State, c: CallId, step: CallStep)
    requires WaiterStep(step)
    ensures OwnMail(s, c, CallNext(s, c, step))
  {
    if step.Acquire? || step.GiveBack? {
      SlotStepMail(s, c, step);
    } else {
      WakeStepMail(s, c, step);
    }
  }

  lemma SlotStepMail(s: State, c: CallId, step: CallStep)
    requires step.Acquire? || step.GiveBack?
    ensures OwnMail(s, c, CallNext(s, c, step))
  {
  }

  lemma WakeStepMail(s: State, c: CallId, step: CallStep)
    requires step.WaitOk? || step.WaitTimeout? || step.Conclude?
    ensures OwnMail(s, c, CallNext(s, c, step))
  {
  }

  lemma CallbackStepMail(s: State, c: CallId, step: CallStep)
    requires CallbackStep(step)
    ensures OwnMail(s, c, CallNext(s, c, step))
  {
  }

  lemma CopiesAppend(ms: seq<Msg>, m: Msg, x: Msg)
    ensures Copies(ms + [x], m) == Copies(ms, m) + if x == m then 1 else 0
  {
  }

  /** The state after c's message has been put into the ring. */
  function Accept(s: State, c: CallId): State
    requires c in s.calls
  {
    var m := MessageOf(c, s.calls[c].kind);
    s.(queue := s.queue.(ring := s.queue.ring + [m], accepted := s.queue.accepted + [m]),
       calls := s.calls[c := s.calls[c].(pc := Signalling, pushed := !s.calls[c].kind.Timer?)])
  }

  predicate CanAccept(s: State, c: CallId) {
    At(s, c, Pushing) && CallOk(s.calls[c]) && |s.queue.ring| < Limit(s.cfg, s.calls[c].kind)
  }

  lemma AcceptFifo(s: State, c: CallId)
    requires CanAccept(s, c) && Fifo(s)
    ensures Fifo(Accept(s, c))
  {
    var m := MessageOf(c, s.calls[c].kind);
    assert Msgs(s.queue.finished) + Hand(s.loop) + s.queue.ring + [m]
        == Msgs(s.queue.finished) + Hand(s.loop) + (s.queue.ring + [m]);
  }

  lemma AcceptMail(s: State, c: CallId, d: CallId)
    requires CanAccept(s, c)
    ensures MailOf(Accept(s, c), d).done == MailOf(s, d).done && MailOf(Accept(s, c), d).ok == MailOf(s, d).ok
    ensures MailOf(Accept(s, c), d).pushed == (MailOf(s, d).pushed || MessageOf(c, s.calls[c].kind) == TaskMsg(d))
    ensures d != c ==> MailOf(Accept(s, c), d) == MailOf(s, d)
    ensures !MailOf(s, c).pushed && !MailOf(s, c).done
  {
  }

  lemma AcceptOnce(s: State, c: CallId)
    requires CanAccept(s, c) && OnceEach(s)
    ensures OnceEach(Accept(s, c))
  {
    var m := MessageOf(c, s.calls[c].kind);
    forall d: CallId
      ensures Copies(Accept(s, c).queue.accepted, TaskMsg(d)) == if MailOf(Accept(s, c), d).pushed then 1 else 0
    {
      CopiesAppend(s.queue.accepted, TaskMsg(d), m);
      AcceptMail(s, c, d);
      AcceptMail(s, c, c);
    }
  }

  lemma AcceptAnswered(s: State, c: CallId)
    requires CanAccept(s, c) && Fifo(s) && OnceEach(s) && Answered(s)
    ensures Answered(Accept(s, c))
  {
    AcceptMail(s, c, c);
    NotFinishedYet(s, c);
    forall d: CallId | !MailOf(Accept(s, c), d).async
      ensures Verdict(s.queue.finished, d)
           == if MailOf(Accept(s, c), d).done then Some(MailOf(Accept(s, c), d).ok) else None
    {
      AcceptMail(s, c, d);
    }
  }

  lemma AcceptFits(s: State, c: CallId)
    requires CanAccept(s, c) && FitsRing(s)
    ensures FitsRing(Accept(s, c))
  {
    var m := MessageOf(c, s.calls[c].kind);
    assert (s.queue.ring + [m])[|s.queue.ring|] == m;
    assert forall i | 0 <= i < |s.queue.ring| :: (s.queue.ring + [m])[i] == s.queue.ring[i];
  }

  /** Accepting a message leaves room for the timer message, and makes the call's count one. */
  lemma PushKeeps(s: State, c: CallId)
    requires QueueOk(s) && (c in s.calls ==> CallOk(s.calls[c]))
    ensures QueueOk(PushNext(s, c))
  {
    if CanAccept(s, c) {
      AcceptFifo(s, c);
      AcceptOnce(s, c);
      AcceptAnswered(s, c);
      AcceptFits(s, c);
    } else {
      SameMailKeeps(s, PushNext(s, c));
    }
  }

  /** The message of a call that has not been pushed is not finished. */
  lemma NotFinishedYet(s: State, c: CallId)
    requires Fifo(s) && OnceEach(s) && !MailOf(s, c).pushed
    ensures Verdict(s.queue.finished, c) == None
  {
    VerdictCounts(s.queue.finished, c);
    var f, rest := Msgs(s.queue.finished), Hand(s.loop) + s.queue.ring;
    assert s.queue.accepted == f + rest;
    assert Copies(s.queue.accepted, TaskMsg(c)) == Copies(f, TaskMsg(c)) + Copies(rest, TaskMsg(c));
  }

  lemma QueueOkByCall(s: State, c: CallId, step: CallStep)
    requires QueueOk(s) && CallsOk(s)
    ensures QueueOk(CallNext(s, c, step))
  {
    if step.Push? {
      PushKeeps(s, c);
    } else {
      if FrameStep(step) {
        FrameStepMail(s, c, step);
      } else if EnqueueStep(step) {
        EnqueueStepMail(s, c, step);
      } else if TableStep(step) {
        TableStepMail(s, c, step);
      } else if WaiterStep(step) {
        WaiterStepMail(s, c, step);
      } else {
        CallbackStepMail(s, c, step);
      }
      CallStepOk(s, c, step);
      OwnIsSame(s, c, CallNext(s, c, step));
      SameMailKeeps(s, CallNext(s, c, step));
    }
  }

  // The loop's steps.

  lemma PopFifo(s: State, t: State)
    requires Fifo(s) && Hand(s.loop) == [] && s.queue.ring != []
    requires t.queue == s.queue.(ring := s.queue.ring[1..]) && Hand(t.loop) == [s.queue.ring[0]]
    ensures Fifo(t)
  {
    assert s.queue.ring == [s.queue.ring[0]] + s.queue.ring[1..];
  }

  /** Taking a message off a ring that fits leaves one that fits. */
  lemma PopFits(s: State, t: State)
    requires FitsRing(s) && s.queue.ring != [] && t.queue.ring == s.queue.ring[1..] && t.cfg == s.cfg
    ensures FitsRing(t)
  {
    assert s.queue.ring == [s.queue.ring[0]] + s.queue.ring[1..];
  }

  lemma LogFifo(s: State, t: State, m: Msg, ran: bool)
    requires Fifo(s) && Hand(s.loop) == [m] && Hand(t.loop) == [] && t.queue == Log(s.queue, m, ran)
    ensures Fifo(t)
  {
    MsgsAppend(s.queue.finished, Finished(m, ran));
  }

  /** The message in hand is not finished. */
  lemma HandNotFinished(s: State, c: CallId)
    requires Fifo(s) && OnceEach(s) && Hand(s.loop) == [TaskMsg(c)]
    ensures MailOf(s, c).pushed && Verdict(s.queue.finished, c) == None
  {
    VerdictCounts(s.queue.finished, c);
    var f, rest := Msgs(s.queue.finished), s.queue.ring;
    assert s.queue.accepted == f + [TaskMsg(c)] + rest;
    assert Copies(s.queue.accepted, TaskMsg(c)) == Copies(f, TaskMsg(c)) + 1 + Copies(rest, TaskMsg(c));
  }

  /** Finishing a message that is not a synchronous call's. */
  lemma LogAnswered(s: State, t: State, m: Msg, ran: bool)
    requires Answered(s) && CallsOk(s) && Fifo(s) && OnceEach(s) && Hand(s.loop) == [m]
    requires m.TaskMsg? ==> !IsSync(s, m.c)
    requires t.queue == Log(s.queue, m, ran) && t.calls == s.calls
    ensures Answered(t)
  {
    if m.TaskMsg? {
      HandNotFinished(s, m.c);
      assert CallOk(s.calls[m.c]);
      assert MailOf(s, m.c).async;
    }
    forall d: CallId | !MailOf(t, d).async
      ensures Verdict(t.queue.finished, d) == if MailOf(t, d).done then Some(MailOf(t, d).ok) else None
    {
      assert MailOf(t, d) == MailOf(s, d);
      VerdictAppend(s.queue.finished, Finished(m, ran), d);
    }
  }

  lemma SimpleStepMail(s: State, step: LoopStep)
    requires step.Wait? || step.TestDispatch? || step.TakeDue? || step.RunDue? || step.Exit?
    ensures SameMail(s, LoopNext(s, step))
  {
  }

  /** The counts and answers of the calls depend on nothing else in the state. */
  lemma SameCallsKeep(s: State, t: State)
    requires t.calls == s.calls
    ensures OnceEach(s) && t.queue.accepted == s.queue.accepted ==> OnceEach(t)
    ensures Answered(s) && t.queue.finished == s.queue.finished ==> Answered(t)
  {
    assert forall c: CallId :: MailOf(t, c) == MailOf(s, c);
  }

  /** A pop moves the oldest message from the ring into the loop's hand, or finds the ring empty. */
  lemma PopEffect(s: State, step: LoopStep)
    requires step.Pop? || step.Drain?
    ensures var t := LoopNext(s, step);
      SameMail(s, t) || (
        && t.calls == s.calls && t.cfg == s.cfg && Hand(s.loop) == [] && s.queue.ring != []
        && t.queue == s.queue.(ring := s.queue.ring[1..]) && Hand(t.loop) == [s.queue.ring[0]] && !t.loop.Completing?)
  {
  }

  lemma PopKeeps(s: State, step: LoopStep)
    requires QueueOk(s) && (step.Pop? || step.Drain?)
    ensures QueueOk(LoopNext(s, step))
  {
    var t := LoopNext(s, step);
    PopEffect(s, step);
    if SameMail(s, t) {
      SameMailKeeps(s, t);
    } else {
      SameCallsKeep(s, t);
      PopFifo(s, t);
      PopFits(s, t);
    }
  }

  /** A finished message leaves the loop's hand for the log; only an asynchronous one does so here. */
  lemma LogEffect(s: State, step: LoopStep)
    requires step.ClearFlag? || step.FinishTask? || step.RecycleMsg?
    ensures var t := LoopNext(s, step);
      || t == s
      || (t == s.(loop := t.loop) && Hand(t.loop) == Hand(s.loop) && CompletesSync(t))
      || (&& t.calls == s.calls && t.cfg == s.cfg && Hand(t.loop) == [] && !t.loop.Completing?
          && |Hand(s.loop)| == 1 && t.queue == Log(s.queue, Hand(s.loop)[0], !step.RecycleMsg?)
          && (Hand(s.loop)[0].TaskMsg? ==> !IsSync(s, Hand(s.loop)[0].c)))
  {
  }

  lemma LogKeeps(s: State, step: LoopStep)
    requires QueueOk(s) && CallsOk(s) && (step.ClearFlag? || step.FinishTask? || step.RecycleMsg?)
    ensures QueueOk(LoopNext(s, step))
  {
    var t := LoopNext(s, step);
    LogEffect(s, step);
    SameCallsKeep(s, t);
    if t.queue != s.queue {
      var m := Hand(s.loop)[0];
      LogFifo(s, t, m, !step.RecycleMsg?);
      LogAnswered(s, t, m, !step.RecycleMsg?);
    }
  }

  lemma CompleteAnswered(s: State)
    requires QueueOk(s) && CallsOk(s) && s.loop.Completing? && HasSlot(s, s.loop.c)
    ensures Answered(CompleteNext(s))
  {
    var c, t := s.loop.c, CompleteNext(s);
    HandNotFinished(s, c);
    forall d: CallId | !MailOf(t, d).async
      ensures Verdict(t.queue.finished, d) == if MailOf(t, d).done then Some(MailOf(t, d).ok) else None
    {
      VerdictAppend(s.queue.finished, Finished(TaskMsg(c), s.loop.ret == Success), d);
      assert d != c ==> MailOf(t, d) == MailOf(s, d);
    }
  }

  lemma CompleteEffect(s: State)
    requires s.loop.Completing? && HasSlot(s, s.loop.c)
    ensures var t := CompleteNext(s);
      && t.cfg == s.cfg && Hand(t.loop) == [] && !t.loop.Completing?
      && t.queue == Log(s.queue, TaskMsg(s.loop.c), s.loop.ret == Success)
      && forall d: CallId :: MailOf(t, d).pushed == MailOf(s, d).pushed
  {
  }

  lemma SamePushedKeep(s: State, t: State)
    requires OnceEach(s) && t.queue.accepted == s.queue.accepted
    requires forall d: CallId :: MailOf(t, d).pushed == MailOf(s, d).pushed
    ensures OnceEach(t)
  {
  }

  lemma CompleteKeeps(s: State)
    requires QueueOk(s) && CallsOk(s)
    ensures QueueOk(CompleteNext(s))
  {
    if s.loop.Completing? && HasSlot(s, s.loop.c) {
      var t := CompleteNext(s);
      CompleteEffect(s);
      CompleteAnswered(s);
      SamePushedKeep(s, t);
      LogFifo(s, t, TaskMsg(s.loop.c), s.loop.ret == Success);
    }
  }

  lemma QueueOkByLoop(s: State, step: LoopStep)
    requires QueueOk(s) && CallsOk(s)
    ensures QueueOk(LoopNext(s, step))
  {
    if step.Pop? || step.Drain? {
      PopKeeps(s, step);
    } else if step.Complete? {
      CompleteKeeps(s);
    } else if step.ClearFlag? || step.FinishTask? || step.RecycleMsg? {
      LogKeeps(s, step);
    } else {
      SimpleStepMail(s, step);
      SameMailKeeps(s, LoopNext(s, step));
    }
  }

  /** Only a completion changes a call, and it only answers. */
  lemma LoopStepCalls(s: State, step: LoopStep)
    ensures var t := LoopNext(s, step);
      || t.calls == s.calls
      || (s.loop.Completing? && HasSlot(s, s.loop.c)
          && t.calls == s.calls[s.loop.c := s.calls[s.loop.c].(status := s.loop.ret, done := true)])
  {
  }

  lemma CallsOkByLoop(s: State, step: LoopStep)
    requires QueueOk(s) && CallsOk(s)
    ensures CallsOk(LoopNext(s, step))
  {
    LoopStepCalls(s, step);
    if LoopNext(s, step).calls != s.calls {
      HandNotFinished(s, s.loop.c);
      assert s.loop.c in s.calls && CallOk(s.calls[s.loop.c]);
    }
  }

  lemma StopStepKeeps(s: State, step: StopStep)
    ensures var t := StopNext(s, step);
      && t.calls == s.calls && t.cfg == s.cfg && t.loop == s.loop
      && t.queue.ring == s.queue.ring && t.queue.accepted == s.queue.accepted && t.queue.finished == s.queue.finished
  {
  }

  lemma StopStepMail(s: State, step: StopStep)
    ensures SameMail(s, StopNext(s, step)) && StopNext(s, step).calls == s.calls
  {
    StopStepKeeps(s, step);
  }

  lemma QueueOkByStop(s: State, step: StopStep)
    requires QueueOk(s) && CallsOk(s)
    ensures QueueOk(StopNext(s, step)) && CallsOk(StopNext(s, step))
  {
    StopStepMail(s, step);
    SameMailKeeps(s, StopNext(s, step));
  }
}
