/** What the loop and Stop come to when nothing interrupts them, from any state of any run: every signalled message is
    served in order, and a stop of an idle handler goes through to the release. */
module LoopRounds {
  import opened Options
  import opened Ticks
  import opened DelayedTable
  import opened LoopModel
  import opened LoopQueue
  import opened LoopStop
  import opened LoopTimer
  import opened LoopSlots
  import opened LoopSafety
  import opened LoopStranding

  // ---------------------------------------------------------------- steps of the loop

  function Loops(steps: seq<LoopStep>): (r: seq<Step>)
    ensures |r| == |steps|
  {
    seq(|steps|, i requires 0 <= i < |steps| => ByLoop(steps[i]))
  }

  /** The state after these steps of the loop and no others. */
  function Looped(s: State, steps: seq<LoopStep>): State {
    Exec(s, Loops(steps))
  }

  lemma LoopedAppend(s: State, a: seq<LoopStep>, b: seq<LoopStep>)
    ensures Looped(s, a + b) == Looped(Looped(s, a), b)
  {
    assert Loops(a + b) == Loops(a) + Loops(b);
    ExecAppend(s, Loops(a), Loops(b));
  }

  lemma Looped1(s: State, a: LoopStep)
    ensures Looped(s, [a]) == LoopNext(s, a)
  {
    assert Loops([a]) == [ByLoop(a)];
    assert Exec(s, [ByLoop(a)]) == Exec(Next(s, ByLoop(a)), []);
  }

  lemma Looped2(s: State, a: LoopStep, b: LoopStep)
    ensures Looped(s, [a, b]) == LoopNext(LoopNext(s, a), b)
  {
    hide LoopNext, Looped;
    assert [a, b] == [a] + [b];
    LoopedAppend(s, [a], [b]);
    Looped1(s, a);
    Looped1(LoopNext(s, a), b);
  }

  lemma Looped3(s: State, a: LoopStep, b: LoopStep, c: LoopStep)
    ensures Looped(s, [a, b, c]) == LoopNext(LoopNext(LoopNext(s, a), b), c)
  {
    hide LoopNext, Looped;
    assert [a, b, c] == [a, b] + [c];
    LoopedAppend(s, [a, b], [c]);
    Looped2(s, a, b);
    Looped1(LoopNext(LoopNext(s, a), b), c);
  }

  lemma LoopedInv(s: State, steps: seq<LoopStep>)
    requires Inv(s)
    ensures Inv(Looped(s, steps))
  {
    ExecInv(s, Loops(steps));
  }

  // ---------------------------------------------------------------- one round

  /** The loop waits, a message is signalled, and no Stop is under way. */
  predicate Ready(s: State) {
    s.loop == AtWait && s.stopper == Idle && s.queue.sem > 0
  }

  /** A signalled message is in the ring. */
  lemma ReadyHasMessage(s: State)
    requires Inv(s) && Ready(s)
    ensures s.queue.ring != [] && s.run == Running
  {
  }

  /** The oldest message is through, and its task has run. */
  function Served(q: Queue): Queue
    requires q.ring != [] && q.sem > 0
  {
    Queue(q.ring[1..], q.sem - 1, q.accepted, q.finished + [Finished(q.ring[0], true)])
  }

  /** The loop takes the oldest message and dispatches it. */
  lemma Dispatches(s: State)
    requires Ready(s) && s.queue.ring != [] && s.run == Running
    ensures Looped(s, [Wait, Pop, TestDispatch])
      == s.(queue := s.queue.(ring := s.queue.ring[1..], sem := s.queue.sem - 1),
            loop := if s.queue.ring[0].TimerMsg? then ClearingFlag(false) else RunningTask(s.queue.ring[0].c, false))
  {
    Looped3(s, Wait, Pop, TestDispatch);
  }

  /** A round with the message of a posted task: the task runs, and the loop is back at its wait. */
  lemma TaskRound(s: State)
    requires Inv(s) && Ready(s) && s.queue.ring != [] && s.queue.ring[0].TaskMsg? && !IsSync(s, s.queue.ring[0].c)
    ensures Looped(s, [Wait, Pop, TestDispatch] + [FinishTask]) == s.(queue := Served(s.queue))
  {
    ReadyHasMessage(s);
    hide Inv, Looped;
    LoopedAppend(s, [Wait, Pop, TestDispatch], [FinishTask]);
    Dispatches(s);
    Looped1(Looped(s, [Wait, Pop, TestDispatch]), FinishTask);
  }

  /** The context of a completed call. */
  function AnsweredAs(s: State, c: CallId, status: Ret): State
    requires HasSlot(s, c)
  {
    var call := s.calls[c];
    s.(calls := s.calls[c := call.(status := status, done := true)],
       waiters := if call.abandoned then s.waiters.(slots := s.waiters.slots[call.slot := None])
                  else s.waiters.(sems := s.waiters.sems[call.slot := 1]))
  }

  /** Complete answers the call. */
  lemma Completes(s: State)
    requires s.loop.Completing? && HasSlot(s, s.loop.c)
    ensures LoopNext(s, Complete)
      == AnsweredAs(s, s.loop.c, s.loop.ret).(loop := if s.loop.stopping then Draining else AtWait,
                                            queue := Log(s.queue, TaskMsg(s.loop.c), s.loop.ret == Success))
  {
  }

  lemma FinishesSync(s: State)
    requires s.loop.RunningTask? && !s.loop.stopping && s.stopper != Undoing && IsSync(s, s.loop.c)
    ensures LoopNext(s, FinishTask) == s.(loop := Completing(s.loop.c, Success, false))
  {
  }

  lemma CompletingHasSlot(s: State)
    requires Inv(s) && s.loop.Completing?
    ensures HasSlot(s, s.loop.c)
  {
    CompletingHolds(s);
  }

  /** The task of a synchronous call runs and its context is completed. */
  lemma CompletesSync(s: State)
    requires Inv(s) && s.loop.RunningTask? && !s.loop.stopping && s.stopper != Undoing && IsSync(s, s.loop.c)
    ensures HasSlot(s, s.loop.c)
    ensures Looped(s, [FinishTask, Complete])
      == AnsweredAs(s, s.loop.c, Success).(loop := AtWait, queue := Log(s.queue, TaskMsg(s.loop.c), true))
  {
    hide Inv, Looped, LoopNext;
    var t := s.(loop := Completing(s.loop.c, Success, false));
    FinishesSync(s);
    LoopInv(s, FinishTask);
    CompletingHasSlot(t);
    Looped2(s, FinishTask, Complete);
    Completes(t);
  }

  lemma DispatchedSync(s: State)
    requires Inv(s) && Ready(s) && s.queue.ring != [] && s.queue.ring[0].TaskMsg? && IsSync(s, s.queue.ring[0].c)
    ensures var t := Looped(s, [Wait, Pop, TestDispatch]);
      && Inv(t) && t.loop == RunningTask(s.queue.ring[0].c, false) && t.stopper == Idle && IsSync(t, t.loop.c)
      && t == s.(queue := s.queue.(ring := s.queue.ring[1..], sem := s.queue.sem - 1), loop := t.loop)
  {
    ReadyHasMessage(s);
    LoopedInv(s, [Wait, Pop, TestDispatch]);
    hide Inv, Looped;
    Dispatches(s);
  }

  /** A round with the message of a synchronous call: the task runs, the context is done with success, and its slot is
      signalled, or freed if the call has given up. */
  lemma SyncRound(s: State)
    requires Inv(s) && Ready(s) && s.queue.ring != [] && s.queue.ring[0].TaskMsg? && IsSync(s, s.queue.ring[0].c)
    ensures HasSlot(s, s.queue.ring[0].c)
    ensures Looped(s, [Wait, Pop, TestDispatch] + [FinishTask, Complete])
         == AnsweredAs(s, s.queue.ring[0].c, Success).(queue := Served(s.queue))
  {
    hide Inv, Looped;
    LoopedAppend(s, [Wait, Pop, TestDispatch], [FinishTask, Complete]);
    DispatchedSync(s);
    CompletesSync(Looped(s, [Wait, Pop, TestDispatch]));
  }

  /** A round with the timer message takes the due front of the table, and arms the timer for the rest, if there is
      any. */
  lemma TimerRound(s: State, now: Word)
    requires Inv(s) && Ready(s) && s.queue.ring != [] && s.queue.ring[0] == TimerMsg
    ensures var k := DueCount(s.clock.delayed, now);
      Looped(s, [Wait, Pop, TestDispatch] + [ClearFlag, LoopStep.TakeDue(now)])
      == s.(queue := Served(s.queue), loop := RunningDue(s.clock.delayed[..k], false),
            clock := Clock(s.clock.delayed[k..], s.clock.lastId, k < |s.clock.delayed|, false, false))
  {
    ReadyHasMessage(s);
    hide Inv, Looped, DueCount;
    LoopedAppend(s, [Wait, Pop, TestDispatch], [ClearFlag, LoopStep.TakeDue(now)]);
    Dispatches(s);
    Looped2(Looped(s, [Wait, Pop, TestDispatch]), ClearFlag, LoopStep.TakeDue(now));
  }

  /** The due tasks run one after another, and the loop is back at its wait. */
  lemma {:induction false} DueRound(s: State)
    requires s.loop.RunningDue? && !s.loop.stopping && s.stopper == Idle
    ensures Looped(s, seq(|s.loop.due| + 1, _ => RunDue)) == s.(loop := AtWait)
    decreases |s.loop.due|
  {
    var n, t := |s.loop.due|, RunDueNext(s);
    Looped1(s, RunDue);
    if n == 0 {
      assert seq(n + 1, _ => RunDue) == [RunDue];
    } else {
      assert seq(n + 1, _ => RunDue) == [RunDue] + seq(|t.loop.due| + 1, _ => RunDue);
      LoopedAppend(s, [RunDue], seq(|t.loop.due| + 1, _ => RunDue));
      DueRound(t);
    }
  }

  /** One round serves the oldest message, whatever it is. */
  lemma OneRound(s: State) returns (steps: seq<LoopStep>)
    requires Inv(s) && Ready(s)
    ensures s.queue.ring != []
    ensures var t := Looped(s, steps);
      t.loop == AtWait && t.stopper == Idle && t.queue == Served(s.queue)
  {
    ReadyHasMessage(s);
    hide Inv, Looped, LoopNext;
    if s.queue.ring[0].TimerMsg? {
      steps := [Wait, Pop, TestDispatch] + [ClearFlag, LoopStep.TakeDue(0)];
      TimerRound(s, 0);
      var t := Looped(s, steps);
      var rest := seq(|t.loop.due| + 1, _ => RunDue);
      DueRound(t);
      LoopedAppend(s, steps, rest);
      steps := steps + rest;
    } else if IsSync(s, s.queue.ring[0].c) {
      steps := [Wait, Pop, TestDispatch] + [FinishTask, Complete];
      SyncRound(s);
    } else {
      steps := [Wait, Pop, TestDispatch] + [FinishTask];
      TaskRound(s);
    }
  }

  /** The messages with what became of their tasks. */
  function All(ms: seq<Msg>, ran: bool): (f: seq<Finished>)
    ensures |f| == |ms|
  {
    seq(|ms|, i requires 0 <= i < |ms| => Finished(ms[i], ran))
  }

  lemma ServedFirst(q: Queue)
    requires q.ring != [] && 0 < q.sem <= |q.ring|
    ensures var r := Served(q);
      && r.ring[r.sem..] == q.ring[q.sem..]
      && r.finished + All(r.ring[..r.sem], true) == q.finished + All(q.ring[..q.sem], true)
  {
    var r := Served(q);
    assert q.ring == [q.ring[0]] + r.ring;
    assert All(q.ring[..q.sem], true) == [Finished(q.ring[0], true)] + All(r.ring[..r.sem], true);
  }

  lemma SignalsInRing(s: State)
    requires Inv(s) && s.loop == AtWait && s.stopper == Idle
    ensures s.queue.sem <= |s.queue.ring|
  {
  }

  /** Left to itself the loop runs the task of every message that is signalled, in order, and waits again. */
  lemma {:induction false} LoopServesAll(s: State) returns (steps: seq<LoopStep>)
    requires Inv(s) && s.loop == AtWait && s.stopper == Idle
    ensures s.queue.sem <= |s.queue.ring|
    ensures var t := Looped(s, steps);
      && t.loop == AtWait && t.stopper == Idle
      && t.queue == Queue(s.queue.ring[s.queue.sem..], 0, s.queue.accepted,
                          s.queue.finished + All(s.queue.ring[..s.queue.sem], true))
    decreases s.queue.sem
  {
    SignalsInRing(s);
    if s.queue.sem == 0 {
      steps := [];
      assert Loops([]) == [] && s.queue.finished + All([], true) == s.queue.finished;
    } else {
      hide Inv, Looped, Served, All;
      var first := OneRound(s);
      var t := Looped(s, first);
      LoopedInv(s, first);
      ServedFirst(s.queue);
      assert t.queue.sem == s.queue.sem - 1 && t.queue.accepted == s.queue.accepted by {
        ServedCounts(s.queue);
      }
      var rest := LoopServesAll(t);
      LoopedAppend(s, first, rest);
      steps := first + rest;
    }
  }

  lemma ServedCounts(q: Queue)
    requires q.ring != [] && q.sem > 0
    ensures Served(q).sem == q.sem - 1 && Served(q).accepted == q.accepted
  {
  }

  // ---------------------------------------------------------------- the last round

  /** Nothing differs but what the loop does with its messages. */
  predicate OnlyLoop(s: State, t: State) {
    && t.stopper == s.stopper && t.run == s.run && t.active == s.active && t.cfg == s.cfg && t.released == s.released
    && t.clock.(flag := s.clock.flag) == s.clock
  }

  /** The oldest message is through, and its task has not run. */
  function Recycled(q: Queue): Queue
    requires q.ring != []
  {
    Queue(q.ring[1..], q.sem, q.accepted, q.finished + [Finished(q.ring[0], false)])
  }

  /** Recycling hands the message of a synchronous call on to be answered, and finishes any other at once. */
  lemma RecyclesMsg(s: State)
    requires s.loop.Recycling? && s.loop.stopping
    ensures var m := s.loop.m;
      LoopNext(s, RecycleMsg)
      == if m.TaskMsg? && IsSync(s, m.c) then s.(loop := Completing(m.c, Uninit, true))
         else s.(loop := Draining, queue := Log(s.queue, m, false),
                 clock := s.clock.(flag := m.TaskMsg? && s.clock.flag))
  {
  }

  lemma RecyclesSync(s: State)
    requires Inv(s) && s.loop.Recycling? && s.loop.stopping && s.loop.m.TaskMsg? && IsSync(s, s.loop.m.c)
    ensures HasSlot(s, s.loop.m.c)
    ensures Looped(s, [RecycleMsg, Complete])
         == AnsweredAs(s, s.loop.m.c, Uninit).(loop := Draining, queue := Log(s.queue, s.loop.m, false))
  {
    var t := s.(loop := Completing(s.loop.m.c, Uninit, true));
    hide Inv, Looped, LoopNext;
    RecyclesMsg(s);
    LoopInv(s, RecycleMsg);
    CompletingHasSlot(t);
    Looped2(s, RecycleMsg, Complete);
    Completes(t);
  }

  /** A recycled message is finished without running its task; the call that waits for it is answered with the
      refusal. */
  lemma Recycles(s: State)
    requires Inv(s) && s.loop.Recycling? && s.loop.stopping
    ensures var t := Looped(s, [RecycleMsg, Complete]);
      OnlyLoop(s, t) && t.loop == Draining && t.queue == Log(s.queue, s.loop.m, false)
      && (s.loop.m == TimerMsg ==> !t.clock.flag)
      && (s.loop.m.TaskMsg? && IsSync(s, s.loop.m.c) ==>
            s.loop.m.c in t.calls && t.calls[s.loop.m.c].done && t.calls[s.loop.m.c].status == Uninit)
  {
    hide Inv, Looped;
    if s.loop.m.TaskMsg? && IsSync(s, s.loop.m.c) {
      RecyclesSync(s);
    } else {
      Looped2(s, RecycleMsg, Complete);
      RecyclesMsg(s);
    }
  }

  lemma DrainsOne(s: State)
    requires Inv(s) && s.loop == Draining && s.queue.ring != []
    ensures var t := Looped(s, [Drain] + [RecycleMsg, Complete]);
      OnlyLoop(s, t) && t.loop == Draining && t.queue == Recycled(s.queue)
  {
    LoopInv(s, Drain);
    hide Inv, Looped;
    LoopedAppend(s, [Drain], [RecycleMsg, Complete]);
    Looped1(s, Drain);
    Recycles(LoopNext(s, Drain));
  }

  lemma RecycledFirst(q: Queue)
    requires q.ring != []
    ensures Recycled(q).finished + All(Recycled(q).ring, false) == q.finished + All(q.ring, false)
  {
    assert q.ring == [q.ring[0]] + q.ring[1..];
    assert All(q.ring, false) == [Finished(q.ring[0], false)] + All(q.ring[1..], false);
  }

  /** The drain recycles whatever is in the ring, in order, and the loop exits. */
  lemma {:induction false} DrainsAll(s: State) returns (steps: seq<LoopStep>)
    requires Inv(s) && s.loop == Draining
    ensures var t := Looped(s, steps);
      && OnlyLoop(s, t) && t.loop == Exited
      && t.queue == Queue([], s.queue.sem, s.queue.accepted, s.queue.finished + All(s.queue.ring, false))
    decreases |s.queue.ring|
  {
    if s.queue.ring == [] {
      steps := [Drain, Exit];
      Looped2(s, Drain, Exit);
      assert s.queue.finished + All([], false) == s.queue.finished;
    } else {
      var first := [Drain] + [RecycleMsg, Complete];
      DrainsOne(s);
      LoopedInv(s, first);
      hide Inv, Looped, All;
      RecycledFirst(s.queue);
      var rest := DrainsAll(Looped(s, first));
      LoopedAppend(s, first, rest);
      steps := first + rest;
    }
  }

  /** The loop that is woken once RUNNING is withdrawn recycles the message it finds, if any, and drains the rest. */
  lemma LastRoundBegins(s: State)
    requires Inv(s) && s.loop == AtWait && s.run != Running && s.queue.sem > 0
    ensures var t := Looped(s, [Wait, Pop, TestDispatch] + [RecycleMsg, Complete]);
      && OnlyLoop(s, t) && t.loop == Draining
      && t.queue.finished + All(t.queue.ring, false) == s.queue.finished + All(s.queue.ring, false)
      && t.queue.accepted == s.queue.accepted
  {
    hide Inv, Looped, All;
    var q, t := s.queue.(sem := s.queue.sem - 1), Looped(s, [Wait, Pop, TestDispatch]);
    LoopedAppend(s, [Wait, Pop, TestDispatch], [RecycleMsg, Complete]);
    LoopedInv(s, [Wait, Pop, TestDispatch]);
    LastDispatch(s);
    if q.ring == [] {
      Looped2(t, RecycleMsg, Complete);
    } else {
      Recycles(t);
      RecycledFirst(q);
    }
  }

  lemma LastDispatch(s: State)
    requires s.loop == AtWait && s.run != Running && s.queue.sem > 0
    ensures var q := s.queue.(sem := s.queue.sem - 1);
      Looped(s, [Wait, Pop, TestDispatch])
      == if q.ring == [] then s.(queue := q, loop := Draining)
         else s.(queue := q.(ring := q.ring[1..]), loop := Recycling(q.ring[0], true))
  {
    hide Looped;
    Looped3(s, Wait, Pop, TestDispatch);
  }

  lemma LastRoundEnds(s: State) returns (steps: seq<LoopStep>)
    requires Inv(s) && s.loop == AtWait && s.run != Running && s.queue.sem > 0
    ensures var t := Looped(s, steps);
      && OnlyLoop(s, t) && t.loop == Exited
      && t.queue.ring == [] && t.queue.finished == s.queue.finished + All(s.queue.ring, false)
  {
    var first := [Wait, Pop, TestDispatch] + [RecycleMsg, Complete];
    LastRoundBegins(s);
    LoopedInv(s, first);
    hide Inv, Looped;
    var rest := DrainsAll(Looped(s, first));
    LoopedAppend(s, first, rest);
    steps := first + rest;
  }

  // ---------------------------------------------------------------- stop

  lemma StopsTimer(s: State)
    requires s.stopper == Idle && s.run == Running
    ensures Exec(s, [ByStop(Cas(false)), ByStop(StopTimer)])
         == s.(run := Stopping, stopper := Dropping, clock := s.clock.(pending := false))
  {
    hide Exec;
    Exec2(s, ByStop(Cas(false)), ByStop(StopTimer));
  }

  lemma DropsAndWakes(s: State)
    requires s.stopper == Dropping
    ensures Exec(s, [ByStop(DropDelayed), ByStop(Wake)])
         == s.(stopper := AwaitingLoop, clock := s.clock.(delayed := []), queue := PostTo(s.queue, s.cfg))
  {
    hide Exec;
    Exec2(s, ByStop(DropDelayed), ByStop(Wake));
  }

  lemma IdleRuns(s: State)
    requires Inv(s) && s.stopper == Idle
    ensures s.run == Running
  {
  }

  /** Stop withdraws RUNNING, stops the timer, drops the delayed tasks and wakes the loop. */
  lemma StopBegins(s: State)
    requires Inv(s) && s.stopper == Idle
    ensures Exec(s, [ByStop(Cas(false)), ByStop(StopTimer)] + [ByStop(DropDelayed), ByStop(Wake)])
      == s.(run := Stopping, stopper := AwaitingLoop, queue := PostTo(s.queue, s.cfg),
            clock := s.clock.(pending := false, delayed := []))
  {
    hide Exec, Inv, PostTo;
    IdleRuns(s);
    ExecAppend(s, [ByStop(Cas(false)), ByStop(StopTimer)], [ByStop(DropDelayed), ByStop(Wake)]);
    StopsTimer(s);
    DropsAndWakes(s.(run := Stopping, stopper := Dropping, clock := s.clock.(pending := false)));
  }

  /** Nothing is left behind once the loop is gone, nobody is inside and the ring is empty. */
  lemma NothingLeft(s: State)
    requires Inv(s) && s.loop == Exited && s.active == 0 && s.queue.ring == []
    ensures !s.clock.flag && NoneInUse(s.waiters.slots)
  {
    assert Active(s.calls) == {};
    assert Flaggers(s.calls) <= Active(s.calls);
    assert Copies(s.queue.ring, TimerMsg) == 0;
    forall i | 0 <= i < |s.waiters.slots| ensures s.waiters.slots[i] == None {
      if s.waiters.slots[i].Some? {
        HolderUnfinished(s, i);
      }
    }
  }

  /** A slot that is in use with nobody inside waits for a message that is not finished. */
  lemma HolderUnfinished(s: State, i: nat)
    requires Inv(s) && s.active == 0 && i < |s.waiters.slots| && s.waiters.slots[i].Some?
    ensures TaskMsg(s.waiters.slots[i].value) in Hand(s.loop) + s.queue.ring
  {
    var c := s.waiters.slots[i].value;
    assert Active(s.calls) == {};
    assert c !in Active(s.calls);
    assert CallOk(s.calls[c]) && AnswerOk(s.calls[c]) && Holds(s.calls[c]);
    assert s.calls[c].pushed && !s.calls[c].done && s.calls[c].kind.Sync?;
    UnansweredWaits(s, c);
  }

  /** The message of a synchronous call that has no answer is in the loop's hand or in the ring. */
  lemma UnansweredWaits(s: State, c: CallId)
    requires Fifo(s) && OnceEach(s) && Answered(s) && c in s.calls
    requires s.calls[c].kind.Sync? && s.calls[c].pushed && !s.calls[c].done
    ensures TaskMsg(c) in Hand(s.loop) + s.queue.ring
  {
    assert !MailOf(s, c).async;
    VerdictCounts(s.queue.finished, c);
    var f, rest := Msgs(s.queue.finished), Hand(s.loop) + s.queue.ring;
    assert s.queue.accepted == f + rest;
    assert Copies(s.queue.accepted, TaskMsg(c)) == Copies(f, TaskMsg(c)) + Copies(rest, TaskMsg(c));
  }

  lemma SeesQuiet(s: State)
    requires s.stopper == AwaitingLoop && s.loop == Exited && s.active == 0 && !s.clock.flag
    ensures Exec(s, [ByStop(SeeExit), ByStop(SeeCalls), ByStop(SeeTimer)]) == s.(stopper := CheckingSlots)
  {
    hide Exec;
    Exec3(s, ByStop(SeeExit), ByStop(SeeCalls), ByStop(SeeTimer));
  }

  lemma Releases(s: State)
    requires s.stopper == CheckingSlots && NoneInUse(s.waiters.slots)
    ensures Exec(s, [ByStop(SeeSlots), ByStop(StopStep.Release), ByStop(FinishStop)])
      == s.(run := Stopped, stopper := AllDone, released := true, clock := s.clock.(pending := false))
  {
    hide Exec;
    Exec3(s, ByStop(SeeSlots), ByStop(StopStep.Release), ByStop(FinishStop));
  }

  /** With the loop gone, nobody inside and an empty ring, Stop goes through to the release. */
  lemma StopEnds(s: State)
    requires Inv(s) && s.stopper == AwaitingLoop && s.loop == Exited && s.active == 0 && s.queue.ring == []
    ensures Exec(s, [ByStop(SeeExit), ByStop(SeeCalls), ByStop(SeeTimer)]
                    + [ByStop(SeeSlots), ByStop(StopStep.Release), ByStop(FinishStop)])
      == s.(run := Stopped, stopper := AllDone, released := true, clock := s.clock.(pending := false))
  {
    NothingLeft(s);
    hide Exec, Inv;
    ExecAppend(s, [ByStop(SeeExit), ByStop(SeeCalls), ByStop(SeeTimer)],
               [ByStop(SeeSlots), ByStop(StopStep.Release), ByStop(FinishStop)]);
    SeesQuiet(s);
    Releases(s.(stopper := CheckingSlots));
  }

  /** A handler that nobody is inside of can be stopped from any state in which the loop waits: every message ever
      accepted is finished, and the objects are released. */
  lemma StopCompletes(s: State) returns (steps: seq<Step>)
    requires Inv(s) && s.stopper == Idle && s.loop == AtWait && s.active == 0
    ensures var t := Exec(s, steps);
      && t.run == Stopped && t.stopper == AllDone && t.released && t.loop == Exited && t.clock.delayed == []
      && t.queue.ring == [] && t.queue.finished == s.queue.finished + All(s.queue.ring, false)
  {
    var begin := [ByStop(Cas(false)), ByStop(StopTimer)] + [ByStop(DropDelayed), ByStop(Wake)];
    StopBegins(s);
    ExecInv(s, begin);
    var s1 := Exec(s, begin);
    assert s1.queue.sem > 0;
    var last := LastRoundEnds(s1);
    LoopedInv(s1, last);
    var s2 := Looped(s1, last);
    StopEnds(s2);
    steps := begin + Loops(last);
    ExecAppend(s, begin, Loops(last));
    var end := [ByStop(SeeExit), ByStop(SeeCalls), ByStop(SeeTimer)]
               + [ByStop(SeeSlots), ByStop(StopStep.Release), ByStop(FinishStop)];
    ExecAppend(s, steps, end);
    steps := steps + end;
  }

  lemma Exec1(s: State, a: Step)
    ensures Exec(s, [a]) == Next(s, a)
  {
    ExecOne(s, [], a);
    assert [] + [a] == [a];
  }

  /** A poll that finds the timer message on its way, or a slot in use, starts over with the count of the calls. */
  lemma PollStartsOver(s: State)
    ensures s.stopper == CheckingTimer && s.clock.flag ==>
      Exec(s, [ByStop(SeeTimer)]) == s.(stopper := CheckingCalls)
    ensures s.stopper == CheckingSlots && (exists i | 0 <= i < |s.waiters.slots| :: s.waiters.slots[i].Some?) ==>
      Exec(s, [ByStop(SeeSlots)]) == s.(stopper := CheckingCalls)
  {
    hide Exec;
    Exec1(s, ByStop(SeeTimer));
    Exec1(s, ByStop(SeeSlots));
  }

  lemma GivenUpStep(s: State, step: Step)
    requires s.stopper == GaveUp
    ensures Next(s, step).stopper == GaveUp
  {
    match step
    case ByCall(c, call) => QuietFrame(s, c, call);
    case ByLoop(_) =>
    case ByStop(_) =>
  }

  lemma {:induction false} GivenUpForGood(s: State, steps: seq<Step>)
    requires s.stopper == GaveUp
    ensures Exec(s, steps).stopper == GaveUp
    decreases |steps|
  {
    hide Next;
    if steps != [] {
      GivenUpStep(s, steps[0]);
      GivenUpForGood(Next(s, steps[0]), steps[1..]);
    }
  }

  /** A Stop that waits too long for the loop or the calls gives up; in every continuation it stays so, RUNNING does not
      come back, and nothing is ever released. */
  lemma GivenUpReleasesNothing(cfg: Config, before: seq<Step>, after: seq<Step>)
    requires Exec(Start(cfg), before).stopper in {AwaitingLoop, CheckingCalls, CheckingTimer, CheckingSlots}
    ensures var t := Exec(Start(cfg), before + [ByStop(TimeOut)] + after);
      t.stopper == GaveUp && t.run == Stopping && !t.released
  {
    var s := Exec(Start(cfg), before);
    ExecAppend(Start(cfg), before + [ByStop(TimeOut)], after);
    ExecOne(Start(cfg), before, ByStop(TimeOut));
    GivenUpForGood(Next(s, ByStop(TimeOut)), after);
    ReachedInv(cfg, before + [ByStop(TimeOut)] + after);
  }

  /** Stop called by a task of the loop withdraws RUNNING and puts it back. */
  lemma StopFromLoopComesToNothing(s: State)
    requires s.stopper == Idle && s.run == Running && OnLoop(s.loop)
    ensures Exec(s, [ByStop(Cas(true)), ByStop(Undo)]) == s
  {
    Exec2(s, ByStop(Cas(true)), ByStop(Undo));
  }

  // ---------------------------------------------------------------- tasks are only recycled by a stop

  /** No Stop has taken effect yet, and every task the loop is through with has run. */
  predicate AllRan(s: State) {
    NotStopping(s.stopper) ==>
      && (forall i | 0 <= i < |s.queue.finished| :: s.queue.finished[i].ran)
      && (s.loop.Completing? ==> s.loop.ret == Success)
  }

  lemma AllRanByLoop(s: State, step: LoopStep)
    requires AllRan(s) && StopOk(s)
    ensures AllRan(LoopNext(s, step))
  {
  }

  lemma AllRanByCall(s: State, c: CallId, step: CallStep)
    requires AllRan(s)
    ensures AllRan(CallNext(s, c, step))
  {
    CallKeepsLoop(s, c, step);
    CallKeepsLog(s, c, step);
    QuietFrame(s, c, step);
  }

  lemma AllRanByStop(s: State, step: StopStep)
    requires AllRan(s) && StopOk(s)
    ensures AllRan(StopNext(s, step))
  {
    assert StopNext(s, step).loop == s.loop;
  }

  lemma AllRanStep(s: State, step: Step)
    requires AllRan(s) && StopOk(s)
    ensures AllRan(Next(s, step))
  {
    hide AllRan, CallNext, LoopNext, StopNext;
    match step
    case ByCall(c, call) => AllRanByCall(s, c, call);
    case ByLoop(loop) => AllRanByLoop(s, loop);
    case ByStop(stop) => AllRanByStop(s, stop);
  }

  lemma {:induction false} AllRanRun(s: State, steps: seq<Step>)
    requires Inv(s) && AllRan(s)
    ensures AllRan(Exec(s, steps))
    decreases |steps|
  {
    hide AllRan, Next;
    if steps != [] {
      NextInv(s, steps[0]);
      AllRanStep(s, steps[0]);
      AllRanRun(Next(s, steps[0]), steps[1..]);
    }
  }

  /** Over every run: until a Stop takes effect, every message the loop is through with had its task run to the end. */
  lemma OnlyStopRecycles(cfg: Config, steps: seq<Step>, i: nat)
    requires var s := Exec(Start(cfg), steps); NotStopping(s.stopper) && i < |s.queue.finished|
    ensures Exec(Start(cfg), steps).queue.finished[i].ran
  {
    StartInv(cfg);
    AllRanRun(Start(cfg), steps);
  }
}
