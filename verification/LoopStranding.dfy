/** Stop called from its own loop: it is refused, but while it withdraws RUNNING a timer callback can give up
    the only look anybody was going to take at the delayed table. */
module LoopStranding {
  import opened Options
  import opened Ticks
  import opened DelayedTable
  import opened LoopModel
  import opened LoopTimer
  import opened LoopSafety

  /** A callback that has registered itself is all that watches the table, and the loop is inside a task. */
  ghost predicate OnlyCallbackWatches(s: State, c: CallId) {
    && s.run == Running && s.stopper == Idle && OnLoop(s.loop) && s.clock.delayed != []
    && At(s, c, Entered) && s.calls[c].kind.Timer?
    && !s.clock.pending && !s.clock.flag && forall w | w in s.calls && w != c :: !IsLive(s.calls[w])
  }

  /** If then the task calls Stop and the callback tests the state before Stop puts RUNNING back, the
      delayed tasks are stranded. */
  lemma SelfStopStrands(s: State, c: CallId)
    requires OnlyCallbackWatches(s, c)
    ensures Stranded(Next(Next(Next(s, ByStop(Cas(true))), ByCall(c, TestState)), ByStop(Undo)))
  {
    var t := Next(Next(Next(s, ByStop(Cas(true))), ByCall(c, TestState)), ByStop(Undo));
    assert t.calls == s.calls[c := s.calls[c].(pc := Leaving(Uninit))];
  }

  /** The same state, or the one while Stop, called by the loop's task, has withdrawn RUNNING. */
  ghost predicate CallbackDecides(s: State, c: CallId) {
    && (OnlyCallbackWatches(s, c)
        || (s.run == Stopping && s.stopper == Undoing && OnlyCallbackWatches(s.(run := Running, stopper := Idle), c)))
  }

  /** What the callback's test reads decides: the delayed tasks are stranded if and only if RUNNING is withdrawn
      at that moment. */
  lemma StrandedExactlyIfRefused(s: State, c: CallId)
    requires CallbackDecides(s, c)
    ensures var t := Next(Next(s, ByCall(c, TestState)), ByStop(Undo)); Stranded(t) <==> s.run != Running
  {
    var t := Next(Next(s, ByCall(c, TestState)), ByStop(Undo));
    assert t.clock == s.clock.(lost := t.clock.lost);
    if s.run == Running {
      assert t.calls == s.calls[c := s.calls[c].(pc := Admitted)];
      assert IsLive(t.calls[c]);
    } else {
      assert t.calls == s.calls[c := s.calls[c].(pc := Leaving(Uninit))];
    }
  }

  lemma ExecOne(s: State, steps: seq<Step>, x: Step)
    ensures Exec(s, steps + [x]) == Next(Exec(s, steps), x)
  {
    ExecAppend(s, steps, [x]);
    assert Exec(Exec(s, steps), [x]) == Exec(Next(Exec(s, steps), x), []);
  }

  // A run that gets there: a delayed task is posted, a second task is posted and starts, the timer fires.

  function PostDelayed(): seq<Step> {
    [ByCall(0, Begin(Delayed(10))), ByCall(0, TestState), ByCall(0, Insert(0))]
  }

  function PostTask(): seq<Step> {
    [ByCall(1, Begin(Async)), ByCall(1, TestState), ByCall(1, TestEnqueue), ByCall(1, Push), ByCall(1, Signal)]
  }

  function StartTask(): seq<Step> {
    [ByLoop(Wait), ByLoop(Pop), ByLoop(TestDispatch)]
  }

  function FireTimer(): seq<Step> {
    [ByCall(2, Expire), ByCall(2, EnterCallback)]
  }

  lemma Exec2(s: State, a: Step, b: Step)
    ensures Exec(s, [a, b]) == Next(Next(s, a), b)
  {
    ExecOne(s, [], a);
    assert [] + [a] == [a];
    ExecOne(s, [a], b);
    assert [a] + [b] == [a, b];
  }

  lemma Exec3(s: State, a: Step, b: Step, c: Step)
    ensures Exec(s, [a, b, c]) == Next(Next(Next(s, a), b), c)
  {
    Exec2(s, a, b);
    ExecOne(s, [a, b], c);
    assert [a, b] + [c] == [a, b, c];
  }

  /** The delayed call has armed the timer. */
  predicate TablePosted(s: State) {
    && s.clock == Clock([Entry(1, 10)], 1, true, false, false)
    && s.run == Running && s.stopper == Idle && s.cfg.queueSize == 16
    && 0 in s.calls && !s.calls[0].kind.Timer?
  }

  lemma DelayedPosted()
    ensures var s := Exec(Start(Config(16, 8, 2)), PostDelayed());
      TablePosted(s) && s.loop == AtWait && s.queue.ring == [] && s.queue.sem == 0 && s.calls.Keys == {0}
  {
    var s0 := Start(Config(16, 8, 2));
    Exec3(s0, ByCall(0, Begin(Delayed(10))), ByCall(0, TestState), ByCall(0, Insert(0)));
    DelayedAdmitted();
    DelayedInserted(TestStateNext(BeginNext(s0, 0, Delayed(10)), 0));
  }

  lemma DelayedAdmitted()
    ensures var s0 := Start(Config(16, 8, 2));
      TestStateNext(BeginNext(s0, 0, Delayed(10)), 0)
      == s0.(active := 1, calls := map[0 := NewCall(Delayed(10), Admitted)])
  {
    var s0 := Start(Config(16, 8, 2));
    var s1 := BeginNext(s0, 0, Delayed(10));
    assert s1.calls[0].pc == Entered;
    assert TestStateNext(s1, 0).calls == map[0 := NewCall(Delayed(10), Admitted)];
  }

  lemma DelayedInserted(s: State)
    requires s == Start(Config(16, 8, 2)).(active := 1, calls := map[0 := NewCall(Delayed(10), Admitted)])
    ensures var t := InsertNext(s, 0, 0);
      TablePosted(t) && t.loop == AtWait && t.queue.ring == [] && t.queue.sem == 0 && t.calls.Keys == {0}
  {
  }

  lemma TaskAdmitted(s: State)
    requires s.run == Running && 1 !in s.calls
    ensures TestEnqueueNext(TestStateNext(BeginNext(s, 1, Async), 1), 1)
         == s.(active := s.active + 1, calls := s.calls[1 := NewCall(Async, Pushing)])
  {
    var s1 := BeginNext(s, 1, Async);
    assert s1.calls[1].pc == Entered;
    var s2 := TestStateNext(s1, 1);
    assert s2.calls == s.calls[1 := NewCall(Async, Admitted)];
    assert TestEnqueueNext(s2, 1).calls == s.calls[1 := NewCall(Async, Pushing)];
  }

  lemma TaskPushed(s: State)
    requires TablePosted(s) && s.loop == AtWait && s.queue.ring == [] && s.queue.sem == 0
    requires s.calls.Keys == {0, 1} && s.calls[1] == NewCall(Async, Pushing)
    ensures var t := Exec(s, [ByCall(1, Push), ByCall(1, Signal)]);
      TablePosted(t) && t.loop == AtWait && t.queue.ring == [TaskMsg(1)] && t.queue.sem == 1
      && t.calls.Keys == {0, 1} && t.calls[1].kind == Async
  {
    Exec2(s, ByCall(1, Push), ByCall(1, Signal));
  }

  function BeginTask(): seq<Step> {
    [ByCall(1, Begin(Async)), ByCall(1, TestState), ByCall(1, TestEnqueue)]
  }

  lemma TaskBegun(s: State)
    requires s.run == Running && 1 !in s.calls
    ensures Exec(s, BeginTask()) == s.(active := s.active + 1, calls := s.calls[1 := NewCall(Async, Pushing)])
  {
    Exec3(s, ByCall(1, Begin(Async)), ByCall(1, TestState), ByCall(1, TestEnqueue));
    TaskAdmitted(s);
  }

  lemma TaskPosted(s: State)
    requires TablePosted(s) && s.loop == AtWait && s.queue.ring == [] && s.queue.sem == 0 && s.calls.Keys == {0}
    ensures var t := Exec(s, PostTask());
      TablePosted(t) && t.loop == AtWait && t.queue.ring == [TaskMsg(1)] && t.queue.sem == 1
      && t.calls.Keys == {0, 1} && t.calls[1].kind == Async
  {
    TaskBegun(s);
    TaskPushed(Exec(s, BeginTask()));
    ExecAppend(s, BeginTask(), [ByCall(1, Push), ByCall(1, Signal)]);
    assert PostTask() == BeginTask() + [ByCall(1, Push), ByCall(1, Signal)];
  }

  lemma TaskStarted(s: State)
    requires TablePosted(s) && s.loop == AtWait && s.queue.ring == [TaskMsg(1)] && s.queue.sem == 1
    ensures var t := Exec(s, StartTask());
      t.loop == RunningTask(1, false) && t.calls == s.calls && TablePosted(t)
  {
    Exec3(s, ByLoop(Wait), ByLoop(Pop), ByLoop(TestDispatch));
  }

  lemma TimerFired(s: State)
    requires TablePosted(s) && s.calls.Keys == {0, 1} && s.calls[1].kind == Async && s.loop == RunningTask(1, false)
    ensures OnlyCallbackWatches(Exec(s, FireTimer()), 2)
  {
    Exec2(s, ByCall(2, Expire), ByCall(2, EnterCallback));
    var t := Exec(s, FireTimer());
    assert t.calls == s.calls[2 := NewCall(Timer, Entered)];
  }

  lemma TaskRunning() returns (steps: seq<Step>)
    ensures var s := Exec(Start(Config(16, 8, 2)), steps);
      TablePosted(s) && s.calls.Keys == {0, 1} && s.calls[1].kind == Async && s.loop == RunningTask(1, false)
  {
    var s0 := Start(Config(16, 8, 2));
    DelayedPosted();
    TaskPosted(Exec(s0, PostDelayed()));
    ExecAppend(s0, PostDelayed(), PostTask());
    steps := PostDelayed() + PostTask();
    TaskStarted(Exec(s0, steps));
    ExecAppend(s0, steps, StartTask());
    steps := steps + StartTask();
  }

  function StopSelf(): seq<Step> {
    [ByStop(Cas(true)), ByCall(2, TestState), ByStop(Undo)]
  }

  lemma StopSelfStrands(s: State)
    requires OnlyCallbackWatches(s, 2)
    ensures Stranded(Exec(s, StopSelf()))
  {
    SelfStopStrands(s, 2);
    Exec3(s, ByStop(Cas(true)), ByCall(2, TestState), ByStop(Undo));
  }

  /** The timer fires after these steps, and the running task calls Stop. */
  lemma ThenStrands(s0: State, steps: seq<Step>)
    requires var s := Exec(s0, steps);
      TablePosted(s) && s.calls.Keys == {0, 1} && s.calls[1].kind == Async && s.loop == RunningTask(1, false)
    ensures Stranded(Exec(s0, steps + FireTimer() + StopSelf()))
  {
    TimerFired(Exec(s0, steps));
    ExecAppend(s0, steps, FireTimer());
    StopSelfStrands(Exec(s0, steps + FireTimer()));
    ExecAppend(s0, steps + FireTimer(), StopSelf());
  }

  /** The precondition of NothingStranded cannot be dropped: with a Stop from the loop, some run strands a
      delayed task. */
  lemma StrandingIsReachable()
    ensures exists steps :: Stranded(Exec(Start(Config(16, 8, 2)), steps))
  {
    var steps := TaskRunning();
    ThenStrands(Start(Config(16, 8, 2)), steps);
  }
}
