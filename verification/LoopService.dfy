/** What each operation of the event handler comes to when nothing interrupts it, from any state of any run: the whole
    state it leaves. What interruptions may change is bounded by the invariant. */
module LoopService {
  import opened Options
  import opened Ticks
  import opened DelayedTable
  import opened LoopModel
  import opened LoopQueue
  import opened LoopStop
  import opened LoopTimer
  import opened LoopSlots
  import opened LoopSafety

  // ---------------------------------------------------------------- steps of one call

  function By(c: CallId, steps: seq<CallStep>): (r: seq<Step>)
    ensures |r| == |steps|
  {
    seq(|steps|, i requires 0 <= i < |steps| => ByCall(c, steps[i]))
  }

  lemma DoAppend(s: State, c: CallId, a: seq<CallStep>, b: seq<CallStep>)
    ensures Exec(s, By(c, a + b)) == Exec(Exec(s, By(c, a)), By(c, b))
  {
    assert By(c, a + b) == By(c, a) + By(c, b);
    ExecAppend(s, By(c, a), By(c, b));
  }

  lemma Do1(s: State, c: CallId, a: CallStep)
    ensures Exec(s, By(c, [a])) == CallNext(s, c, a)
  {
    assert By(c, [a]) == [ByCall(c, a)];
    assert Exec(s, [ByCall(c, a)]) == Exec(Next(s, ByCall(c, a)), []);
  }

  lemma Do2(s: State, c: CallId, a: CallStep, b: CallStep)
    ensures Exec(s, By(c, [a, b])) == CallNext(CallNext(s, c, a), c, b)
  {
    hide CallNext;
    assert [a, b] == [a] + [b];
    DoAppend(s, c, [a], [b]);
    Do1(s, c, a);
    Do1(CallNext(s, c, a), c, b);
  }

  lemma Do3(s: State, c: CallId, a: CallStep, b: CallStep, d: CallStep)
    ensures Exec(s, By(c, [a, b, d])) == CallNext(CallNext(CallNext(s, c, a), c, b), c, d)
  {
    hide CallNext;
    assert [a, b, d] == [a, b] + [d];
    DoAppend(s, c, [a, b], [d]);
    Do2(s, c, a, b);
    Do1(CallNext(CallNext(s, c, a), c, b), c, d);
  }

  /** The state after the call has come, done its part and left, one after another. */
  function Through(s: State, c: CallId, come: seq<CallStep>, act: seq<CallStep>): State {
    Exec(s, By(c, come + act + [Leave]))
  }

  lemma ThroughIs(s: State, c: CallId, come: seq<CallStep>, act: seq<CallStep>)
    ensures Through(s, c, come, act) == CallNext(Exec(Exec(s, By(c, come)), By(c, act)), c, Leave)
  {
    hide CallNext;
    DoAppend(s, c, come + act, [Leave]);
    DoAppend(s, c, come, act);
    Do1(Exec(Exec(s, By(c, come)), By(c, act)), c, Leave);
  }

  // ---------------------------------------------------------------- a call on its way

  /** The state in which the call is registered and stands as given, and nothing else differs. */
  function Working(s: State, c: CallId, call: Call): State {
    s.(active := s.active + 1, calls := s.calls[c := call])
  }

  /** The call has come and gone. */
  function Passed(s: State, c: CallId, call: Call): State {
    s.(calls := s.calls[c := call])
  }

  function EndedCall(kind: Kind, ret: Ret, slot: nat, pushed: bool): Call {
    Call(kind, Left(ret), slot, pushed, false, false, Success)
  }

  lemma MovesTo(s: State, c: CallId, call: Call, pc: Pc)
    ensures SetPc(Working(s, c, call), c, pc) == Working(s, c, call.(pc := pc))
  {
    assert s.calls[c := call][c := call.(pc := pc)] == s.calls[c := call.(pc := pc)];
  }

  lemma LeavesAs(s: State, c: CallId, call: Call)
    requires call.pc.Leaving?
    ensures CallNext(Working(s, c, call), c, Leave) == Passed(s, c, call.(pc := Left(call.pc.ret)))
  {
    MovesTo(s, c, call, Left(call.pc.ret));
  }

  /** The first two steps: the call is admitted while the handler runs, and turned away otherwise. */
  lemma Arrives(s: State, c: CallId, kind: Kind)
    requires c !in s.calls && !kind.Timer?
    ensures Exec(s, By(c, [Begin(kind), TestState]))
         == Working(s, c, NewCall(kind, if s.run == Running then Admitted else Leaving(Uninit)))
  {
    Do2(s, c, Begin(kind), TestState);
    assert CallNext(s, c, Begin(kind)) == Working(s, c, NewCall(kind, Entered));
    MovesTo(s, c, NewCall(kind, Entered), if s.run == Running then Admitted else Leaving(Uninit));
  }

  /** A message has gone into the ring and been signalled. */
  function Queued(q: Queue, m: Msg): Queue {
    Queue(q.ring + [m], q.sem + 1, q.accepted + [m], q.finished)
  }

  /** A message that finds no room. */
  lemma EnqueueRefused(s: State, c: CallId, call: Call)
    requires s.run == Running && ReadyToEnqueue(call) && |s.queue.ring| >= Limit(s.cfg, call.kind)
    ensures Exec(Working(s, c, call), By(c, [TestEnqueue, Push, Signal]))
         == Working(s, c, call.(pc := Refused(call.kind, Fail)))
  {
    Do3(Working(s, c, call), c, TestEnqueue, Push, Signal);
    MovesTo(s, c, call, Pushing);
    MovesTo(s, c, call.(pc := Pushing), Refused(call.kind, Fail));
  }

  /** How a call stands once its message is signalled. */
  function Sent(call: Call): Call {
    call.(pc := if call.kind.Sync? then Waiting else Leaving(Success), pushed := !call.kind.Timer?)
  }

  lemma Pushes(s: State, c: CallId, call: Call)
    requires s.run == Running && ReadyToEnqueue(call) && |s.queue.ring| < Limit(s.cfg, call.kind)
    ensures var m := MessageOf(c, call.kind);
      CallNext(CallNext(Working(s, c, call), c, TestEnqueue), c, Push)
      == Working(s.(queue := s.queue.(ring := s.queue.ring + [m], accepted := s.queue.accepted + [m])), c,
                 call.(pc := Signalling, pushed := !call.kind.Timer?))
  {
    MovesTo(s, c, call, Pushing);
    var sent := call.(pc := Signalling, pushed := !call.kind.Timer?);
    assert s.calls[c := call.(pc := Pushing)][c := sent] == s.calls[c := sent];
  }

  /** From the enqueue test on, while the handler runs: a message that finds room is in the ring and signalled. */
  lemma EnqueueAccepted(s: State, c: CallId, call: Call)
    requires s.run == Running && ReadyToEnqueue(call) && |s.queue.ring| < Limit(s.cfg, call.kind)
    requires Inv(Working(s, c, call))
    ensures Exec(Working(s, c, call), By(c, [TestEnqueue, Push, Signal]))
         == Working(s.(queue := Queued(s.queue, MessageOf(c, call.kind))), c, Sent(call))
  {
    var m, w := MessageOf(c, call.kind), Working(s, c, call);
    var s2 := s.(queue := s.queue.(ring := s.queue.ring + [m], accepted := s.queue.accepted + [m]));
    var call2 := call.(pc := Signalling, pushed := !call.kind.Timer?);
    hide Inv, CallNext, Exec;
    Do3(w, c, TestEnqueue, Push, Signal);
    Pushes(s, c, call);
    CallInv(w, c, TestEnqueue);
    CallInv(CallNext(w, c, TestEnqueue), c, Push);
    RoomToSignal(Working(s2, c, call2), c);
    Signals(s2, c, call2);
  }

  lemma RoomToSignal(s: State, c: CallId)
    requires Inv(s) && s.run == Running && At(s, c, Signalling)
    ensures s.queue.sem < s.cfg.queueSize + 1
  {
    NoSignalRefused(s, c);
  }

  lemma Signals(s: State, c: CallId, call: Call)
    requires call.pc == Signalling && s.queue.sem < s.cfg.queueSize + 1
    ensures CallNext(Working(s, c, call), c, Signal)
         == Working(s.(queue := s.queue.(sem := s.queue.sem + 1)), c,
                    call.(pc := if call.kind.Sync? then Waiting else Leaving(Success)))
  {
    MovesTo(s, c, call, if call.kind.Sync? then Waiting else Leaving(Success));
  }

  // ---------------------------------------------------------------- the calls

  /** PostAsyncTask without a delay: the message is in the ring and signalled if the handler runs and the ring has room,
      and otherwise nothing but the result tells of the call. */
  lemma AsyncComesTo(s: State, c: CallId)
    requires Inv(s) && c !in s.calls
    ensures Through(s, c, [Begin(Async), TestState], [TestEnqueue, Push, Signal])
      == if s.run != Running then Passed(s, c, EndedCall(Async, Uninit, 0, false))
         else if |s.queue.ring| >= s.cfg.queueSize then Passed(s, c, EndedCall(Async, Fail, 0, false))
         else Passed(s.(queue := Queued(s.queue, TaskMsg(c))), c, EndedCall(Async, Success, 0, true))
  {
    hide Inv, Exec, CallNext;
    var call, q := NewCall(Async, Admitted), s.queue;
    ThroughIs(s, c, [Begin(Async), TestState], [TestEnqueue, Push, Signal]);
    Arrives(s, c, Async);
    if s.run != Running {
      TurnedAway(s, c, Async, [TestEnqueue, Push, Signal]);
    } else if |q.ring| >= s.cfg.queueSize {
      EnqueueRefused(s, c, call);
      LeavesAs(s, c, call.(pc := Leaving(Fail)));
    } else {
      ExecInv(s, By(c, [Begin(Async), TestState]));
      EnqueueAccepted(s, c, call);
      LeavesAs(s.(queue := Queued(q, TaskMsg(c))), c, Sent(call));
    }
  }

  /** A call that was turned away only leaves. */
  lemma TurnedAway(s: State, c: CallId, kind: Kind, steps: seq<CallStep>)
    requires forall i | 0 <= i < |steps| :: !steps[i].Leave?
    ensures CallNext(Exec(Working(s, c, NewCall(kind, Leaving(Uninit))), By(c, steps)), c, Leave)
         == Passed(s, c, EndedCall(kind, Uninit, 0, false))
  {
    Lingers(Working(s, c, NewCall(kind, Leaving(Uninit))), c, steps);
    LeavesAs(s, c, NewCall(kind, Leaving(Uninit)));
  }

  lemma {:induction false} Lingers(s: State, c: CallId, steps: seq<CallStep>)
    requires c in s.calls && s.calls[c].pc.Leaving? && forall i | 0 <= i < |steps| :: !steps[i].Leave?
    ensures Exec(s, By(c, steps)) == s
    decreases |steps|
  {
    if steps != [] {
      assert steps == [steps[0]] + steps[1..];
      DoAppend(s, c, [steps[0]], steps[1..]);
      Do1(s, c, steps[0]);
      Ignored(s, c, steps[0]);
      Lingers(s, c, steps[1..]);
    }
  }

  lemma Ignored(s: State, c: CallId, step: CallStep)
    requires c in s.calls && s.calls[c].pc.Leaving? && !step.Leave?
    ensures CallNext(s, c, step) == s
  {
  }

  /** The same when the message cannot be allocated. */
  lemma AsyncWithoutMemory(s: State, c: CallId)
    requires c !in s.calls && s.run == Running
    ensures Through(s, c, [Begin(Async), TestState], [AllocFails]) == Passed(s, c, EndedCall(Async, Fail, 0, false))
  {
    var call := NewCall(Async, Admitted);
    ThroughIs(s, c, [Begin(Async), TestState], [AllocFails]);
    Arrives(s, c, Async);
    Do1(Working(s, c, call), c, AllocFails);
    MovesTo(s, c, call, Leaving(Fail));
    LeavesAs(s, c, call.(pc := Leaving(Fail)));
  }

  /** PostSyncTask from the loop's own task. */
  lemma InlineComesTo(s: State, c: CallId)
    requires c !in s.calls
    ensures Through(s, c, [Begin(Inline), TestState], [RunInline])
      == Passed(s, c, EndedCall(Inline, if s.run == Running then Success else Uninit, 0, false))
  {
    var call := NewCall(Inline, Admitted);
    ThroughIs(s, c, [Begin(Inline), TestState], [RunInline]);
    Arrives(s, c, Inline);
    if s.run == Running {
      Do1(Working(s, c, call), c, RunInline);
      MovesTo(s, c, call, Leaving(Success));
      LeavesAs(s, c, call.(pc := Leaving(Success)));
    } else {
      TurnedAway(s, c, Inline, [RunInline]);
    }
  }

  /** A table with the entry put at its place; a new first entry arms the timer. */
  function WithEntry(k: Clock, p: nat, e: Entry): Clock
    requires p <= |k.delayed|
  {
    Clock(k.delayed[..p] + [e] + k.delayed[p..], e.id, p == 0 || k.pending, k.flag, p > 0 && k.lost)
  }

  /** A table without one entry; the loss of the first entry arms the timer for the next, if there is one. */
  function WithoutEntry(k: Clock, p: nat): Clock
    requires p < |k.delayed|
  {
    Clock(k.delayed[..p] + k.delayed[p + 1..], k.lastId, if p == 0 then |k.delayed| > 1 else k.pending, k.flag,
          p > 0 && k.lost)
  }

  /** PostAsyncTask with a delay: while the handler runs and the table has room, one entry with the next id of the
      circle, due after the delay and at least a tick, goes in where the scan of the table stops. */
  lemma DelayedComesTo(s: State, c: CallId, ticks: Word, now: Word)
    requires c !in s.calls
    ensures var e := Entry(s.clock.lastId % IDS + 1, (now + if ticks > 1 then ticks else 1) % WORD);
      Through(s, c, [Begin(Delayed(ticks)), TestState], [Insert(now)])
      == if s.run != Running then Passed(s, c, EndedCall(Delayed(ticks), Uninit, 0, false))
         else if |s.clock.delayed| >= s.cfg.maxDelayed then Passed(s, c, EndedCall(Delayed(ticks), Fail, 0, false))
         else Passed(s.(clock := WithEntry(s.clock, InsertPos(s.clock.delayed, e.dueTick), e)), c,
                     EndedCall(Delayed(ticks), Success, 0, false))
  {
    hide Exec, InsertPos, NextId;
    var kind := Delayed(ticks);
    var call := NewCall(kind, Admitted);
    ThroughIs(s, c, [Begin(kind), TestState], [Insert(now)]);
    Arrives(s, c, kind);
    if s.run == Running {
      var ret := if |s.clock.delayed| >= s.cfg.maxDelayed then Fail else Success;
      var w := Working(s, c, call);
      Do1(w, c, Insert(now));
      MovesTo(s, c, call, Leaving(ret));
      Inserted(s, c, call, now);
      LeavesAs(CallNext(w, c, Insert(now)).(active := s.active, calls := s.calls), c, call.(pc := Leaving(ret)));
    } else {
      TurnedAway(s, c, kind, [Insert(now)]);
    }
  }

  lemma Inserted(s: State, c: CallId, call: Call, now: Word)
    requires call.kind.Delayed? && call.pc == Admitted
    ensures var ticks := call.kind.ticks;
      var e := Entry(s.clock.lastId % IDS + 1, (now + if ticks > 1 then ticks else 1) % WORD);
      CallNext(Working(s, c, call), c, Insert(now))
      == if |s.clock.delayed| >= s.cfg.maxDelayed then Working(s, c, call.(pc := Leaving(Fail)))
         else Working(s.(clock := WithEntry(s.clock, InsertPos(s.clock.delayed, e.dueTick), e)), c,
                      call.(pc := Leaving(Success)))
  {
    hide InsertPos;
    MovesTo(s, c, call, Leaving(if |s.clock.delayed| >= s.cfg.maxDelayed then Fail else Success));
  }

  /** RemoveAsyncTask: while the handler runs, the first entry with the id leaves the table, if there is one. */
  lemma RemoveComesTo(s: State, c: CallId, id: Word)
    requires c !in s.calls
    ensures var k := IndexOf(s.clock.delayed, id);
      Through(s, c, [Begin(Kind.Remove(id)), TestState], [Erase])
      == if s.run != Running then Passed(s, c, EndedCall(Kind.Remove(id), Uninit, 0, false))
         else if id == 0 || k == |s.clock.delayed| then Passed(s, c, EndedCall(Kind.Remove(id), Fail, 0, false))
         else Passed(s.(clock := WithoutEntry(s.clock, k)), c, EndedCall(Kind.Remove(id), Success, 0, false))
  {
    hide Exec, IndexOf;
    var kind := Kind.Remove(id);
    var call := NewCall(kind, Admitted);
    ThroughIs(s, c, [Begin(kind), TestState], [Erase]);
    Arrives(s, c, kind);
    if s.run == Running {
      var k := IndexOf(s.clock.delayed, id);
      var ret := if id == 0 || k == |s.clock.delayed| then Fail else Success;
      var w := Working(s, c, call);
      Do1(w, c, Erase);
      Erased(s, c, call);
      LeavesAs(CallNext(w, c, Erase).(active := s.active, calls := s.calls), c, call.(pc := Leaving(ret)));
    } else {
      TurnedAway(s, c, kind, [Erase]);
    }
  }

  lemma Erased(s: State, c: CallId, call: Call)
    requires call.kind.Remove? && call.pc == Admitted
    ensures var id := call.kind.id;
      var k := IndexOf(s.clock.delayed, id);
      CallNext(Working(s, c, call), c, Erase)
      == if id == 0 || k == |s.clock.delayed| then Working(s, c, call.(pc := Leaving(Fail)))
         else Working(s.(clock := WithoutEntry(s.clock, k)), c, call.(pc := Leaving(Success)))
  {
    var id := call.kind.id;
    var k := IndexOf(s.clock.delayed, id);
    hide IndexOf;
    MovesTo(s, c, call, Leaving(if id == 0 || k == |s.clock.delayed| then Fail else Success));
  }

  // ---------------------------------------------------------------- synchronous calls

  /** PostSyncTask takes the first free slot. */
  lemma Acquires(s: State, c: CallId)
    ensures var w, i := Working(s, c, NewCall(Sync, Admitted)), FirstFree(s.waiters.slots);
      CallNext(w, c, Acquire)
      == if i == |s.waiters.slots| then Working(s, c, NewCall(Sync, Leaving(Fail)))
         else Working(s.(waiters := s.waiters.(slots := s.waiters.slots[i := Some(c)])), c,
                      Call(Sync, Acquired, i, false, false, false, Success))
  {
    hide FirstFree;
    var call, i := NewCall(Sync, Admitted), FirstFree(s.waiters.slots);
    MovesTo(s, c, call, Leaving(Fail));
    var call' := Call(Sync, Acquired, i, false, false, false, Success);
    assert s.calls[c := call][c := call'] == s.calls[c := call'];
  }

  /** Arriving and taking the slot. */
  lemma ArrivesWithSlot(s: State, c: CallId)
    requires c !in s.calls && s.run == Running
    ensures var i := FirstFree(s.waiters.slots);
      Exec(s, By(c, [Begin(Sync), TestState] + [Acquire]))
      == if i == |s.waiters.slots| then Working(s, c, NewCall(Sync, Leaving(Fail)))
         else Working(s.(waiters := s.waiters.(slots := s.waiters.slots[i := Some(c)])), c,
                      Call(Sync, Acquired, i, false, false, false, Success))
  {
    hide CallNext, FirstFree, Exec;
    DoAppend(s, c, [Begin(Sync), TestState], [Acquire]);
    Arrives(s, c, Sync);
    Do1(Working(s, c, NewCall(Sync, Admitted)), c, Acquire);
    Acquires(s, c);
  }

  /** A call with its slot whose message finds no room gives the slot back. */
  lemma FindsNoRoom(s: State, c: CallId, i: nat)
    requires s.run == Running && |s.queue.ring| >= s.cfg.queueSize
    requires i < |s.waiters.slots| && i < |s.waiters.sems| && s.waiters.slots[i] == None
    ensures var s1 := s.(waiters := s.waiters.(slots := s.waiters.slots[i := Some(c)]));
      var t := Exec(Working(s1, c, Call(Sync, Acquired, i, false, false, false, Success)),
                    By(c, [TestEnqueue, Push, Signal]));
      CallNext(CallNext(t, c, GiveBack), c, Leave) == Passed(s, c, EndedCall(Sync, Fail, i, false))
  {
    hide Exec, CallNext;
    var s1 := s.(waiters := s.waiters.(slots := s.waiters.slots[i := Some(c)]));
    var call := Call(Sync, Acquired, i, false, false, false, Success);
    EnqueueRefused(s1, c, call);
    GivesBack(s, c, i, Fail);
    LeavesAs(s, c, call.(pc := Leaving(Fail)));
  }

  /** PostSyncTask without a free slot fails at once. */
  lemma SyncFindsNoSlot(s: State, c: CallId)
    requires c !in s.calls && s.run == Running && FirstFree(s.waiters.slots) == |s.waiters.slots|
    ensures Through(s, c, [Begin(Sync), TestState], [Acquire]) == Passed(s, c, EndedCall(Sync, Fail, 0, false))
  {
    hide Exec, CallNext, FirstFree;
    ThroughIs(s, c, [Begin(Sync), TestState], [Acquire]);
    DoAppend(s, c, [Begin(Sync), TestState], [Acquire]);
    ArrivesWithSlot(s, c);
    LeavesAs(s, c, NewCall(Sync, Leaving(Fail)));
  }

  /** The steps of a synchronous call up to its wait. */
  function ToWait(): seq<CallStep> {
    [Begin(Sync), TestState] + [Acquire] + [TestEnqueue, Push, Signal]
  }

  lemma ToWaitIs(s: State, c: CallId)
    ensures Exec(s, By(c, ToWait()))
         == Exec(Exec(s, By(c, [Begin(Sync), TestState] + [Acquire])), By(c, [TestEnqueue, Push, Signal]))
  {
    DoAppend(s, c, [Begin(Sync), TestState] + [Acquire], [TestEnqueue, Push, Signal]);
  }

  /** PostSyncTask on a full ring gives its slot back. */
  lemma SyncFindsNoRoom(s: State, c: CallId)
    requires Inv(s) && c !in s.calls && s.run == Running && |s.queue.ring| >= s.cfg.queueSize
    requires FirstFree(s.waiters.slots) < |s.waiters.slots|
    ensures CallNext(CallNext(Exec(s, By(c, ToWait())), c, GiveBack), c, Leave)
         == Passed(s, c, EndedCall(Sync, Fail, FirstFree(s.waiters.slots), false))
  {
    SizedByInv(s);
    hide Inv, Exec, CallNext, FirstFree, ToWait;
    ToWaitIs(s, c);
    ArrivesWithSlot(s, c);
    FindsNoRoom(s, c, FirstFree(s.waiters.slots));
  }

  /** PostSyncTask with a free slot and room in the ring waits on the first free slot, its message in the ring and
      signalled. */
  lemma SyncComesToWait(s: State, c: CallId)
    requires Inv(s) && c !in s.calls && s.run == Running && |s.queue.ring| < s.cfg.queueSize
    requires FirstFree(s.waiters.slots) < |s.waiters.slots|
    ensures var i := FirstFree(s.waiters.slots);
      Exec(s, By(c, ToWait()))
      == Working(s.(waiters := s.waiters.(slots := s.waiters.slots[i := Some(c)]),
                    queue := Queued(s.queue, TaskMsg(c))), c,
                 Call(Sync, Waiting, i, true, false, false, Success))
  {
    var i := FirstFree(s.waiters.slots);
    ExecInv(s, By(c, [Begin(Sync), TestState] + [Acquire]));
    hide Inv, Exec, CallNext, FirstFree, Queued, ToWait;
    ToWaitIs(s, c);
    ArrivesWithSlot(s, c);
    EnqueueAccepted(s.(waiters := s.waiters.(slots := s.waiters.slots[i := Some(c)])), c,
                    Call(Sync, Acquired, i, false, false, false, Success));
  }

  lemma SizedByInv(s: State)
    requires Inv(s)
    ensures |s.waiters.slots| == |s.waiters.sems|
  {
  }

  lemma GivesBack(s: State, c: CallId, i: nat, ret: Ret)
    requires i < |s.waiters.slots| && i < |s.waiters.sems| && s.waiters.slots[i] == None
    ensures var call := Call(Sync, Releasing(ret), i, false, false, false, Success);
      CallNext(Working(s.(waiters := s.waiters.(slots := s.waiters.slots[i := Some(c)])), c, call), c, GiveBack)
      == Working(s, c, call.(pc := Leaving(ret)))
  {
    var call := Call(Sync, Releasing(ret), i, false, false, false, Success);
    assert s.waiters.slots[i := Some(c)][i := None] == s.waiters.slots;
    MovesTo(s, c, call, Leaving(ret));
  }

  /** A synchronous call that is turned away. */
  lemma SyncTurnedAway(s: State, c: CallId)
    requires c !in s.calls && s.run != Running
    ensures Through(s, c, [Begin(Sync), TestState], [Acquire]) == Passed(s, c, EndedCall(Sync, Uninit, 0, false))
  {
    hide Exec, CallNext;
    ThroughIs(s, c, [Begin(Sync), TestState], [Acquire]);
    Arrives(s, c, Sync);
    TurnedAway(s, c, Sync, [Acquire]);
  }

  /** A synchronous call that cannot allocate its message gives its slot back. */
  lemma SyncWithoutMemory(s: State, c: CallId)
    requires Inv(s) && c !in s.calls && s.run == Running && FirstFree(s.waiters.slots) < |s.waiters.slots|
    ensures Through(s, c, [Begin(Sync), TestState] + [Acquire], [AllocFails, GiveBack])
         == Passed(s, c, EndedCall(Sync, Fail, FirstFree(s.waiters.slots), false))
  {
    SizedByInv(s);
    hide Inv, Exec, FirstFree;
    var i := FirstFree(s.waiters.slots);
    var s1 := s.(waiters := s.waiters.(slots := s.waiters.slots[i := Some(c)]));
    var call := Call(Sync, Acquired, i, false, false, false, Success);
    ThroughIs(s, c, [Begin(Sync), TestState] + [Acquire], [AllocFails, GiveBack]);
    ArrivesWithSlot(s, c);
    Do2(Working(s1, c, call), c, AllocFails, GiveBack);
    MovesTo(s1, c, call, Releasing(Fail));
    GivesBack(s, c, i, Fail);
    LeavesAs(s, c, call.(pc := Leaving(Fail)));
  }

  /** The end of a wait. Once the context is done, the call returns its status and leaves its slot free and silent,
      whether it was woken or timed out; a call that times out before that is abandoned and keeps its slot in use. */
  lemma WaitComesToAnEnd(s: State, c: CallId, wake: CallStep)
    requires Inv(s) && At(s, c, Waiting) && wake in {WaitOk, WaitTimeout}
    requires wake == WaitOk ==> s.calls[c].done
    ensures var call, i := s.calls[c], s.calls[c].slot;
      i < |s.waiters.slots| == |s.waiters.sems| && s.waiters.slots[i] == Some(c)
    ensures var call, i := s.calls[c], s.calls[c].slot;
      Exec(s, By(c, [wake, Conclude, Leave]))
      == if call.done then
           s.(active := s.active - 1, calls := s.calls[c := call.(pc := Left(call.status))],
              waiters := Waiters(s.waiters.slots[i := None], s.waiters.sems[i := 0]))
         else s.(active := s.active - 1, calls := s.calls[c := call.(pc := Left(Fail), abandoned := true)])
  {
    var call, i := s.calls[c], s.calls[c].slot;
    assert CallOk(call) && Holds(call);
    assert s.waiters.sems[i] == SignalDue(s, i);
    CallInv(s, c, wake);
    Wakes(s, c, wake);
    Do3(s, c, wake, Conclude, Leave);
    var t := CallNext(s, c, wake);
    if call.done {
      ConcludeTakesTheSignal(t, c);
      assert t.waiters.sems[i := 0] == s.waiters.sems[i := 0];
      Concludes(s, t, c, call.(pc := Leaving(call.status)));
    } else {
      Concludes(s, t, c, call.(pc := Leaving(Fail), abandoned := true));
    }
  }

  lemma Wakes(s: State, c: CallId, wake: CallStep)
    requires At(s, c, Waiting) && HasSlot(s, c) && wake in {WaitOk, WaitTimeout}
    requires wake == WaitOk ==> s.waiters.sems[s.calls[c].slot] > 0
    ensures var t, i := CallNext(s, c, wake), s.calls[c].slot;
      && t == s.(calls := s.calls[c := s.calls[c].(pc := Woken(wake == WaitOk))], waiters := t.waiters)
      && t.waiters == if wake == WaitOk then Take(s.waiters, i) else s.waiters
  {
  }

  /** A call that has concluded leaves. */
  lemma Concludes(s: State, t: State, c: CallId, call: Call)
    requires c in s.calls && c in t.calls && call.pc.Leaving?
    requires ConcludeNext(t, c) == t.(calls := t.calls[c := call], waiters := ConcludeNext(t, c).waiters)
    requires t == s.(calls := s.calls[c := t.calls[c]], waiters := t.waiters)
    ensures CallNext(CallNext(t, c, Conclude), c, Leave)
      == s.(active := s.active - 1, calls := s.calls[c := call.(pc := Left(call.pc.ret))],
            waiters := ConcludeNext(t, c).waiters)
  {
    var left := call.(pc := Left(call.pc.ret));
    assert s.calls[c := t.calls[c]][c := call][c := left] == s.calls[c := left];
  }

  // ---------------------------------------------------------------- the timer

  /** The timer fires. */
  lemma Fires(s: State, c: CallId)
    requires c !in s.calls && s.clock.pending && s.run == Running
    ensures Exec(s, By(c, [Expire, EnterCallback, TestState]))
         == Working(s.(clock := s.clock.(pending := false)), c, NewCall(Timer, Admitted))
  {
    var s1, fired := s.(clock := s.clock.(pending := false)), NewCall(Timer, Fired);
    Do3(s, c, Expire, EnterCallback, TestState);
    assert CallNext(s, c, Expire) == s1.(calls := s1.calls[c := fired]);
    assert s1.calls[c := fired][c := NewCall(Timer, Entered)] == s1.calls[c := NewCall(Timer, Entered)];
    assert CallNext(CallNext(s, c, Expire), c, EnterCallback) == Working(s1, c, NewCall(Timer, Entered));
    MovesTo(s1, c, NewCall(Timer, Entered), Admitted);
  }

  /** The flag lets one callback through at a time. */
  lemma FiresFlagged(s: State, c: CallId)
    requires c !in s.calls && s.clock.pending && s.run == Running
    ensures Exec(s, By(c, [Expire, EnterCallback, TestState] + [Exchange]))
         == Working(s.(clock := s.clock.(pending := false, flag := true)), c,
                    NewCall(Timer, if s.clock.flag then Leaving(Success) else Flagged))
  {
    hide Exec;
    var s1, call := s.(clock := s.clock.(pending := false)), NewCall(Timer, Admitted);
    DoAppend(s, c, [Expire, EnterCallback, TestState], [Exchange]);
    Fires(s, c);
    Do1(Working(s1, c, call), c, Exchange);
    MovesTo(s1, c, call, if s.clock.flag then Leaving(Success) else Flagged);
  }

  /** An expiry while the handler runs puts the timer message into the ring, however full that is with other messages,
      unless one is already on its way. */
  lemma ExpiryComesTo(s: State, c: CallId)
    requires Inv(s) && c !in s.calls && s.clock.pending && s.run == Running
    ensures Through(s, c, [Expire, EnterCallback, TestState] + [Exchange], [TestEnqueue, Push, Signal])
      == Passed(s.(clock := s.clock.(pending := false, flag := true),
                   queue := if s.clock.flag then s.queue else Queued(s.queue, TimerMsg)), c,
                EndedCall(Timer, Success, 0, false))
  {
    var come := [Expire, EnterCallback, TestState] + [Exchange];
    var s1 := s.(clock := s.clock.(pending := false, flag := true));
    ExecInv(s, By(c, come));
    if !s.clock.flag {
      TimerHasRoom(s);
    }
    hide Inv, Exec, CallNext, Queued;
    ThroughIs(s, c, come, [TestEnqueue, Push, Signal]);
    FiresFlagged(s, c);
    if s.clock.flag {
      Lingers(Working(s1, c, NewCall(Timer, Leaving(Success))), c, [TestEnqueue, Push, Signal]);
      LeavesAs(s1, c, NewCall(Timer, Leaving(Success)));
    } else {
      EnqueueAccepted(s1, c, NewCall(Timer, Flagged));
      LeavesAs(s1.(queue := Queued(s.queue, TimerMsg)), c, Sent(NewCall(Timer, Flagged)));
    }
  }

  lemma TimerHasRoom(s: State)
    requires Inv(s) && !s.clock.flag
    ensures |s.queue.ring| <= s.cfg.queueSize
  {
    assert Copies(s.queue.ring, TimerMsg) == 0;
  }

  /** Over every run a callback about to push puts the timer message into the ring. */
  lemma TimerPushSucceeds(cfg: Config, steps: seq<Step>, c: CallId)
    requires var s := Exec(Start(cfg), steps); At(s, c, Pushing) && s.calls[c].kind.Timer?
    ensures var s := Exec(Start(cfg), steps);
      var t := Next(s, ByCall(c, Push));
      At(t, c, Signalling) && TimerMsg !in s.queue.ring && t.queue.ring == s.queue.ring + [TimerMsg]
  {
    ReachedInv(cfg, steps);
    TimerAlwaysFits(Exec(Start(cfg), steps), c);
  }

  lemma Withdraws(s: State, c: CallId)
    requires At(s, c, Flagged) && s.calls[c].kind.Timer? && s.run != Running
    ensures CallNext(CallNext(s, c, TestEnqueue), c, Unflag)
         == s.(calls := s.calls[c := s.calls[c].(pc := Rearming)], clock := s.clock.(flag := false))
  {
    var call := s.calls[c];
    assert s.calls[c := call.(pc := Unflagging)][c := call.(pc := Rearming)] == s.calls[c := call.(pc := Rearming)];
  }

  lemma RestartsTimer(s: State, c: CallId)
    requires At(s, c, Rearming)
    ensures CallNext(CallNext(s, c, Rearm), c, Leave)
         == s.(active := s.active - 1, calls := s.calls[c := s.calls[c].(pc := Left(Fail))],
               clock := s.clock.(pending := true, lost := false))
  {
    var a, b := s.calls[c].(pc := Leaving(Fail)), s.calls[c].(pc := Left(Fail));
    assert s.calls[c := a][c := b] == s.calls[c := b];
  }

  /** An expiry that finds the handler no longer running clears the flag and restarts the timer. */
  lemma RefusedExpiryComesTo(s: State, c: CallId)
    requires At(s, c, Flagged) && s.calls[c].kind.Timer? && s.run != Running
    ensures Exec(s, By(c, [TestEnqueue, Unflag] + [Rearm, Leave]))
      == s.(active := s.active - 1, calls := s.calls[c := s.calls[c].(pc := Left(Fail))],
            clock := s.clock.(flag := false, pending := true, lost := false))
  {
    hide Exec, CallNext;
    var call := s.calls[c];
    var t := s.(calls := s.calls[c := call.(pc := Rearming)], clock := s.clock.(flag := false));
    DoAppend(s, c, [TestEnqueue, Unflag], [Rearm, Leave]);
    Do2(s, c, TestEnqueue, Unflag);
    Withdraws(s, c);
    Do2(t, c, Rearm, Leave);
    RestartsTimer(t, c);
    assert t.calls[c := call.(pc := Left(Fail))] == s.calls[c := call.(pc := Left(Fail))];
  }
}
