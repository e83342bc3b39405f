/** The self-driven event handler as a transition system. Any number of posting calls, timer callbacks, the
    loop task and the task that stops the handler interleave; one step is what the source does in one lock
    region or with one atomic or semaphore operation. Mutex, counting semaphore and one-shot timer behave as
    the kernel adapter documents them. */
module LoopModel {
  import opened Options
  import opened Ticks
  import opened DelayedTable

  // ---------------------------------------------------------------- calls

  type CallId = nat

  /** TELEPHONY_SUCCESS, TELEPHONY_ERR_IPC_CONNECT_STUB_FAIL and TELEPHONY_ERR_UNINIT. */
  datatype Ret = Success | Fail | Uninit

  /** PostAsyncTask without and with a delay, RemoveAsyncTask, PostSyncTask from another task and from the
      loop itself, and OnTimerExpired. */
  datatype Kind = Async | Delayed(ticks: Word) | Remove(id: Word) | Sync | Inline | Timer

  /** Where a call stands, named after what it has done or does next. */
  datatype Pc =
    | Fired              // a timer callback that has not yet registered itself as active
    | Entered            // registered; the state is tested next
    | Admitted           // saw RUNNING
    | Acquired           // holds a waiter slot; Enqueue tests the state next
    | Flagged            // set timerMessageQueued_; Enqueue tests the state next
    | Pushing            // Enqueue's lock region is next
    | Signalling         // in the ring; the queue semaphore is posted next
    | Releasing(ret: Ret)  // not enqueued; gives its waiter slot back next
    | Unflagging         // not enqueued; clears timerMessageQueued_ next
    | Rearming           // restarts the timer next
    | Waiting            // in the wait on its slot's semaphore
    | Woken(ok: bool)    // the wait ended, by the signal or by the timeout
    | Leaving(ret: Ret)  // deregisters next
    | Left(ret: Ret)

  /** A call; the last fields are the SyncContext of a synchronous one. `pushed` records that its message
      went into the ring. */
  datatype Call = Call(kind: Kind, pc: Pc, slot: nat, pushed: bool, done: bool, abandoned: bool, status: Ret)

  function NewCall(kind: Kind, pc: Pc): Call {
    Call(kind, pc, 0, false, false, false, Success)
  }

  // ---------------------------------------------------------------- messages, loop, stopper

  datatype Msg = TimerMsg | TaskMsg(c: CallId)

  /** A message the loop is through with: its task ran to the end, or it was recycled. */
  datatype Finished = Finished(m: Msg, ran: bool)

  /** RunLoop. `stopping` is what the lock region of the pop read. */
  datatype Loop =
    | AtWait
    | AtPop
    | InHand(m: Msg, stopping: bool)
    | ClearingFlag(stopping: bool)
    | AtTakeDue(stopping: bool)
    | RunningDue(due: seq<Entry>, stopping: bool)
    | RunningTask(c: CallId, stopping: bool)
    | Completing(c: CallId, ret: Ret, stopping: bool)
    | Recycling(m: Msg, stopping: bool)
    | Draining
    | Exiting
    | Exited

  function Resume(stopping: bool): Loop {
    if stopping then Draining else AtWait
  }

  datatype RunState = Running | Stopping | Stopped

  /** Stop. Idle means that no call of Stop is past its compare-exchange. */
  datatype Stopper =
    | Idle
    | Undoing            // called from the loop: puts RUNNING back next
    | StoppingTimer
    | Dropping
    | Waking
    | AwaitingLoop
    | CheckingCalls
    | CheckingTimer
    | CheckingSlots
    | ReleasingObjects
    | Finishing
    | AllDone
    | GaveUp

  datatype Config = Config(queueSize: nat, maxDelayed: nat, waiters: nat)

  /** waiterInUse_, with the context that uses each slot, and waiterSems_. */
  datatype Waiters = Waiters(slots: seq<Option<CallId>>, sems: seq<nat>)

  /** The ring and its semaphore, and the history of messages accepted and finished. */
  datatype Queue = Queue(ring: seq<Msg>, sem: nat, accepted: seq<Msg>, finished: seq<Finished>)

  /** The delayed table, whether the timer is pending, timerMessageQueued_, and whether an expiry has been
      refused since the timer was last armed. */
  datatype Clock = Clock(delayed: seq<Entry>, lastId: Word, pending: bool, flag: bool, lost: bool)

  datatype State = State(
    cfg: Config,
    run: RunState,
    active: int,    // activeCalls_
    calls: map<CallId, Call>,
    waiters: Waiters,
    queue: Queue,
    clock: Clock,
    loop: Loop,
    stopper: Stopper,
    released: bool)

  function Start(cfg: Config): State {
    State(cfg, Running, 0, map[], Waiters(seq(cfg.waiters, _ => None), seq(cfg.waiters, _ => 0)),
          Queue([], 0, [], []), Clock([], INVALID_ID, false, false, false), AtWait, Idle, false)
  }

  // ---------------------------------------------------------------- steps of a call

  // Every step is a total function: a step that is not enabled leaves the state as it is.

  datatype CallStep =
    | Begin(kind: Kind)
    | Expire
    | EnterCallback
    | TestState
    | AllocFails
    | TestEnqueue
    | Push
    | Signal
    | Insert(now: Word)
    | Erase
    | RunInline
    | Acquire
    | GiveBack
    | WaitOk
    | WaitTimeout
    | Conclude
    | Exchange
    | Unflag
    | Rearm
    | Leave

  predicate At(s: State, c: CallId, pc: Pc) {
    c in s.calls && s.calls[c].pc == pc
  }

  function SetPc(s: State, c: CallId, pc: Pc): State
    requires c in s.calls
  {
    s.(calls := s.calls[c := s.calls[c].(pc := pc)])
  }

  /** Where a call goes when Enqueue fails. */
  function Refused(kind: Kind, ret: Ret): Pc {
    if kind.Sync? then Releasing(ret) else if kind.Timer? then Unflagging else Leaving(ret)
  }

  function MessageOf(c: CallId, kind: Kind): Msg {
    if kind.Timer? then TimerMsg else TaskMsg(c)
  }

  /** A post to the queue semaphore, which its maximum count may refuse. */
  function PostTo(q: Queue, cfg: Config): Queue {
    if q.sem < cfg.queueSize + 1 then q.(sem := q.sem + 1) else q
  }

  /** ArmTimerLocked. */
  function Arm(k: Clock): Clock {
    k.(pending := k.delayed != [], lost := false)
  }

  function FirstFree(slots: seq<Option<CallId>>): (i: nat)
    ensures i <= |slots|
    ensures i < |slots| ==> slots[i] == None
    ensures forall j | 0 <= j < i :: slots[j].Some?
  {
    if slots == [] || slots[0] == None then 0
    else
      var k := FirstFree(slots[1..]);
      assert forall j | 1 <= j < 1 + k :: slots[j] == slots[1..][j - 1];
      1 + k
  }

  function BeginNext(s: State, c: CallId, kind: Kind): State {
    if c in s.calls || kind.Timer? then s
    else s.(active := s.active + 1, calls := s.calls[c := NewCall(kind, Entered)])
  }

  /** The one-shot timer fires and its callback starts. */
  function ExpireNext(s: State, c: CallId): State {
    if c in s.calls || !s.clock.pending then s
    else s.(clock := s.clock.(pending := false), calls := s.calls[c := NewCall(Timer, Fired)])
  }

  function EnterCallbackNext(s: State, c: CallId): State {
    if !At(s, c, Fired) then s else SetPc(s, c, Entered).(active := s.active + 1)
  }

  function TestStateNext(s: State, c: CallId): State {
    if !At(s, c, Entered) then s
    else if s.run == Running then SetPc(s, c, Admitted)
    else SetPc(s, c, Leaving(Uninit)).(clock := s.clock.(lost := s.clock.lost || s.calls[c].kind.Timer?))
  }

  function LeaveNext(s: State, c: CallId): State {
    if c !in s.calls || !s.calls[c].pc.Leaving? then s
    else SetPc(s, c, Left(s.calls[c].pc.ret)).(active := s.active - 1)
  }

  predicate ReadyToEnqueue(call: Call) {
    || (call.kind.Async? && call.pc == Admitted)
    || (call.kind.Sync? && call.pc == Acquired)
    || (call.kind.Timer? && call.pc == Flagged)
  }

  function AllocFailsNext(s: State, c: CallId): State {
    if c !in s.calls || !ReadyToEnqueue(s.calls[c]) || s.calls[c].kind.Timer? then s
    else SetPc(s, c, Refused(s.calls[c].kind, Fail))
  }

  function TestEnqueueNext(s: State, c: CallId): State {
    if c !in s.calls || !ReadyToEnqueue(s.calls[c]) then s
    else SetPc(s, c, if s.run == Running then Pushing else Refused(s.calls[c].kind, Uninit))
  }

  /** Only the timer message may use the ring's extra slot. */
  function Limit(cfg: Config, kind: Kind): nat {
    cfg.queueSize + if kind.Timer? then 1 else 0
  }

  function PushNext(s: State, c: CallId): State {
    if !At(s, c, Pushing) then s
    else
      var call := s.calls[c];
      if |s.queue.ring| >= Limit(s.cfg, call.kind) then SetPc(s, c, Refused(call.kind, Fail))
      else
        var m := MessageOf(c, call.kind);
        s.(queue := s.queue.(ring := s.queue.ring + [m], accepted := s.queue.accepted + [m]),
           calls := s.calls[c := call.(pc := Signalling, pushed := !call.kind.Timer?)])
  }

  function SignalNext(s: State, c: CallId): State {
    if !At(s, c, Signalling) then s
    else
      SetPc(s, c, if s.calls[c].kind.Sync? then Waiting else Leaving(Success)).(queue := PostTo(s.queue, s.cfg))
  }

  /** The delayed branch of PostAsyncTask, in its lock region. */
  function InsertNext(s: State, c: CallId, now: Word): State {
    if !At(s, c, Admitted) || !s.calls[c].kind.Delayed? then s
    else if |s.clock.delayed| >= s.cfg.maxDelayed then SetPc(s, c, Leaving(Fail))
    else
      var due := DueTick(now, s.calls[c].kind.ticks);
      var p := InsertPos(s.clock.delayed, due);
      var id := NextId(s.clock.lastId);
      var k := s.clock.(lastId := id, delayed := InsertAt(s.clock.delayed, p, Entry(id, due)));
      SetPc(s, c, Leaving(Success)).(clock := if p == 0 then Arm(k) else k)
  }

  /** RemoveAsyncTask, in its lock region. */
  function EraseNext(s: State, c: CallId): State {
    if !At(s, c, Admitted) || !s.calls[c].kind.Remove? then s
    else
      var id := s.calls[c].kind.id;
      var p := IndexOf(s.clock.delayed, id);
      if id == INVALID_ID || p == |s.clock.delayed| then SetPc(s, c, Leaving(Fail))
      else
        var k := s.clock.(delayed := RemoveAt(s.clock.delayed, p));
        SetPc(s, c, Leaving(Success)).(clock := if p == 0 then Arm(k) else k)
  }

  function RunInlineNext(s: State, c: CallId): State {
    if !At(s, c, Admitted) || !s.calls[c].kind.Inline? then s else SetPc(s, c, Leaving(Success))
  }

  function AcquireNext(s: State, c: CallId): State {
    if !At(s, c, Admitted) || !s.calls[c].kind.Sync? then s
    else
      var i := FirstFree(s.waiters.slots);
      if i == |s.waiters.slots| then SetPc(s, c, Leaving(Fail))
      else
        s.(waiters := s.waiters.(slots := s.waiters.slots[i := Some(c)]),
           calls := s.calls[c := s.calls[c].(pc := Acquired, slot := i)])
  }

  /** The call's slot exists. */
  predicate HasSlot(s: State, c: CallId) {
    c in s.calls && s.calls[c].slot < |s.waiters.slots| && s.calls[c].slot < |s.waiters.sems|
  }

  function Free(w: Waiters, i: nat): Waiters
    requires i < |w.slots|
  {
    w.(slots := w.slots[i := None])
  }

  /** A wait on a slot's semaphore that finds it signalled. */
  function Take(w: Waiters, i: nat): Waiters
    requires i < |w.sems|
  {
    if w.sems[i] > 0 then w.(sems := w.sems[i := w.sems[i] - 1]) else w
  }

  function GiveBackNext(s: State, c: CallId): State {
    if !HasSlot(s, c) || !s.calls[c].pc.Releasing? then s
    else SetPc(s, c, Leaving(s.calls[c].pc.ret)).(waiters := Free(s.waiters, s.calls[c].slot))
  }

  function WaitOkNext(s: State, c: CallId): State {
    if !HasSlot(s, c) || !At(s, c, Waiting) || s.waiters.sems[s.calls[c].slot] == 0 then s
    else SetPc(s, c, Woken(true)).(waiters := Take(s.waiters, s.calls[c].slot))
  }

  function WaitTimeoutNext(s: State, c: CallId): State {
    if !At(s, c, Waiting) then s else SetPc(s, c, Woken(false))
  }

  /** The last lock region of PostSyncTask. */
  function ConcludeNext(s: State, c: CallId): State {
    if !HasSlot(s, c) || !s.calls[c].pc.Woken? then s
    else
      var call := s.calls[c];
      if call.pc.ok || call.done then
        var w := if call.pc.ok then s.waiters else Take(s.waiters, call.slot);
        SetPc(s, c, Leaving(call.status)).(waiters := Free(w, call.slot))
      else
        s.(calls := s.calls[c := call.(abandoned := true, pc := Leaving(Fail))])
  }

  function ExchangeNext(s: State, c: CallId): State {
    if !At(s, c, Admitted) || !s.calls[c].kind.Timer? then s
    else if s.clock.flag then SetPc(s, c, Leaving(Success))
    else SetPc(s, c, Flagged).(clock := s.clock.(flag := true))
  }

  function UnflagNext(s: State, c: CallId): State {
    if !At(s, c, Unflagging) then s else SetPc(s, c, Rearming).(clock := s.clock.(flag := false))
  }

  function RearmNext(s: State, c: CallId): State {
    if !At(s, c, Rearming) then s else SetPc(s, c, Leaving(Fail)).(clock := s.clock.(pending := true, lost := false))
  }

  // The five families of call steps.

  predicate FrameStep(step: CallStep) {
    step.Begin? || step.Expire? || step.EnterCallback? || step.TestState? || step.Leave?
  }

  predicate EnqueueStep(step: CallStep) {
    step.AllocFails? || step.TestEnqueue? || step.Push? || step.Signal?
  }

  predicate TableStep(step: CallStep) {
    step.Insert? || step.Erase? || step.RunInline?
  }

  predicate WaiterStep(step: CallStep) {
    step.Acquire? || step.GiveBack? || step.WaitOk? || step.WaitTimeout? || step.Conclude?
  }

  predicate CallbackStep(step: CallStep) {
    step.Exchange? || step.Unflag? || step.Rearm?
  }

  function CallNext(s: State, c: CallId, step: CallStep): State {
    match step
    case Begin(kind) => BeginNext(s, c, kind)
    case Expire => ExpireNext(s, c)
    case EnterCallback => EnterCallbackNext(s, c)
    case TestState => TestStateNext(s, c)
    case AllocFails => AllocFailsNext(s, c)
    case TestEnqueue => TestEnqueueNext(s, c)
    case Push => PushNext(s, c)
    case Signal => SignalNext(s, c)
    case Insert(now) => InsertNext(s, c, now)
    case Erase => EraseNext(s, c)
    case RunInline => RunInlineNext(s, c)
    case Acquire => AcquireNext(s, c)
    case GiveBack => GiveBackNext(s, c)
    case WaitOk => WaitOkNext(s, c)
    case WaitTimeout => WaitTimeoutNext(s, c)
    case Conclude => ConcludeNext(s, c)
    case Exchange => ExchangeNext(s, c)
    case Unflag => UnflagNext(s, c)
    case Rearm => RearmNext(s, c)
    case Leave => LeaveNext(s, c)
  }

  // ---------------------------------------------------------------- steps of the loop

  datatype LoopStep =
    | Wait
    | Pop
    | TestDispatch
    | ClearFlag
    | TakeDue(now: Word)
    | RunDue
    | FinishTask
    | Complete
    | RecycleMsg
    | Drain
    | Exit

  predicate IsSync(s: State, c: CallId) {
    c in s.calls && s.calls[c].kind.Sync?
  }

  function WaitNext(s: State): State {
    if s.loop != AtWait || s.queue.sem == 0 then s
    else s.(queue := s.queue.(sem := s.queue.sem - 1), loop := AtPop)
  }

  function PopNext(s: State): State {
    if s.loop != AtPop then s
    else
      var stopping := s.run != Running;
      if s.queue.ring == [] then s.(loop := Resume(stopping))
      else s.(queue := s.queue.(ring := s.queue.ring[1..]), loop := InHand(s.queue.ring[0], stopping))
  }

  function TestDispatchNext(s: State): State {
    if !s.loop.InHand? then s
    else
      var m, stopping := s.loop.m, s.loop.stopping;
      s.(loop := if s.run != Running then Recycling(m, stopping)
                 else if m.TimerMsg? then ClearingFlag(stopping) else RunningTask(m.c, stopping))
  }

  function Log(q: Queue, m: Msg, ran: bool): Queue {
    q.(finished := q.finished + [Finished(m, ran)])
  }

  function ClearFlagNext(s: State): State {
    if !s.loop.ClearingFlag? then s
    else s.(clock := s.clock.(flag := false), queue := Log(s.queue, TimerMsg, true), loop := AtTakeDue(s.loop.stopping))
  }

  /** The lock region of RunDueTasks. */
  function TakeDueNext(s: State, now: Word): State {
    if !s.loop.AtTakeDue? then s
    else
      var k := DueCount(s.clock.delayed, now);
      s.(clock := Arm(s.clock.(delayed := s.clock.delayed[k..])),
         loop := RunningDue(s.clock.delayed[..k], s.loop.stopping))
  }

  function RunDueNext(s: State): State {
    if !s.loop.RunningDue? || s.stopper == Undoing then s
    else
      s.(loop := if s.loop.due == [] then Resume(s.loop.stopping) else RunningDue(s.loop.due[1..], s.loop.stopping))
  }

  function FinishTaskNext(s: State): State {
    if !s.loop.RunningTask? || s.stopper == Undoing then s
    else if IsSync(s, s.loop.c) then s.(loop := Completing(s.loop.c, Success, s.loop.stopping))
    else s.(queue := Log(s.queue, TaskMsg(s.loop.c), true), loop := Resume(s.loop.stopping))
  }

  /** Complete, in its lock region. */
  function CompleteNext(s: State): State {
    if !s.loop.Completing? || !HasSlot(s, s.loop.c) then s
    else
      var c, ret, call := s.loop.c, s.loop.ret, s.calls[s.loop.c];
      s.(calls := s.calls[c := call.(status := ret, done := true)],
         waiters := if call.abandoned then Free(s.waiters, call.slot)
                    else s.waiters.(sems := s.waiters.sems[call.slot := 1]),
         queue := Log(s.queue, TaskMsg(c), ret == Success), loop := Resume(s.loop.stopping))
  }

  function RecycleNext(s: State): State {
    if !s.loop.Recycling? then s
    else
      var m, stopping := s.loop.m, s.loop.stopping;
      if m.TimerMsg? then
        s.(clock := s.clock.(flag := false), queue := Log(s.queue, m, false), loop := Resume(stopping))
      else if IsSync(s, m.c) then s.(loop := Completing(m.c, Uninit, stopping))
      else s.(queue := Log(s.queue, m, false), loop := Resume(stopping))
  }

  function DrainNext(s: State): State {
    if s.loop != Draining then s
    else if s.queue.ring == [] then s.(loop := Exiting)
    else s.(queue := s.queue.(ring := s.queue.ring[1..]), loop := Recycling(s.queue.ring[0], true))
  }

  function ExitNext(s: State): State {
    if s.loop != Exiting then s else s.(loop := Exited)
  }

  function LoopNext(s: State, step: LoopStep): State {
    match step
    case Wait => WaitNext(s)
    case Pop => PopNext(s)
    case TestDispatch => TestDispatchNext(s)
    case ClearFlag => ClearFlagNext(s)
    case TakeDue(now) => TakeDueNext(s, now)
    case RunDue => RunDueNext(s)
    case FinishTask => FinishTaskNext(s)
    case Complete => CompleteNext(s)
    case RecycleMsg => RecycleNext(s)
    case Drain => DrainNext(s)
    case Exit => ExitNext(s)
  }

  // ---------------------------------------------------------------- steps of Stop

  datatype StopStep =
    | Cas(onLoop: bool)
    | Undo
    | StopTimer
    | DropDelayed
    | Wake
    | SeeExit
    | SeeCalls
    | SeeTimer
    | SeeSlots
    | Release
    | FinishStop
    | TimeOut

  predicate NoneInUse(slots: seq<Option<CallId>>) {
    forall i | 0 <= i < |slots| :: slots[i] == None
  }

  /** The loop is inside a task, so that the task may be the one calling Stop. */
  predicate OnLoop(loop: Loop) {
    loop.RunningTask? || (loop.RunningDue? && loop.due != [])
  }

  predicate Polling(stopper: Stopper) {
    stopper in {AwaitingLoop, CheckingCalls, CheckingTimer, CheckingSlots}
  }

  /** The quiescence poll starts over whenever one of the three quantities is not zero. */
  function StopNext(s: State, step: StopStep): State {
    match step
    case Cas(onLoop) =>
      if s.stopper != Idle || s.run != Running || (onLoop && !OnLoop(s.loop)) then s
      else s.(run := Stopping, stopper := if onLoop then Undoing else StoppingTimer)
    case Undo => if s.stopper != Undoing then s else s.(run := Running, stopper := Idle)
    case StopTimer =>
      if s.stopper != StoppingTimer then s else s.(clock := s.clock.(pending := false), stopper := Dropping)
    case DropDelayed =>
      if s.stopper != Dropping then s else s.(clock := s.clock.(delayed := []), stopper := Waking)
    case Wake =>
      if s.stopper != Waking then s else s.(queue := PostTo(s.queue, s.cfg), stopper := AwaitingLoop)
    case SeeExit =>
      if s.stopper != AwaitingLoop || s.loop != Exited then s else s.(stopper := CheckingCalls)
    case SeeCalls =>
      if s.stopper != CheckingCalls || s.active != 0 then s else s.(stopper := CheckingTimer)
    case SeeTimer =>
      if s.stopper != CheckingTimer then s
      else s.(stopper := if s.clock.flag then CheckingCalls else CheckingSlots)
    case SeeSlots =>
      if s.stopper != CheckingSlots then s
      else s.(stopper := if NoneInUse(s.waiters.slots) then ReleasingObjects else CheckingCalls)
    case Release =>
      if s.stopper != ReleasingObjects then s
      else s.(released := true, clock := s.clock.(pending := false), stopper := Finishing)
    case FinishStop => if s.stopper != Finishing then s else s.(run := Stopped, stopper := AllDone)
    case TimeOut => if !Polling(s.stopper) then s else s.(stopper := GaveUp)
  }

  // ---------------------------------------------------------------- runs

  datatype Step = ByCall(c: CallId, call: CallStep) | ByLoop(loop: LoopStep) | ByStop(stop: StopStep)

  function Next(s: State, step: Step): State {
    match step
    case ByCall(c, call) => CallNext(s, c, call)
    case ByLoop(loop) => LoopNext(s, loop)
    case ByStop(stop) => StopNext(s, stop)
  }

  /** The state after any sequence of steps: every interleaving is one. */
  function Exec(s: State, steps: seq<Step>): State
    decreases |steps|
  {
    if steps == [] then s else Exec(Next(s, steps[0]), steps[1..])
  }
}
