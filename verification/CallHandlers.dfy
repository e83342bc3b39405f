/** What the report handlers of CallStatusManager, the flags of CallRequestEventHandlerHelper and the requests of
    CallControlManager and CallRequestProcess do to the state they share. The main loop runs one task at a time, so
    each is a function from state to state. */
module CallHandlers {
  import opened Options
  import opened CallTable

  /** One entry of a stack report, or a report the call manager makes to itself. */
  datatype Report = Report(slot: int, index: int, tel: Tel, kind: CallType, video: int, mpty: int)

  /** What is sent to the stack. Deferred marks the hang-up that waited for the call to get its index. */
  datatype Command =
    | HangUp(id: int, slot: int, index: int)
    | Deferred(id: int, slot: int, index: int)
    | StackDial(slot: int)
    | UnHold(id: int)

  /** mo, hang: the pending-MO and pending-hangup flags with the call they name. protect: the scheduled protect task
      and the call it was made for. dialEcc: isEcc of the last dial that was admitted. log: the stack commands. */
  datatype State = State(table: seq<Call>, lastId: int, mo: Option<int>, hang: Option<int>, protect: Option<int>,
                         dialing: bool, restore: bool, dialEcc: bool, log: seq<Command>)

  /** A state and the call object a handler is working on. */
  datatype Held = Held(s: State, c: Call)

  function Sent(s: State, cmd: Command): State {
    s.(log := s.log + [cmd])
  }

  /** CreateNewCall, without the id: it is not in the table yet. */
  function NewCall(r: Report, dir: Direction, id: int, ecc: bool): Call {
    Call(id, r.slot, r.index, r.kind, ecc, dir, r.tel, Create, r.video, true)
  }

  /** Only an outgoing call takes the emergency mark, and takes it from the last dial. */
  function NewEcc(s: State, dir: Direction): bool {
    dir == Outgoing && s.dialEcc
  }

  /** UpdateCallState: the object, and then the table entry with its id, go to the next state. */
  function UpdateState(s: State, c: Call, next: Tel): Held {
    var c' := Advance(c, next);
    Held(s.(table := Put(s.table, c')), c')
  }

  /** The object RefreshCall makes, once the old object's states are copied to it. */
  function Replacement(s: State, c: Call, r: Report): Call {
    Advance(NewCall(r, c.dir, c.id, NewEcc(s, c.dir)).(running := c.running), c.tel)
  }

  /** RefreshCall: an object of the reported type takes the place of the old one, under the old id. The old object
      leaves first; if the table then refuses the new one, the old one is offered again. */
  function Refresh(s: State, c: Call, r: Report): Held {
    var s1 := s.(lastId := s.lastId + 1);
    if r.kind == CallType.Other then Held(s1, c)
    else
      var rest := Delete(s.table, c.id);
      var c' := Replacement(s, c, r);
      if CanAdd(rest, c') then Held(s1.(table := rest + [c']), c')
      else Held(s1.(table := Add(rest, c)), c)
  }

  function WithVideo(c: Call, video: int): Call {
    if c.kind == Ims && c.video != video then c.(video := video) else c
  }

  /** RefreshCallIfNecessary. */
  function RefreshIfNecessary(s: State, c: Call, r: Report): Held {
    var c1 := WithVideo(c, r.video);
    var s1 := s.(table := Put(s.table, c1));
    if c1.kind == r.kind then Held(s1, c1) else Refresh(s1, c1, r)
  }

  /** ClearPendingState: the flags that name the call go; a hang-up that waited is sent now. */
  function ClearPending(s: State, c: Call): State {
    var s1 := if s.mo == Some(c.id) then s.(mo := None) else s;
    if s1.hang == Some(c.id) then
      var s2 := if c.running != Ended then Sent(s1, Deferred(c.id, c.slot, c.index)) else s1;
      s2.(hang := None, protect := None)
    else s1
  }

  /** The call a report binds, once it has the reported index and slot. */
  function Bound(c: Call, r: Report): Call {
    Advance(c.(index := r.index, slot := r.slot), r.tel).(video := r.video, kind := r.kind)
  }

  function BoundInto(h: Held, r: Report): State {
    ClearPending(h.s.(table := Put(h.s.table, Bound(h.c, r))), Bound(h.c, r))
  }

  /** UpdateDialingCallInfo: the dialed call learns its index and slot. */
  function BindDialing(s: State, r: Report): State {
    var k := ByKey(s.table, r.index, r.slot);
    if k >= 0 then RefreshIfNecessary(s, s.table[k], r).s
    else
      var z := ByIndex(s.table, 0);
      if z < 0 then s
      else
        BoundInto(RefreshIfNecessary(s, s.table[z], r), r)
  }

  datatype Outcome = Outcome(s: State, ok: bool)

  /** What follows the admission of a dialing call. */
  function BeginDialing(s: State, c: Call, index: int): State {
    var s1 := s.(mo := if index == 0 then Some(c.id) else s.mo, dialing := false, restore := false);
    var c1 := c.(running := Connecting);
    UpdateState(s1.(table := Put(s1.table, c1)), c1, Dialing).s
  }

  function OfferDialing(s: State, c: Call, index: int): Outcome {
    if CanAdd(s.table, c) then Outcome(BeginDialing(s.(table := s.table + [c]), c, index), true) else Outcome(s, false)
  }

  /** A call nobody in the table matches is created, and admitted or not. */
  function CreateDialing(s: State, r: Report): Outcome {
    var s1, c := s.(lastId := s.lastId + 1), NewCall(r, Outgoing, s.lastId + 1, NewEcc(s, Outgoing));
    if r.kind == CallType.Other then Outcome(s1, false) else OfferDialing(s1, c, r.index)
  }

  function DialingHandle(s: State, r: Report): Outcome {
    if r.index > 0 && (ByKey(s.table, 0, r.slot) >= 0 || ByKey(s.table, r.index, r.slot) >= 0)
    then Outcome(BindDialing(s, r), true)
    else CreateDialing(s, r)
  }

  /** RefreshDialingStateByOtherState, where the handler did not find its call. */
  function Locate(s: State, r: Report): State {
    if ByKey(s.table, r.index, r.slot) >= 0 || ByIndex(s.table, 0) < 0 then s
    else DialingHandle(s, r.(tel := Dialing)).s
  }

  function Found(s: State, r: Report): bool {
    ByKey(s.table, r.index, r.slot) >= 0
  }

  /** The part the handlers of the simple states share: the call in the table is refreshed and changes state. */
  function Moved(s: State, k: int, r: Report, next: Tel): State
    requires 0 <= k < |s.table|
  {
    var h := RefreshIfNecessary(s, s.table[k], r);
    UpdateState(h.s, h.c, next).s
  }

  function ActiveHandle(s: State, r: Report): State {
    var s1 := Locate(s, r);
    if !Found(s1, r) then s1
    else
      var k := ByKey(s1.table, r.index, r.slot);
      Moved(ClearPending(s1, s1.table[k]), k, r, Active)
  }

  function HoldingHandle(s: State, r: Report): State {
    if !Found(s, r) then s else Moved(s, ByKey(s.table, r.index, r.slot), r, Holding)
  }

  function AlertHandle(s: State, r: Report): State {
    var s1 := Locate(s, r);
    if !Found(s1, r) then s1
    else
      var k := ByKey(s1.table, r.index, r.slot);
      var s2 := ClearPending(s1, s1.table[k]);
      if s1.table[k].tel == Disconnecting then s2 else Moved(s2, k, r, Alerting)
  }

  function DisconnectingHandle(s: State, r: Report): State {
    if !Found(s, r) then s else Moved(s, ByKey(s.table, r.index, r.slot), r, Disconnecting)
  }

  /** IsCanUnHold: nothing else rings, is answered, alerts or is active. */
  function CanUnHold(t: seq<Call>): bool {
    CountTel(t, Active) == 0 && CountTel(t, Waiting) == 0 && CountTel(t, Ringing) == 0 && CountTel(t, Alerting) == 0
  }

  /** The held call that may be resumed by itself when c ends, -1 if none may. */
  function Resumed(t: seq<Call>, c: Call, previous: Running, prior: Tel): (k: int)
    ensures -1 <= k < |t|
  {
    var k := LastRunning(t, Hold);
    if previous != Hold && previous != Live && prior == Disconnecting
       && k >= 0 && CanUnHold(t) && t[k].resumable && t[k].slot == c.slot
    then k else -1
  }

  /** HandleHoldCallOrAutoAnswerCall, up to the deletion. */
  function Resume(s: State, c: Call, previous: Running, prior: Tel): State {
    var k := Resumed(s.table, c, previous, prior);
    if k >= 0 then Sent(s, UnHold(s.table[k].id)) else s
  }

  /** The end of DisconnectedHandle: the call in hand goes, and its flags with it. */
  function Concluded(h: Held): State {
    var h' := UpdateState(ClearPending(h.s, h.c), h.c, Disconnected);
    var s' := Resume(h'.s, h'.c, h.c.running, h.c.tel);
    s'.(table := Delete(s'.table, h.c.id))
  }

  function DisconnectedHandle(s: State, r: Report): State {
    var s1 := Locate(s, r);
    if !Found(s1, r) then s1
    else Concluded(RefreshIfNecessary(s1, s1.table[ByKey(s1.table, r.index, r.slot)], r))
  }

  /** DealFailDial: the call manager reports the call as disconnected to itself, by index and slot. */
  function FailReport(c: Call): Report {
    Report(c.slot, c.index, Disconnected, c.kind, c.video, 0)
  }

  function DealFailDial(s: State, c: Call): State {
    DisconnectedHandle(s, FailReport(c))
  }

  /** A dialed call that is still unnamed when another call comes in has failed. */
  function FailUnnamed(s: State): State {
    var z := ByIndex(s.table, 0);
    if z < 0 then s else DealFailDial(s, s.table[z])
  }

  /** RefreshOldCall for a call that exists: a report that only changes the telephony state changes nothing. */
  function RefreshOld(s: State, r: Report): State
    requires Found(s, r)
  {
    var c := s.table[ByKey(s.table, r.index, r.slot)];
    if c.kind == r.kind && c.tel == r.tel && c.video == r.video then s
    else
      if c.kind != r.kind || c.video != r.video then Moved(s, ByKey(s.table, r.index, r.slot), r, r.tel)
      else RefreshIfNecessary(s, c, r).s
  }

  /** FilterResultsDispose. */
  function Admit(s: State, c: Call): State {
    if CountRunning(s.table, Inbound) >= 30 || CountRunning(s.table, Live) >= 30
    then Sent(s, HangUp(c.id, c.slot, c.index))
    else s.(table := Put(s.table, c.(running := Inbound)))
  }

  /** FinalizeIncomingState. */
  function Arrive(s: State, c: Call, next: Tel): State {
    var h := UpdateState(s, c, next);
    Admit(h.s, h.c)
  }

  /** A call the table refuses is rejected; nobody else knows it yet. */
  function OfferIncoming(s: State, c: Call, next: Tel): State {
    if CanAdd(s.table, c) then Arrive(s.(table := s.table + [c]), c, next)
    else Sent(s, HangUp(c.id, c.slot, c.index))
  }

  function CreateIncoming(s: State, r: Report): State {
    var s1, c := s.(lastId := s.lastId + 1), NewCall(r, Incoming, s.lastId + 1, false);
    if r.kind == CallType.Other then s1 else OfferIncoming(s1, c, r.tel)
  }

  // The two ways to create a call, step by step.

  lemma IncomingIsOffered(s: State, r: Report)
    ensures r.kind == CallType.Other ==> CreateIncoming(s, r) == s.(lastId := s.lastId + 1)
    ensures r.kind != CallType.Other ==>
      CreateIncoming(s, r)
      == OfferIncoming(s.(lastId := s.lastId + 1), NewCall(r, Incoming, s.lastId + 1, false), r.tel)
  {
    hide OfferIncoming, NewCall;
  }

  lemma DialingIsOffered(s: State, r: Report)
    ensures r.kind == CallType.Other ==> CreateDialing(s, r) == Outcome(s.(lastId := s.lastId + 1), false)
    ensures r.kind != CallType.Other ==>
      CreateDialing(s, r)
      == OfferDialing(s.(lastId := s.lastId + 1), NewCall(r, Outgoing, s.lastId + 1, NewEcc(s, Outgoing)), r.index)
  {
    hide OfferDialing, NewCall;
  }

  function IncomingHandle(s: State, r: Report): State {
    var s1 := FailUnnamed(s);
    if Found(s1, r) then RefreshOld(s1, r) else CreateIncoming(s1, r)
  }

  /** HandleCallReportInfo. */
  function Handle(s: State, r: Report): State {
    match r.tel
    case Active => ActiveHandle(s, r)
    case Holding => HoldingHandle(s, r)
    case Dialing => DialingHandle(s, r).s
    case Alerting => AlertHandle(s, r)
    case Ringing | Waiting => IncomingHandle(s, r)
    case Disconnecting => DisconnectingHandle(s, r)
    case Disconnected => DisconnectedHandle(s, r)
    case Other => s
  }

  // ---------------------------------------------------------------- requests and tasks

  /** GetCarrierCallList lists CS and IMS calls. */
  predicate Carrier(c: Call) {
    c.kind != CallType.Other
  }

  function CountCarrier(t: seq<Call>): (n: nat)
    ensures n <= |t|
  {
    if t == [] then 0 else (if Carrier(t[0]) then 1 else 0) + CountCarrier(t[1..])
  }

  /** The call a hang-up without a call id (0) means. */
  function Foreground(t: seq<Call>): int {
    if LastRunning(t, Live) >= 0 then t[LastRunning(t, Live)].id
    else if LastRunning(t, Outbound) >= 0 then t[LastRunning(t, Outbound)].id
    else if LastRunning(t, Connecting) >= 0 then t[LastRunning(t, Connecting)].id
    else if LastRunning(t, Hold) >= 0 then t[LastRunning(t, Hold)].id
    else 0
  }

  /** HangUpCall: deferred while the call is pending-MO, otherwise left to a posted task. */
  function HangUpById(s: State, id: int, posted: bool): State {
    var k := ById(s.table, id);
    if k < 0 || s.table[k].tel == Disconnecting || s.table[k].tel == Disconnected || s.mo != Some(id) then s
    else
      s.(mo := None, hang := Some(id),
         protect := if s.protect.Some? then s.protect else if posted then Some(id) else None)
  }

  function HangUpCall(s: State, callId: int, posted: bool): State {
    HangUpById(s, if callId == 0 then Foreground(s.table) else callId, posted)
  }

  /** The call a request is posted for, if any: one that exists, is not on its way out, and is not deferred. */
  function RequestedById(s: State, id: int): Option<int> {
    var k := ById(s.table, id);
    if k < 0 || s.table[k].tel == Disconnecting || s.table[k].tel == Disconnected || s.mo == Some(id) then None
    else Some(id)
  }

  function Requested(s: State, callId: int): Option<int> {
    RequestedById(s, if callId == 0 then Foreground(s.table) else callId)
  }

  /** HangUpRequest and RejectRequest, the posted tasks: a stack command about a call that still exists. */
  function HangUpTask(s: State, id: int): State {
    var k := ById(s.table, id);
    if k < 0 then s else Sent(s, HangUp(id, s.table[k].slot, s.table[k].index))
  }

  /** A reject also keeps the held call from being resumed by itself. */
  function RejectTask(s: State, id: int, sent: bool): State {
    var k := ById(s.table, id);
    if k < 0 then s
    else
      var s1 := HangUpTask(s, id);
      var h := LastRunning(s1.table, Hold);
      if !sent || h < 0 then s1 else s1.(table := Put(s1.table, s1.table[h].(resumable := false)))
  }

  function UnHoldTask(s: State, id: int): State {
    var k := ById(s.table, id);
    if k < 0 then s
    else
      var s1 := s.(table := Put(s.table, s.table[k].(resumable := true)));
      if CountCarrier(s.table) > 1
         && (exists i | 0 <= i < |s.table| :: Carrier(s.table[i]) && s.table[i].slot != s.table[k].slot) then s1
      else Sent(s1, UnHold(id))
  }

  /** The call never got its index: its dial has failed, and the flag goes whatever call that was. */
  function FailDeferred(s: State, id: int): State {
    var k := ById(s.table, id);
    var s1 := if k < 0 then s else DealFailDial(s, s.table[k]);
    s1.(hang := None)
  }

  /** The protect task. */
  function ProtectFires(s: State): State {
    if s.protect.None? then s
    else if s.hang != s.protect then s.(protect := None)
    else FailDeferred(s.(protect := None), s.protect.value)
  }

  function RestoreFires(s: State): State {
    if s.restore then s.(restore := false, dialing := false) else s
  }

  /** HandleEventResultReportInfo: a failed request fails the last dialing call. */
  function RequestFailed(s: State): State {
    var k := LastRunning(s.table, Outbound);
    if k < 0 then s else DealFailDial(s, s.table[k])
  }

  // ---------------------------------------------------------------- dialing

  /** HasNewCall says no. */
  predicate NewCallBusy(t: seq<Call>) {
    exists i | 0 <= i < |t| :: t[i].running in {Create, Connecting, Outbound}
  }

  /** IsNewCallAllowedCreate. */
  predicate NewCallAllowed(t: seq<Call>) {
    && (forall i | 0 <= i < |t| :: t[i].running !in {Create, Connecting, Outbound, Inbound})
    && CountCarrier(t) < 2
  }

  function EccRefused(t: seq<Call>): bool {
    exists i | 0 <= i < |t| :: Carrier(t[i]) && t[i].running in {Create, Connecting, Outbound} && t[i].ecc
  }

  function HangUpAll(t: seq<Call>, rejecting: bool): seq<Command> {
    if t == [] then []
    else
      var c := t[0];
      var now := if rejecting then c.running == Inbound
                 else c.running in {Create, Connecting, Outbound, Live, Hold};
      (if now && Carrier(c) then [HangUp(c.id, c.slot, c.index)] else []) + HangUpAll(t[1..], rejecting)
  }

  /** EccDialPolicy once it does not refuse: every other call is hung up, ringing ones are rejected last. */
  function ClearTheLine(s: State): State {
    s.(log := s.log + HangUpAll(s.table, false) + HangUpAll(s.table, true))
  }

  /** GetDialingCall. */
  function DialingCall(t: seq<Call>): (k: int)
    ensures -1 <= k < |t|
  {
    if LastRunning(t, Create) >= 0 then LastRunning(t, Create)
    else if LastRunning(t, Connecting) >= 0 then LastRunning(t, Connecting)
    else LastRunning(t, Outbound)
  }

  function HandleDialFail(s: State): Outcome {
    var k := DialingCall(s.table);
    if k < 0 then Outcome(s, false) else Outcome(DealFailDial(s, s.table[k]), true)
  }

  function LocalReport(slot: int, kind: CallType, video: int): Report {
    Report(slot, 0, Dialing, kind, video, 0)
  }

  function FlagCleared(s: State): State {
    s.(dialing := false, restore := false)
  }

  /** CarrierDialProcess once the dial is admitted: the local report, then the stack's Dial. */
  function StartReported(s: State, r: Report, accepted: bool): Outcome {
    var o := DialingHandle(s, r);
    if !o.ok then Outcome(FlagCleared(o.s), false)
    else
      var s' := Sent(o.s, StackDial(r.slot));
      if accepted then Outcome(s', true) else Outcome(HandleDialFail(s').s, false)
  }

  /** CarrierDialProcess. ecc: the number is an emergency number. posted: the restore task could be posted.
      accepted: what the stack's Dial returns. */
  function CarrierDial(s: State, r: Report, ecc: bool, posted: bool, accepted: bool): Outcome {
    if s.dialing then Outcome(s, false)
    else
      var s1 := s.(dialing := true, restore := posted);
      if (if ecc then EccRefused(s1.table) else !NewCallAllowed(s1.table)) then Outcome(FlagCleared(s1), false)
      else StartReported(if ecc then ClearTheLine(s1) else s1, r, accepted)
  }

  predicate HasEcc(t: seq<Call>) {
    exists i | 0 <= i < |t| :: t[i].ecc
  }

  /** DialCall. allowed: number, dial type, call type, SIM and network service are all in order. */
  function DialCall(s: State, r: Report, allowed: bool, ecc: bool, posted: bool, accepted: bool): Outcome {
    if !allowed then Outcome(s, false)
    else if !ecc && HasEcc(s.table) then Outcome(s, false)
    else if !ecc && NewCallBusy(s.table) then Outcome(s, false)
    else CarrierDial(s.(dialEcc := ecc), r, ecc, posted, accepted)
  }
}
