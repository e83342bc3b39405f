/** What requests and dials do, said on the calls themselves: which call a request reaches and what the stack is told,
    when a dial is let through and what it leaves. */
module CallOrders {
  import opened Options
  import opened CallTable
  import opened CallHandlers
  import opened CallSafety
  import opened CallOutcomes
  import opened CallPresence
  import opened CallReference
  import opened CallCommands
  import opened CallRequests

  // ---------------------------------------------------------------- hanging up

  /** The last call in one of two telephony states. */
  function LastIn(t: seq<Call>, a: Tel, b: Tel): (k: int)
    ensures -1 <= k < |t|
    ensures k >= 0 ==> t[k].tel == a || t[k].tel == b
    ensures forall j | k < j < |t| :: t[j].tel != a && t[j].tel != b
  {
    if t == [] then -1
    else if t[|t| - 1].tel == a || t[|t| - 1].tel == b then |t| - 1
    else LastIn(t[..|t| - 1], a, b)
  }

  /** The call a hang-up without a call id means: the last active one, else the last dialed one, else the last held
      one. */
  function Meant(t: seq<Call>): int {
    if LastIn(t, Active, Active) >= 0 then t[LastIn(t, Active, Active)].id
    else if LastIn(t, Dialing, Alerting) >= 0 then t[LastIn(t, Dialing, Alerting)].id
    else if LastIn(t, Holding, Holding) >= 0 then t[LastIn(t, Holding, Holding)].id
    else 0
  }

  lemma {:induction false} RunningIsTel(t: seq<Call>, running: Running, a: Tel, b: Tel)
    requires AllAgree(t)
    requires forall c: Call | Agrees(c) :: c.running == running <==> c.tel == a || c.tel == b
    ensures LastRunning(t, running) == LastIn(t, a, b)
  {
    if t != [] {
      assert Agrees(t[|t| - 1]);
      RunningIsTel(t[..|t| - 1], running, a, b);
    }
  }

  lemma NoneConnecting(t: seq<Call>)
    requires AllAgree(t)
    ensures LastRunning(t, Connecting) < 0 && LastRunning(t, Create) < 0
  {
    forall i | 0 <= i < |t| ensures t[i].running != Connecting && t[i].running != Create {
      assert Agrees(t[i]);
    }
  }

  lemma ForegroundIsMeant(t: seq<Call>)
    requires AllAgree(t)
    ensures Foreground(t) == Meant(t)
  {
    RunningIsTel(t, Live, Active, Active);
    RunningIsTel(t, Outbound, Dialing, Alerting);
    RunningIsTel(t, Hold, Holding, Holding);
    NoneConnecting(t);
  }

  lemma AllAgreed(s: State)
    requires TableSafe(s)
    ensures AllAgree(s.table)
  {
    assert forall i | 0 <= i < |s.table| :: CallOk(s.table[i], s.lastId, s.dialEcc);
  }

  /** A hang-up that is not deferred changes nothing by itself: a request is posted for the call that is meant, if that
      call exists and is not being hung up already. Only a pending-MO call is deferred. */
  lemma HangUpIsRequested(s: State, callId: int, posted: bool)
    requires Inv(s)
    ensures var id := if callId == 0 then Meant(s.table) else callId;
      && (Requested(s, callId) == Some(id)
          <==> s.mo != Some(id)
               && exists i | 0 <= i < |s.table| :: s.table[i].id == id && s.table[i].tel != Disconnecting)
      && (Requested(s, callId) != Some(id) ==> Requested(s, callId) == None)
      && (s.mo != Some(id) ==> HangUpCall(s, callId, posted) == s)
  {
    AllAgreed(s);
    ForegroundIsMeant(s.table);
    var id := if callId == 0 then Meant(s.table) else callId;
    forall i | 0 <= i < |s.table| && s.table[i].id == id ensures ById(s.table, id) == i {
      FoundById(s.table, i);
    }
    assert forall i | 0 <= i < |s.table| :: CallOk(s.table[i], s.lastId, s.dialEcc);
  }

  /** The request reaches its call: one hang-up with the call's own id, slot and index, and nothing else. A call that is
      gone by then gets none. */
  lemma HangUpReaches(s: State, id: int)
    requires UniqueIds(s.table)
    ensures forall i | 0 <= i < |s.table| && s.table[i].id == id ::
      HangUpTask(s, id) == s.(log := s.log + [HangUp(id, s.table[i].slot, s.table[i].index)])
    ensures (forall i | 0 <= i < |s.table| :: s.table[i].id != id) ==> HangUpTask(s, id) == s
  {
    forall i | 0 <= i < |s.table| && s.table[i].id == id ensures ById(s.table, id) == i {
      FoundById(s.table, i);
    }
  }

  /** Rejecting does the same, and keeps the last held call from being resumed by itself. */
  lemma RejectReaches(s: State, i: int, sent: bool)
    requires Inv(s) && 0 <= i < |s.table|
    ensures var t, h := s.table, LastHeld(s.table);
      RejectTask(s, t[i].id, sent)
      == s.(log := s.log + [HangUp(t[i].id, t[i].slot, t[i].index)],
            table := if sent && h >= 0 then t[h := t[h].(resumable := false)] else t)
  {
    AllAgreed(s);
    LastHeldAgrees(s.table);
    FoundById(s.table, i);
    var h := LastHeld(s.table);
    RunningIsTel(s.table, Hold, Holding, Holding);
    LastHeldIsIn(s.table);
    if h >= 0 {
      PutIsUpdate(s.table, h, s.table[h].(resumable := false));
    }
  }

  lemma LastHeldIsIn(t: seq<Call>)
    ensures LastHeld(t) == LastIn(t, Holding, Holding)
  {
  }

  lemma RejectGone(s: State, id: int, sent: bool)
    requires forall i | 0 <= i < |s.table| :: s.table[i].id != id
    ensures RejectTask(s, id, sent) == s && UnHoldTask(s, id) == s
  {
  }

  /** A CS or IMS call. */
  predicate OfCarrier(c: Call) {
    c.kind == Cs || c.kind == Ims
  }

  predicate TwoCarriers(t: seq<Call>) {
    exists i, j | 0 <= i < j < |t| :: OfCarrier(t[i]) && OfCarrier(t[j])
  }

  lemma {:induction false} CarriersCounted(t: seq<Call>)
    ensures CountCarrier(t) >= 2 <==> TwoCarriers(t)
    ensures CountCarrier(t) >= 1 <==> exists i | 0 <= i < |t| :: OfCarrier(t[i])
  {
    if t != [] {
      var u := t[1..];
      CarriersCounted(u);
      assert forall i | 0 <= i < |u| :: u[i] == t[i + 1];
      if TwoCarriers(u) {
        var i, j :| 0 <= i < j < |u| && OfCarrier(u[i]) && OfCarrier(u[j]);
        assert OfCarrier(t[i + 1]) && OfCarrier(t[j + 1]);
      }
      if CountCarrier(u) >= 1 {
        var i :| 0 <= i < |u| && OfCarrier(u[i]);
        assert OfCarrier(t[i + 1]);
        assert OfCarrier(t[0]) ==> TwoCarriers(t);
      }
      if TwoCarriers(t) {
        var i, j :| 0 <= i < j < |t| && OfCarrier(t[i]) && OfCarrier(t[j]);
        assert OfCarrier(u[j - 1]);
        assert i > 0 ==> OfCarrier(u[i - 1]);
      }
      if exists i | 0 <= i < |t| :: OfCarrier(t[i]) {
        var i :| 0 <= i < |t| && OfCarrier(t[i]);
        assert i > 0 ==> OfCarrier(u[i - 1]);
      }
    }
  }

  /** Resuming marks the call as one that may be resumed, and tells the stack, unless two carrier calls exist and one of
      them is of another slot. */
  lemma UnHoldReaches(s: State, i: int)
    requires Inv(s) && 0 <= i < |s.table|
    ensures var t := s.table;
      UnHoldTask(s, t[i].id)
      == s.(table := t[i := t[i].(resumable := true)],
            log := if TwoCarriers(t) && exists j | 0 <= j < |t| :: OfCarrier(t[j]) && t[j].slot != t[i].slot then s.log
                   else s.log + [UnHold(t[i].id)])
  {
    FoundById(s.table, i);
    PutIsUpdate(s.table, i, s.table[i].(resumable := true));
    CarriersCounted(s.table);
    assert forall j | 0 <= j < |s.table| :: OfCarrier(s.table[j]) <==> Carrier(s.table[j]);
  }

  /** A failed request takes out the first call under the key of the last dialed one, with its flags, and sends the
      hang-up that waits for it. */
  lemma FailedRequestTakes(s: State)
    requires Inv(s)
    ensures var t, k, s' := s.table, LastIn(s.table, Dialing, Alerting), RequestFailed(s);
      if k < 0 then s' == s
      else
        var first := ByKey(t, t[k].index, t[k].slot);
        && 0 <= first <= k && s'.table == Without(t, first)
        && Rest(s, s', Some(t[first].id), Owed(s, t[first].id, t[k].slot, t[k].index))
  {
    AllAgreed(s);
    RunningIsTel(s.table, Outbound, Dialing, Alerting);
    var k := LastIn(s.table, Dialing, Alerting);
    if k >= 0 {
      DialingFails(s, k);
    }
  }

  lemma DialingFails(s: State, k: int)
    requires Core(s) && 0 <= k < |s.table| && s.table[k].tel in {Dialing, Alerting}
    ensures var t, first := s.table, ByKey(s.table, s.table[k].index, s.table[k].slot);
      var s' := DealFailDial(s, t[k]);
      && 0 <= first <= k && s'.table == Without(t, first)
      && Rest(s, s', Some(t[first].id), Owed(s, t[first].id, t[k].slot, t[k].index))
  {
    hide DisconnectedHandle;
    var t, c := s.table, s.table[k];
    assert HasKey(c, c.index, c.slot) && Settled(c);
    var first := ByKey(t, c.index, c.slot);
    FirstDials(s, first, k);
    DealFailDialOk(s, k);
    EndRest(s, FailReport(c));
    DeleteIsWithout(t, first);
    assert Owed(s, t[first].id, c.slot, c.index) + [] == Owed(s, t[first].id, c.slot, c.index);
  }

  /** The first call under the key is this one, or a call that has no index and is dialing too. */
  lemma FirstDials(s: State, first: int, k: int)
    requires Core(s) && 0 <= k < |s.table| && s.table[k].tel in {Dialing, Alerting}
    requires first == ByKey(s.table, s.table[k].index, s.table[k].slot) >= 0
    ensures first <= k && s.table[first].tel in {Dialing, Alerting}
  {
    assert HasKey(s.table[k], s.table[k].index, s.table[k].slot) && Settled(s.table[first]) && Settled(s.table[k]);
    if s.table[k].index > 0 {
      FoundByKey(s.table, k);
    }
  }

  // ---------------------------------------------------------------- dialing

  predicate Busy(c: Call) {
    c.running == Create || c.running == Connecting || c.running == Outbound || c.running == Inbound
  }

  predicate LineFree(t: seq<Call>) {
    (forall i | 0 <= i < |t| :: !Busy(t[i]) && !t[i].ecc) && !TwoCarriers(t)
  }

  lemma AdmittedIsFree(t: seq<Call>)
    ensures NewCallAllowed(t) && !HasEcc(t) <==> LineFree(t)
  {
    CarriersCounted(t);
  }

  /** A normal dial succeeds exactly if the checks pass, the stack accepts it, no call is an emergency call, is being
      set up, dialed or alerted or is coming in, there are no two calls of a carrier, the type is supported, and the
      table has a place besides the reserved one. */
  lemma NormalDialSucceeds(s: State, r: Report, allowed: bool, posted: bool, accepted: bool)
    requires Inv(s) && Local(r)
    ensures DialCall(s, r, allowed, false, posted, accepted).ok
      <==> allowed && accepted && LineFree(s.table) && PlaceFor(s.table, r, 4)
  {
    NormalDialAdmitted(s, r, allowed, posted, accepted);
    AdmittedIsFree(s.table);
  }

  /** Then the new call is appended, dialing and pending-MO, and the stack is told to dial; nothing else happens. */
  lemma NormalDialDoes(s: State, r: Report, allowed: bool, posted: bool, accepted: bool)
    requires Inv(s) && Local(r) && DialCall(s, r, allowed, false, posted, accepted).ok
    ensures var s1 := s.(dialEcc := false);
      DialCall(s, r, allowed, false, posted, accepted).s
      == s1.(table := s.table + [Made(s1, r, Outgoing)], lastId := s.lastId + 1, mo := Some(s.lastId + 1),
             log := s.log + [StackDial(r.slot)])
  {
    var s2 := s.(dialEcc := false, dialing := true, restore := posted);
    NormalDialAdmitted(s, r, allowed, posted, accepted);
    DialingStarts(s2, r);
    assert DialCall(s, r, allowed, false, posted, accepted) == StartReported(s2, r, accepted);
    assert StartReported(s2, r, true).s == Sent(CreateDialing(s2, r).s, StackDial(r.slot));
  }

  lemma DialingStarts(s: State, r: Report)
    requires UniqueIds(s.table) && Local(r) && CreateDialing(s, r).ok
    ensures CreateDialing(s, r).s
      == s.(table := s.table + [Made(s, r, Outgoing)], lastId := s.lastId + 1, mo := Some(s.lastId + 1),
            dialing := false, restore := false)
  {
    CreateDialingEffect(s, r);
    CreatedIsMade(s, r);
  }

  predicate ThreeCarriers(t: seq<Call>) {
    exists i, j, k | 0 <= i < j < k < |t| :: OfCarrier(t[i]) && OfCarrier(t[j]) && OfCarrier(t[k])
  }

  lemma OneMoreCarrier(t: seq<Call>, c: Call)
    requires !TwoCarriers(t)
    ensures !ThreeCarriers(t + [c])
  {
    var u := t + [c];
    forall i, j, k | 0 <= i < j < k < |u| ensures !(OfCarrier(u[i]) && OfCarrier(u[j]) && OfCarrier(u[k])) {
      assert u[i] == t[i] && u[j] == t[j];
    }
  }

  /** After a normal dial that succeeds there are never three calls of a carrier. */
  lemma NormalDialLeavesTwo(s: State, r: Report, allowed: bool, posted: bool, accepted: bool)
    requires Inv(s) && Local(r) && DialCall(s, r, allowed, false, posted, accepted).ok
    ensures !ThreeCarriers(DialCall(s, r, allowed, false, posted, accepted).s.table)
  {
    NormalDialSucceeds(s, r, allowed, posted, accepted);
    NormalDialDoes(s, r, allowed, posted, accepted);
    OneMoreCarrier(s.table, Made(s.(dialEcc := false), r, Outgoing));
  }

  /** An emergency call is being dialed or alerted. */
  predicate EmergencyDialed(t: seq<Call>) {
    exists i | 0 <= i < |t| :: OfCarrier(t[i]) && t[i].ecc && (t[i].tel == Dialing || t[i].tel == Alerting)
  }

  lemma RefusedIsDialed(t: seq<Call>)
    requires AllAgree(t)
    ensures EccRefused(t) <==> EmergencyDialed(t)
  {
    assert forall i | 0 <= i < |t| ::
      Agrees(t[i]) && (t[i].running in {Create, Connecting, Outbound} <==> t[i].tel == Dialing || t[i].tel == Alerting);
  }

  /** The calls an emergency dial ends: first those that are dialed, alerted, active or held, then those that come in,
      each in table order. */
  function Cleared(t: seq<Call>, incoming: bool): seq<Command> {
    if t == [] then []
    else
      var c := t[|t| - 1];
      Cleared(t[..|t| - 1], incoming)
      + if OfCarrier(c) && (if incoming then c.tel == Ringing || c.tel == Waiting
                            else c.tel == Dialing || c.tel == Alerting || c.tel == Active || c.tel == Holding)
        then [HangUp(c.id, c.slot, c.index)] else []
  }

  lemma {:induction false} ClearedNext(t: seq<Call>, c: Call, incoming: bool)
    requires Agrees(c)
    ensures HangUpAll(t + [c], incoming) == HangUpAll(t, incoming) + Cleared([c], incoming)
  {
    if t == [] {
      assert [] + [c] == [c] && [c][1..] == [] && [c][..0] == [];
    } else {
      assert (t + [c])[1..] == t[1..] + [c];
      ClearedNext(t[1..], c, incoming);
    }
  }

  lemma {:induction false} AllCleared(t: seq<Call>, incoming: bool)
    requires AllAgree(t)
    ensures HangUpAll(t, incoming) == Cleared(t, incoming)
  {
    if t != [] {
      var n := |t| - 1;
      assert t == t[..n] + [t[n]] && [t[n]][..0] == [];
      assert Agrees(t[n]);
      ClearedNext(t[..n], t[n], incoming);
      AllCleared(t[..n], incoming);
    }
  }

  /** An emergency dial succeeds exactly if the checks pass, the stack accepts it, no emergency call is being dialed,
      the type is supported and the table is not full. */
  lemma EccDialSucceeds(s: State, r: Report, allowed: bool, posted: bool, accepted: bool)
    requires Inv(s) && Local(r)
    ensures DialCall(s, r, allowed, true, posted, accepted).ok
      <==> allowed && accepted && !EmergencyDialed(s.table) && PlaceFor(s.table, r, 5)
  {
    var s1 := EccAdmitted(s, posted);
    AllAgreed(s);
    RefusedIsDialed(s.table);
    assert Core(s1);
    CreatingIs(s1, r);
    EccDialIs(s, r, allowed, posted, accepted);
    StartIsOk(s1, r, accepted);
  }

  lemma StartIsOk(s: State, r: Report, accepted: bool)
    requires Local(r)
    ensures StartReported(s, r, accepted).ok <==> CreateDialing(s, r).ok && accepted
  {
    hide CreateDialing, HandleDialFail;
  }

  lemma EccDialIs(s: State, r: Report, allowed: bool, posted: bool, accepted: bool)
    requires !s.dialing
    ensures var o := DialCall(s, r, allowed, true, posted, accepted);
      o == if !allowed then Outcome(s, false)
           else if EccRefused(s.table) then Outcome(FlagCleared(s.(dialEcc := true)), false)
           else StartReported(EccAdmitted(s, posted), r, accepted)
  {
    hide StartReported, EccRefused;
  }

  /** Then the stack is told to end every other call and to dial, and the new call is appended with the emergency
      mark. */
  lemma EccDialDoes(s: State, r: Report, allowed: bool, posted: bool, accepted: bool)
    requires Inv(s) && Local(r) && DialCall(s, r, allowed, true, posted, accepted).ok
    ensures var s1 := s.(dialEcc := true);
      DialCall(s, r, allowed, true, posted, accepted).s
      == s1.(table := s.table + [Made(s1, r, Outgoing)], lastId := s.lastId + 1, mo := Some(s.lastId + 1),
             log := s.log + Cleared(s.table, false) + Cleared(s.table, true) + [StackDial(r.slot)])
  {
    hide CreateDialing, Made, Cleared, HangUpAll, EccRefused;
    var s1 := EccAdmitted(s, posted);
    AllAgreed(s);
    AllCleared(s.table, false);
    AllCleared(s.table, true);
    EccDialIs(s, r, allowed, posted, accepted);
    StartIsOk(s1, r, accepted);
    DialingStarts(s1, r);
    StartedIs(s1, r);
    MadeAfter(s, s1, r);
  }

  lemma MadeAfter(s: State, s1: State, r: Report)
    requires s1.lastId == s.lastId && s1.dialEcc
    ensures Made(s1, r, Outgoing) == Made(s.(dialEcc := true), r, Outgoing)
  {
  }

  lemma StartedIs(s: State, r: Report)
    requires Local(r) && CreateDialing(s, r).ok
    ensures StartReported(s, r, true).s == Sent(CreateDialing(s, r).s, StackDial(r.slot))
  {
    hide CreateDialing;
  }

  // ---------------------------------------------------------------- dials that come to nothing

  /** A normal dial that the checks turn away changes nothing; one that only the count of calls or a call that comes in
      turns away has become the latest dial; and one without a place has also used up an id. */
  lemma NormalDialTurnedAway(s: State, r: Report, allowed: bool, posted: bool, accepted: bool)
    requires Inv(s) && Local(r) && !(allowed && LineFree(s.table) && PlaceFor(s.table, r, 4))
    ensures DialCall(s, r, allowed, false, posted, accepted)
      == Outcome(
           if !allowed || exists i | 0 <= i < |s.table| ::
                s.table[i].ecc || s.table[i].running in {Create, Connecting, Outbound} then s
           else if !LineFree(s.table) then s.(dialEcc := false)
           else s.(dialEcc := false, lastId := s.lastId + 1), false)
  {
    var s1 := s.(dialEcc := false, dialing := true, restore := posted);
    hide CreateDialing, HandleDialFail, CountCarrier, Busy;
    AdmittedIsFree(s.table);
    if allowed && LineFree(s.table) {
      FreeIsNotBusy(s.table);
      CreateFails(s1, r);
    }
  }

  lemma FreeIsNotBusy(t: seq<Call>)
    requires LineFree(t)
    ensures !HasEcc(t) && !NewCallBusy(t) && NewCallAllowed(t)
  {
    AdmittedIsFree(t);
  }

  lemma CreateFails(s: State, r: Report)
    requires Core(s) && Local(r) && !PlaceFor(s.table, r, OutgoingPlaces(s))
    ensures CreateDialing(s, r) == Outcome(s.(lastId := s.lastId + 1), false)
  {
    DialingIsOffered(s, r);
  }

  /** An emergency dial that comes to nothing by itself: the line is cleared before the table is asked for a place. */
  lemma EccDialTurnedAway(s: State, r: Report, allowed: bool, posted: bool, accepted: bool)
    requires Inv(s) && Local(r) && !(allowed && !EmergencyDialed(s.table) && PlaceFor(s.table, r, 5))
    ensures DialCall(s, r, allowed, true, posted, accepted)
      == Outcome(
           if !allowed then s
           else if EmergencyDialed(s.table) then s.(dialEcc := true)
           else s.(dialEcc := true, lastId := s.lastId + 1,
                   log := s.log + Cleared(s.table, false) + Cleared(s.table, true)), false)
  {
    hide CreateDialing, HandleDialFail, Cleared, HangUpAll, EccRefused, EmergencyDialed, StartReported;
    var s1 := EccAdmitted(s, posted);
    AllAgreed(s);
    AllCleared(s.table, false);
    AllCleared(s.table, true);
    RefusedIsDialed(s.table);
    EccDialIs(s, r, allowed, posted, accepted);
    if allowed && !EmergencyDialed(s.table) {
      CreateFails(s1, r);
      NotStarted(s1, r, accepted);
    }
  }

  lemma NotStarted(s: State, r: Report, accepted: bool)
    requires Local(r) && !CreateDialing(s, r).ok
    ensures StartReported(s, r, accepted) == Outcome(FlagCleared(CreateDialing(s, r).s), false)
  {
    hide CreateDialing;
  }

  /** The state in which the stack answers: the call is there, dialing. */
  function Dialed(s: State, r: Report, ecc: bool): State {
    var s1 := s.(dialEcc := ecc);
    s1.(table := s.table + [Made(s1, r, Outgoing)], lastId := s.lastId + 1, mo := Some(s.lastId + 1),
        log := s.log + (if ecc then Cleared(s.table, false) + Cleared(s.table, true) else []) + [StackDial(r.slot)])
  }

  /** A dial that only the stack refuses takes out the first call without an index on its slot, with that call's flags,
      and sends the hang-up that waits for it, with index 0. */
  lemma StackRefuses(s: State, r: Report, ecc: bool, posted: bool)
    requires Inv(s) && Local(r) && DialCall(s, r, true, ecc, posted, true).ok
    ensures var d, o := Dialed(s, r, ecc), DialCall(s, r, true, ecc, posted, false);
      var first := ByKey(d.table, 0, r.slot);
      && !o.ok && first >= 0 && o.s.table == Without(d.table, first)
      && Rest(d, o.s, Some(d.table[first].id), Owed(d, d.table[first].id, r.slot, 0))
  {
    hide DialCall, Rest, Owed, Made, Cleared, HandleDialFail;
    var d := Dialed(s, r, ecc);
    DialedState(s, r, ecc, posted);
    RefusalFollows(s, r, ecc, posted);
    RefusedFails(d, s.table, d.table[|s.table|]);
    DialIsRefused(s, r, ecc, posted);
  }

  lemma DialIsRefused(s: State, r: Report, ecc: bool, posted: bool)
    requires Local(r)
    ensures !DialCall(s, r, true, ecc, posted, false).ok
  {
    hide CreateDialing, HandleDialFail;
  }

  lemma DialedState(s: State, r: Report, ecc: bool, posted: bool)
    requires Inv(s) && Local(r) && DialCall(s, r, true, ecc, posted, true).ok
    ensures var d := Dialed(s, r, ecc);
      && DialCall(s, r, true, ecc, posted, true).s == d && Core(d)
      && d.table[|s.table|].running == Outbound && d.table[|s.table|].tel == Dialing
      && HasKey(d.table[|s.table|], 0, r.slot)
  {
    hide DialCall;
    DialCallOk(s, r, true, ecc, posted, true);
    if ecc {
      EccDialDoes(s, r, true, posted, true);
      assert s.log + Cleared(s.table, false) + Cleared(s.table, true)
          == s.log + (Cleared(s.table, false) + Cleared(s.table, true));
    } else {
      NormalDialDoes(s, r, true, posted, true);
      assert s.log + [] == s.log;
    }
  }

  /** What the stack refuses would otherwise have been dialed. */
  lemma RefusalFollows(s: State, r: Report, ecc: bool, posted: bool)
    requires Local(r) && DialCall(s, r, true, ecc, posted, true).ok
    ensures DialCall(s, r, true, ecc, posted, false).s == HandleDialFail(DialCall(s, r, true, ecc, posted, true).s).s
  {
    hide CreateDialing, HandleDialFail;
  }

  lemma RefusedFails(d: State, t: seq<Call>, c: Call)
    requires Core(d) && d.table == t + [c] && c.running == Outbound && c.tel == Dialing && c.index == 0
    ensures var first := ByKey(d.table, 0, c.slot);
      && first >= 0 && HandleDialFail(d).s.table == Without(d.table, first)
      && Rest(d, HandleDialFail(d).s, Some(d.table[first].id), Owed(d, d.table[first].id, c.slot, 0))
  {
    hide DealFailDial, Rest, Owed;
    DialedIsLast(d, t, c);
    assert d.table[|t|] == c;
    DialingFails(d, |t|);
  }
}
