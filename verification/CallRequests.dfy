/** Requests, posted tasks and dialing: the invariant, deferred hang-ups, and the dial as a transaction. */
module CallRequests {
  import opened Options
  import opened CallTable
  import opened CallHandlers
  import opened CallSafety
  import opened CallOutcomes

  // ---------------------------------------------------------------- hanging up

  lemma HangUpCallOk(s: State, callId: int, posted: bool)
    requires Inv(s)
    ensures Inv(HangUpCall(s, callId, posted))
  {
  }

  /** A hang-up is deferred exactly when the call waits for its index; the flag then moves to it and nothing is sent. A
      hang-up that waited for another call is dropped, although that call still has no index. The protect task is made
      for this call exactly when none is scheduled already. */
  lemma HangUpIsDeferred(s: State, id: int, posted: bool)
    requires Inv(s) && s.mo == Some(id) && id != 0
    ensures var s' := HangUpCall(s, id, posted);
      && s'.mo == None && s'.hang == Some(id) && s'.log == s.log && s'.table == s.table
      && (s.hang.Some? ==> s.hang.value != id && Unnamed(s'.table, s.hang.value))
      && (s'.protect == Some(id) <==> s.protect == Some(id) || (s.protect.None? && posted))
  {
    var i :| 0 <= i < |s.table| && s.table[i].id == id && s.table[i].index == 0;
    FoundById(s.table, i);
  }

  lemma DeleteTakesOne(t: seq<Call>, i: int, k: int)
    requires UniqueIds(t) && 0 <= i < |t| && 0 <= k < |t|
    ensures ById(Delete(t, t[i].id), t[k].id) < 0 <==> i == k
  {
    DeleteGone(t, t[i].id);
    if i != k {
      assert t[i].id != t[k].id;
      DeleteKeeps(t, t[i].id, k);
      var j :| 0 <= j < |Delete(t, t[i].id)| && Delete(t, t[i].id)[j] == t[k];
    }
  }

  lemma ProtectFails(s: State, k: int)
    requires UniqueIds(s.table) && 0 <= k < |s.table| && s.protect == s.hang == Some(s.table[k].id)
    ensures ProtectFires(s) == DealFailDial(s.(protect := None), s.table[k]).(hang := None)
  {
    FoundById(s.table, k);
  }

  /** When the protect task fires for its call, the first unnamed call of that slot is taken out: the call itself
      exactly when no other unnamed call stands before it. Only then is the hang-up sent, with index 0; otherwise it is
      dropped. */
  lemma ProtectTakesFirst(s: State, k: int)
    requires Inv(s) && 0 <= k < |s.table| && s.protect == s.hang == Some(s.table[k].id)
    ensures var s', c := ProtectFires(s), s.table[k]; var first := ByKey(s.table, c.index, c.slot);
      && 0 <= first && s'.table == Delete(s.table, s.table[first].id) && s'.hang == None && s'.protect == None
      && (ById(s'.table, c.id) < 0 <==> first == k) && (s'.mo == s.mo || s'.mo == None)
      && Deferrals(s'.log) == Deferrals(s.log) + if first == k then [Deferred(c.id, c.slot, 0)] else []
  {
    var c, s1 := s.table[k], s.(protect := None);
    var first := ByKey(s.table, c.index, c.slot);
    assert HasKey(c, c.index, c.slot);
    ProtectFails(s, k);
    DealFailDialOk(s1, k);
    DeleteTakesOne(s.table, first, k);
    DisconnectedSends(s1, FailReport(c));
    assert first != k ==> s.table[first].id != c.id;
    UnnamedAt(s.table, k);
  }

  lemma UnnamedAt(t: seq<Call>, k: int)
    requires UniqueIds(t) && 0 <= k < |t| && Unnamed(t, t[k].id)
    ensures t[k].index == 0
  {
    var i :| 0 <= i < |t| && t[i].id == t[k].id && t[i].index == 0;
    FoundById(t, i);
    FoundById(t, k);
  }

  lemma PutSameIndex(t: seq<Call>, c: Call, id: int)
    requires UniqueIds(t) && ById(t, c.id) >= 0 && t[ById(t, c.id)].index == c.index && Unnamed(t, id)
    ensures Unnamed(Put(t, c), id)
  {
    var i :| 0 <= i < |t| && t[i].id == id && t[i].index == 0;
    assert Put(t, c)[i].id == id && Put(t, c)[i].index == 0;
  }

  lemma ResumableOk(s: State, k: int, resumable: bool)
    requires Inv(s) && 0 <= k < |s.table|
    ensures Inv(s.(table := Put(s.table, s.table[k].(resumable := resumable))))
  {
    var c := s.table[k].(resumable := resumable);
    FoundById(s.table, k);
    PutOk(s.table, c, s.lastId, s.dialEcc);
    if s.mo.Some? {
      PutSameIndex(s.table, c, s.mo.value);
    }
    if s.hang.Some? {
      PutSameIndex(s.table, c, s.hang.value);
    }
  }

  lemma TasksOk(s: State, id: int, sent: bool)
    requires Inv(s)
    ensures Inv(HangUpTask(s, id)) && Inv(RejectTask(s, id, sent)) && Inv(UnHoldTask(s, id))
  {
    var k := ById(s.table, id);
    if k >= 0 {
      ResumableOk(s, k, true);
      var s1 := HangUpTask(s, id);
      var h := LastRunning(s1.table, Hold);
      if h >= 0 {
        ResumableOk(s1, h, false);
      }
    }
  }

  lemma ProtectFiresOk(s: State)
    requires Inv(s)
    ensures Inv(ProtectFires(s))
  {
    if s.protect.Some? && s.hang == s.protect {
      var s1 := s.(protect := None);
      var k := ById(s1.table, s.hang.value);
      if k >= 0 {
        DealFailDialOk(s1, k);
      }
    }
  }

  lemma RequestFailedOk(s: State)
    requires Inv(s)
    ensures Inv(RequestFailed(s))
  {
    if LastRunning(s.table, Outbound) >= 0 {
      DealFailDialOk(s, LastRunning(s.table, Outbound));
    }
  }

  // ---------------------------------------------------------------- dialing

  predicate Local(r: Report) {
    r.index == 0 && r.tel == Dialing
  }

  /** The call that was just created is the last in the table and the one a failed Dial looks for. */
  lemma DialedIsLast(s: State, t: seq<Call>, c: Call)
    requires s.table == t + [c] && TableSafe(s) && c.running == Outbound
    ensures DialingCall(s.table) == |t|
  {
    assert s.table[|t|] == c;
    forall i | 0 <= i < |s.table| ensures s.table[i].running != Create && s.table[i].running != Connecting {
      assert Agrees(s.table[i]);
    }
  }

  /** What a dial the stack refuses does to the table: the first unnamed call of the slot goes. */
  lemma StackRefusal(s: State, r: Report)
    requires Core(s) && Local(r) && CreateDialing(s, r).ok
    ensures var s3 := Sent(CreateDialing(s, r).s, StackDial(r.slot)); var o := HandleDialFail(s3);
      var t := s.table + [Created(s, r)]; var first := ByKey(t, 0, r.slot);
      && 0 <= first < |t| && Core(o.s) && o.s.table == Delete(t, t[first].id)
      && o.s.dialing == false && o.s.restore == false && o.s.dialEcc == s.dialEcc
      && o.s.mo == (if first == |s.table| then None else Some(s.lastId + 1))
      && o.s.hang == (if s.hang == Some(t[first].id) then None else s.hang)
      && o.s.protect == (if s.hang == Some(t[first].id) then None else s.protect)
  {
    hide DealFailDial, CreateDialing;
    CreateDialingEffect(s, r);
    CreateDialingOk(s, r);
    var t := s.table + [Created(s, r)];
    var s3 := Sent(CreateDialing(s, r).s, StackDial(r.slot));
    assert s3.table == t && t[|s.table|] == Created(s, r);
    assert Core(s3);
    DialedIsLast(s3, s.table, Created(s, r));
    assert HasKey(t[|s.table|], 0, r.slot);
    DealFailDialOk(s3, |s.table|);
  }

  /** With no unnamed call on the slot, the refused call itself goes and the table is as before. */
  lemma RefusalUndoes(t: seq<Call>, c: Call, slot: int)
    requires UniqueIds(t) && ById(t, c.id) < 0 && HasKey(c, 0, slot)
    ensures var u := t + [c]; var first := ByKey(u, 0, slot);
      && first >= 0 && (first == |t| <==> ByKey(t, 0, slot) < 0)
      && (Delete(u, u[first].id) == t <==> ByKey(t, 0, slot) < 0)
  {
    var u := t + [c];
    assert HasKey(u[|t|], 0, slot);
    var first := ByKey(u, 0, slot);
    assert forall i | 0 <= i < |t| :: u[i] == t[i];
    AppendThenDelete(t, c);
    if first < |t| {
      FoundById(u, first);
      DeleteKeeps(u, u[first].id, |t|);
      assert u[|t|] == c && c !in t;
    }
  }

  lemma NoneUnnamed(s: State, slot: int)
    requires Core(s) && forall i | 0 <= i < |s.table| :: s.table[i].running != Outbound
    ensures ByKey(s.table, 0, slot) < 0 && s.mo == None && s.hang == None && s.protect == None
  {
    forall i | 0 <= i < |s.table| ensures s.table[i].index != 0 {
      assert Settled(s.table[i]);
    }
  }

  lemma StartReportedOk(s: State, r: Report, accepted: bool)
    requires Core(s) && Local(r)
    ensures Inv(StartReported(s, r, accepted).s)
  {
    CreateDialingOk(s, r);
    CreateDialingEffect(s, r);
    if CreateDialing(s, r).ok {
      StackRefusal(s, r);
    }
  }

  /** CarrierDialProcess begins and ends with the dialing flag clear and no restore task. */
  lemma CarrierDialOk(s: State, r: Report, ecc: bool, posted: bool, accepted: bool)
    requires Inv(s) && Local(r)
    ensures Inv(CarrierDial(s, r, ecc, posted, accepted).s)
  {
    var s1 := s.(dialing := true, restore := posted);
    StartReportedOk(if ecc then ClearTheLine(s1) else s1, r, accepted);
  }

  lemma DialCallOk(s: State, r: Report, allowed: bool, ecc: bool, posted: bool, accepted: bool)
    requires Inv(s) && Local(r)
    ensures Inv(DialCall(s, r, allowed, ecc, posted, accepted).s)
  {
    if ecc || !HasEcc(s.table) {
      var s1 := s.(dialEcc := ecc);
      assert TableSafe(s1);
      CarrierDialOk(s1, r, ecc, posted, accepted);
    }
  }

  /** A dial of a normal number that is refused, wherever, leaves calls, states and flags as they were. */
  lemma RefusedDialIsUndone(s: State, r: Report, allowed: bool, posted: bool, accepted: bool)
    requires Inv(s) && Local(r) && !DialCall(s, r, allowed, false, posted, accepted).ok
    ensures var s' := DialCall(s, r, allowed, false, posted, accepted).s;
      && s'.table == s.table && s'.mo == s.mo && s'.hang == s.hang && s'.protect == s.protect
      && !s'.dialing && !s'.restore
  {
    var s1 := s.(dialEcc := false, dialing := true, restore := posted);
    if allowed && !HasEcc(s.table) && !NewCallBusy(s.table) && NewCallAllowed(s.table) {
      assert Core(s1);
      NoneUnnamed(s1, r.slot);
      CreateDialingEffect(s1, r);
      if CreateDialing(s1, r).ok {
        StackRefusal(s1, r);
        RefusalUndoes(s1.table, Created(s1, r), r.slot);
        AppendThenDelete(s1.table, Created(s1, r));
      }
    }
  }

  /** With an unnamed call on the slot, that call goes and the refused one stays. */
  lemma AnotherGoes(t: seq<Call>, c: Call, slot: int)
    requires UniqueIds(t) && ById(t, c.id) < 0 && HasKey(c, 0, slot) && ByKey(t, 0, slot) >= 0
    ensures var u := t + [c]; var f := ByKey(u, 0, slot);
      && f == ByKey(t, 0, slot) && |Delete(u, u[f].id)| == |t|
      && ById(Delete(u, u[f].id), t[f].id) < 0 && Delete(u, u[f].id)[|t| - 1] == c
  {
    var u := t + [c];
    var f := ByKey(t, 0, slot);
    assert forall i | 0 <= i < |t| :: u[i] == t[i];
    assert HasKey(u[f], 0, slot);
    AppendThenDelete(t, c);
    FoundById(u, f);
    DeleteGone(u, u[f].id);
  }

  /** The state an emergency dial is in when its local report comes. */
  function EccAdmitted(s: State, posted: bool): State {
    ClearTheLine(s.(dialEcc := true, dialing := true, restore := posted))
  }

  lemma EccDialRefused(s: State, r: Report, posted: bool)
    requires Inv(s) && Local(r) && !EccRefused(s.table)
    requires CreateDialing(EccAdmitted(s, posted), r).ok
    ensures var o := DialCall(s, r, true, true, posted, false);
      var u := s.table + [Created(EccAdmitted(s, posted), r)];
      !o.ok && ByKey(u, 0, r.slot) >= 0 && o.s.table == Delete(u, u[ByKey(u, 0, r.slot)].id)
  {
    assert Core(EccAdmitted(s, posted));
    StackRefusal(EccAdmitted(s, posted), r);
  }

  /** For an emergency dial the stack refuses this holds exactly when no dialed call of the slot is unnamed: with one,
      that call goes instead and the refused call stays. */
  lemma RefusedEccDial(s: State, r: Report, posted: bool)
    requires Inv(s) && Local(r) && !EccRefused(s.table)
    requires CreateDialing(EccAdmitted(s, posted), r).ok
    ensures var o := DialCall(s, r, true, true, posted, false);
      && !o.ok && (o.s.table == s.table <==> ByKey(s.table, 0, r.slot) < 0)
      && (ByKey(s.table, 0, r.slot) >= 0 ==>
            && |o.s.table| == |s.table| && ById(o.s.table, s.table[ByKey(s.table, 0, r.slot)].id) < 0
            && o.s.table[|s.table| - 1].id == s.lastId + 1 && o.s.table[|s.table| - 1].ecc)
  {
    var s2 := EccAdmitted(s, posted);
    var c := Created(s2, r);
    EccDialRefused(s, r, posted);
    CreateDialingEffect(s2, r);
    RefusalUndoes(s.table, c, r.slot);
    if ByKey(s.table, 0, r.slot) >= 0 {
      AnotherGoes(s.table, c, r.slot);
    }
  }

  /** A dial that passes admission finds a place exactly if the table is below its limit, and always if no call is of
      an unsupported type: the admission does not count those. */
  lemma NormalDialFits(s: State, r: Report)
    requires Inv(s) && NewCallAllowed(s.table) && r.kind != CallType.Other
    ensures CreateDialing(s, r).ok <==> |s.table| < Limit(s.dialEcc)
    ensures (forall i | 0 <= i < |s.table| :: Carrier(s.table[i])) ==> CreateDialing(s, r).ok
  {
    DialingIsOffered(s, r);
    assert ById(s.table, s.lastId + 1) < 0;
    if forall i | 0 <= i < |s.table| :: Carrier(s.table[i]) {
      AllCarriers(s.table);
    }
  }

  /** A normal dial succeeds exactly if the checks pass, no emergency call is there, the line is free, the type is
      supported, the table has a place for it, and the stack accepts it. */
  lemma NormalDialAdmitted(s: State, r: Report, allowed: bool, posted: bool, accepted: bool)
    requires Inv(s) && Local(r)
    ensures DialCall(s, r, allowed, false, posted, accepted).ok
      <==> && allowed && accepted && !HasEcc(s.table) && NewCallAllowed(s.table)
           && r.kind != CallType.Other && |s.table| < MAX_CALL_OBJECTS - ECC_RESERVED
  {
    var s1 := s.(dialEcc := false, dialing := true, restore := posted);
    DialingIsOffered(s1, r);
    assert ById(s.table, s.lastId + 1) < 0;
    assert NewCallAllowed(s.table) ==> !NewCallBusy(s.table);
  }

  lemma {:induction false} AllCarriers(t: seq<Call>)
    requires forall i | 0 <= i < |t| :: Carrier(t[i])
    ensures CountCarrier(t) == |t|
  {
    if t != [] {
      AllCarriers(t[1..]);
    }
  }
}
