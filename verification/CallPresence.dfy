/** Whether the call a report is about is in the table afterwards: the exact condition for every state and table. */
module CallPresence {
  import opened Options
  import opened CallTable
  import opened CallHandlers
  import opened CallSafety
  import opened CallOutcomes

  /** A dialing call of this report would be admitted. */
  predicate Creatable(s: State, r: Report) {
    r.kind != CallType.Other && |s.table| < Limit(s.dialEcc)
  }

  /** A report about a call nobody knows takes one up: an incoming one makes a call, a dialing one names or makes one,
      an active or alerting one does so if any call of the table waits for its index. A holding or disconnecting one
      never does. */
  predicate TakesUp(s: State, r: Report) {
    match r.tel
    case Ringing | Waiting => r.kind != CallType.Other && |FailUnnamed(s).table| < Limit(false)
    case Dialing => ByKey(s.table, 0, r.slot) >= 0 || Creatable(s, r)
    case Active | Alerting => ByIndex(s.table, 0) >= 0 && (ByKey(s.table, 0, r.slot) >= 0 || Creatable(s, r))
    case _ => false
  }

  predicate Present(s: State, r: Report) {
    if r.tel == Disconnected then false
    else if r.tel == Tel.Other then Found(s, r)
    else if Found(s, r) then PassedOver(Known(s, r), r) || !Loses(LookedUp(s, r).table, Known(s, r), r)
    else TakesUp(s, r)
  }

  lemma KeyIsFound(t: seq<Call>, i: int, index: int, slot: int)
    requires 0 <= i < |t| && HasKey(t[i], index, slot)
    ensures ByKey(t, index, slot) >= 0
  {
  }

  lemma KnownPresent(s: State, r: Report)
    requires Inv(s) && Found(s, r) && r.index > 0 && r.tel != Disconnected && r.tel != Tel.Other
    ensures Found(Handle(s, r), r) <==> Present(s, r)
  {
    var s0, t := LookedUp(s, r), Handle(s, r).table;
    var id := Known(s, r).id;
    StillKnown(s, r);
    ReportIsTaken(s, r);
    if ById(t, id) >= 0 {
      KeyIsFound(t, ById(t, id), r.index, r.slot);
    } else {
      DeleteFreesKey(s0.table, ByKey(s0.table, r.index, r.slot));
      assert t == Delete(t, id);
    }
  }

  lemma NamedPresent(s: State, r: Report)
    requires Inv(s) && r.index > 0 && Binds(s, r) && r.tel != Disconnected
    ensures Found(Handle(s, r), r)
  {
    ReportNames(s, r);
    var t, id := Handle(s, r).table, s.table[ByIndex(s.table, 0)].id;
    KeyIsFound(t, ById(t, id), r.index, r.slot);
  }

  lemma FreshId(s: State)
    requires Core(s)
    ensures ById(s.table, s.lastId + 1) < 0
  {
  }

  lemma AppendedIsFound(t: seq<Call>, c: Call)
    requires ByKey(t, c.index, c.slot) < 0
    ensures ByKey(t + [c], c.index, c.slot) == |t|
  {
    assert HasKey((t + [c])[|t|], c.index, c.slot);
    forall j | 0 <= j < |t| ensures !HasKey((t + [c])[j], c.index, c.slot) {
      assert !HasKey(t[j], c.index, c.slot);
    }
  }

  lemma CreateIncomingPresent(s: State, r: Report)
    requires Core(s) && !Found(s, r) && r.tel in {Ringing, Waiting}
    ensures Found(CreateIncoming(s, r), r) <==> r.kind != CallType.Other && |s.table| < Limit(false)
  {
    CreateIncomingEffect(s, r);
    FreshId(s);
    AppendedIsFound(s.table, Arrived(s, r));
  }

  lemma StillUnknown(s: State, r: Report)
    requires Core(s) && !Found(s, r)
    ensures Core(FailUnnamed(s)) && !Found(FailUnnamed(s), r)
  {
    FailUnnamedTakes(s);
    if ByIndex(s.table, 0) >= 0 {
      DeleteFree(s.table, s.table[ByIndex(s.table, 0)].id, r.index, r.slot);
    }
  }

  lemma IncomingCreates(s: State, r: Report)
    requires r.tel in {Ringing, Waiting} && !Found(FailUnnamed(s), r)
    ensures Handle(s, r) == CreateIncoming(FailUnnamed(s), r)
  {
    hide FailUnnamed, CreateIncoming, ActiveHandle, AlertHandle, DialingHandle, DisconnectedHandle;
  }

  lemma IncomingPresent(s: State, r: Report)
    requires Inv(s) && r.index > 0 && !Found(s, r) && r.tel in {Ringing, Waiting}
    ensures Found(Handle(s, r), r) <==> TakesUp(s, r)
  {
    StillUnknown(s, r);
    IncomingCreates(s, r);
    CreateIncomingPresent(FailUnnamed(s), r);
  }

  lemma CreatingIs(s: State, r: Report)
    requires Core(s)
    ensures CreateDialing(s, r).ok <==> Creatable(s, r)
  {
    DialingIsOffered(s, r);
    FreshId(s);
  }

  lemma CreatingPresent(s: State, r: Report)
    requires Core(s) && r.tel == Dialing && !Found(s, r)
    ensures var s' := CreateDialing(s, r).s;
      && (Found(s', r) <==> Creatable(s, r))
      && (Found(s', r) ==> Known(s', r).kind == r.kind && Known(s', r).tel == Dialing)
  {
    CreatingIs(s, r);
    CreateDialingEffect(s, r);
    AppendedIsFound(s.table, Created(s, r));
  }

  lemma DialingCreates(s: State, r: Report)
    requires ByKey(s.table, 0, r.slot) < 0 && !Found(s, r)
    ensures BoundFirst(s, r) == CreateDialing(s, r.(tel := Dialing)).s
  {
  }

  lemma DialingPresent(s: State, r: Report)
    requires Inv(s) && r.index > 0 && !Found(s, r) && r.tel == Dialing
    ensures Found(Handle(s, r), r) <==> TakesUp(s, r)
  {
    if ByKey(s.table, 0, r.slot) >= 0 {
      NamedPresent(s, r);
    } else {
      CreatingPresent(s, r);
      DialingCreates(s, r);
      assert r.(tel := Dialing) == r && Handle(s, r) == BoundFirst(s, r);
    }
  }

  /** The handler goes on with the call it located, if there is one. */
  lemma LocatedMoves(s: State, r: Report)
    requires r.tel in {Active, Alerting}
    ensures var s1 := Locate(s, r);
      && (!Found(s1, r) ==> Handle(s, r) == s1)
      && (Found(s1, r) && ClearPending(s1, Known(s1, r)) == s1 && Known(s1, r).tel != Disconnecting ==>
            Handle(s, r) == Moved(s1, ByKey(s1.table, r.index, r.slot), r, r.tel))
  {
  }

  /** A call that was just made moves on and stays. */
  lemma MadeMoves(s: State, r: Report)
    requires Core(s) && r.index > 0 && r.tel in {Active, Alerting} && Found(s, r) && Known(s, r).kind == r.kind
    ensures ByKey(Moved(s, ByKey(s.table, r.index, r.slot), r, r.tel).table, r.index, r.slot) >= 0
  {
    MovedLeaves(s, ByKey(s.table, r.index, r.slot), r, r.tel);
    var t := Moved(s, ByKey(s.table, r.index, r.slot), r, r.tel).table;
    KeyIsFound(t, ById(t, Known(s, r).id), r.index, r.slot);
  }

  lemma MakingMoves(s: State, r: Report)
    requires Inv(s) && r.index > 0 && !Found(s, r) && r.tel in {Active, Alerting}
    requires ByIndex(s.table, 0) >= 0 && ByKey(s.table, 0, r.slot) < 0
    ensures Found(Handle(s, r), r) <==> Creatable(s, r)
  {
    var r1 := r.(tel := Dialing);
    var s1 := CreateDialing(s, r1).s;
    LocateIs(s, r);
    DialingCreates(s, r);
    CreatingPresent(s, r1);
    LocatedMoves(s, r);
    if Creatable(s, r) {
      CreateDialingOk(s, r1);
      NotFlagged(s1, ByKey(s1.table, r.index, r.slot));
      MadeMoves(s1, r);
    }
  }

  lemma MovingPresent(s: State, r: Report)
    requires Inv(s) && r.index > 0 && !Found(s, r) && r.tel in {Active, Alerting}
    ensures Found(Handle(s, r), r) <==> TakesUp(s, r)
  {
    if ByIndex(s.table, 0) < 0 {
      LocateIs(s, r);
      LocatedMoves(s, r);
    } else if ByKey(s.table, 0, r.slot) >= 0 {
      NamedPresent(s, r);
    } else {
      MakingMoves(s, r);
    }
  }

  lemma IdlePresent(s: State, r: Report)
    requires !Found(s, r) && r.tel in {Holding, Disconnecting, Tel.Other}
    ensures Handle(s, r) == s && !TakesUp(s, r)
  {
    hide ActiveHandle, AlertHandle, IncomingHandle, DialingHandle, DisconnectedHandle, FailUnnamed;
  }

  lemma UnknownPresent(s: State, r: Report)
    requires Inv(s) && r.index > 0 && !Found(s, r) && r.tel != Disconnected
    ensures Found(Handle(s, r), r) <==> TakesUp(s, r)
  {
    hide Handle, TakesUp;
    match r.tel
    case Ringing | Waiting => IncomingPresent(s, r);
    case Dialing => DialingPresent(s, r);
    case Active | Alerting => MovingPresent(s, r);
    case _ => IdlePresent(s, r);
  }

  /** After a report its call is in the table exactly under this condition, which a caller can read before. */
  lemma CallIsPresent(s: State, r: Report)
    requires Inv(s) && r.index > 0
    ensures Found(Handle(s, r), r) <==> Present(s, r)
  {
    hide DisconnectedHandle, TakesUp;
    if r.tel == Disconnected {
      DisconnectedHandleOk(s, r);
    } else if !Found(s, r) {
      UnknownPresent(s, r);
      assert r.tel == Tel.Other ==> Handle(s, r) == s;
    } else if r.tel != Tel.Other {
      KnownPresent(s, r);
    }
  }

  lemma KeyIsHis(t: seq<Call>, i: int, r: Report)
    requires UniqueKeys(t) && 0 <= i < |t| && r.index > 0 && HasKey(t[i], r.index, r.slot)
    ensures ByKey(t, r.index, r.slot) == i
  {
    FoundByKey(t, i);
  }
}
