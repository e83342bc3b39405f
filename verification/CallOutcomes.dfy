/** What becomes of the call a report is about: which calls follow the report, which call a first report names, and
    when a hang-up that waited goes out. */
module CallOutcomes {
  import opened Options
  import opened CallTable
  import opened CallHandlers
  import opened CallSafety

  // ---------------------------------------------------------------- replacing a call: what is kept

  /** RefreshCall keeps the call exactly when the table has a place to spare or the call is outgoing: in a full table
      an incoming call of another type is lost. */
  lemma RefreshKeepsCall(s: State, k: int, r: Report)
    requires TableSafe(s) && 0 <= k < |s.table| && r.kind != CallType.Other
    ensures ById(Refresh(s, s.table[k], r).s.table, s.table[k].id) >= 0
            <==> |s.table| < MAX_CALL_OBJECTS || s.table[k].dir == Outgoing
  {
    var c := s.table[k];
    var rest := Delete(s.table, c.id);
    FoundById(s.table, k);
    DeleteGone(s.table, c.id);
    var c' := Replacement(s, c, r);
    assert CallOk(c, s.lastId, s.dialEcc);
    if CanAdd(rest, c') {
      assert (rest + [c'])[|rest|].id == c.id;
    } else {
      SecondOfferFails(s, c, r);
    }
    if |s.table| == MAX_CALL_OBJECTS {
      var e :| 0 <= e < |s.table| && s.table[e].ecc;
      assert CallOk(s.table[e], s.lastId, s.dialEcc);
    }
  }

  /** And it keeps the emergency mark except that an outgoing normal call takes the mark of a later emergency dial. */
  lemma RefreshKeepsMark(s: State, k: int, r: Report)
    requires Inv(s) && 0 <= k < |s.table|
    requires var c := s.table[k]; r.kind != CallType.Other && CanAdd(Delete(s.table, c.id), Replacement(s, c, r))
    ensures var c := s.table[k];
      Refresh(s, c, r).c.ecc == c.ecc <==> !(c.dir == Outgoing && !c.ecc && s.dialEcc)
  {
    assert CallOk(s.table[k], s.lastId, s.dialEcc);
  }

  /** A report of another type puts an incoming call out of a full table. */
  predicate Loses(t: seq<Call>, c: Call, r: Report) {
    c.kind != r.kind && r.kind != CallType.Other && |t| == MAX_CALL_OBJECTS && c.dir == Incoming
  }

  /** The type a call has once a report has been handled. */
  function KindAfter(c: Call, r: Report): CallType {
    if r.kind == CallType.Other then c.kind else r.kind
  }

  lemma RefreshIfNecessaryIs(s: State, c: Call, r: Report)
    ensures var c1 := WithVideo(c, r.video); var s1 := s.(table := Put(s.table, c1));
      RefreshIfNecessary(s, c, r) == if c1.kind == r.kind then Held(s1, c1) else Refresh(s1, c1, r)
  {
  }

  lemma ChangeLeaves(s: State, k: int, r: Report)
    requires TableSafe(s) && 0 <= k < |s.table| && s.table[k].kind != r.kind
    ensures var c := s.table[k]; var h := Refresh(s, c, r);
      && (ById(h.s.table, c.id) < 0 <==> Loses(s.table, c, r))
      && (ById(h.s.table, c.id) >= 0 ==> h.c.kind == KindAfter(c, r))
  {
    if r.kind == CallType.Other {
      FoundById(s.table, k);
    } else {
      RefreshKeepsCall(s, k, r);
      SecondOffer(s, k, r);
    }
  }

  /** A call that is in the table after a replacement is the new object: the old one never gets back in. */
  lemma SecondOffer(s: State, k: int, r: Report)
    requires TableSafe(s) && 0 <= k < |s.table| && r.kind != CallType.Other
    ensures var c := s.table[k]; var h := Refresh(s, c, r); ById(h.s.table, c.id) >= 0 ==> h.c.kind == r.kind
  {
    var c := s.table[k];
    if !CanAdd(Delete(s.table, c.id), Replacement(s, c, r)) {
      assert CallOk(c, s.lastId, s.dialEcc);
      SecondOfferFails(s, c, r);
      DeleteGone(s.table, c.id);
    }
  }

  /** What refreshing leaves of the call. */
  lemma RefreshLeaves(s: State, k: int, r: Report)
    requires TableSafe(s) && 0 <= k < |s.table|
    ensures var c, h := s.table[k], RefreshIfNecessary(s, s.table[k], r);
      && (ById(h.s.table, c.id) < 0 <==> Loses(s.table, c, r))
      && (ById(h.s.table, c.id) >= 0 ==> h.c.kind == KindAfter(c, r))
  {
    var c1 := WithVideo(s.table[k], r.video);
    WithVideoOk(s, k, r.video);
    RefreshIfNecessaryIs(s, s.table[k], r);
    if c1.kind != r.kind {
      ChangeLeaves(s.(table := Put(s.table, c1)), k, r);
    }
  }

  // ---------------------------------------------------------------- a report about a call of the table

  /** The call changed: it is lost, or it has the key of the report, this state and the type of the report. */
  predicate Leaves(t: seq<Call>, t': seq<Call>, c: Call, r: Report, tel: Tel) {
    && Delete(t', c.id) == Delete(t, c.id)
    && (ById(t', c.id) < 0 <==> Loses(t, c, r))
    && (ById(t', c.id) >= 0 ==>
          var c' := t'[ById(t', c.id)];
          HasKey(c', r.index, r.slot) && c'.tel == tel && c'.kind == KindAfter(c, r))
  }

  lemma MovedLeaves(s: State, k: int, r: Report, next: Tel)
    requires Core(s) && 0 <= k < |s.table| && r.index > 0 && HasKey(s.table[k], r.index, r.slot)
    requires next != Disconnected && next != Tel.Other
    ensures Leaves(s.table, Moved(s, k, r, next).table, s.table[k], r, next)
  {
    var c := s.table[k];
    var h := RefreshIfNecessary(s, c, r);
    RefreshIfNecessaryOk(s, k, r);
    RefreshLeaves(s, k, r);
    MovedOk(s, k, r, next);
    UpdateStateOk(h.s, h.c, next);
    PutOthers(h.s.table, Advance(h.c, next));
  }

  lemma RefreshedLeaves(s: State, k: int, r: Report)
    requires Core(s) && 0 <= k < |s.table| && r.index > 0 && HasKey(s.table[k], r.index, r.slot)
    ensures Leaves(s.table, RefreshIfNecessary(s, s.table[k], r).s.table, s.table[k], r, s.table[k].tel)
  {
    RefreshIfNecessaryOk(s, k, r);
    RefreshLeaves(s, k, r);
  }

  /** The call a report is about. */
  function Known(s: State, r: Report): Call
    requires Found(s, r)
  {
    s.table[ByKey(s.table, r.index, r.slot)]
  }

  /** An incoming report first fails the first unnamed call of the table, whatever its slot. */
  lemma FailUnnamedTakes(s: State)
    requires Core(s)
    ensures var z := ByIndex(s.table, 0);
      FailUnnamed(s).table == if z < 0 then s.table else Delete(s.table, s.table[z].id)
    ensures Core(FailUnnamed(s)) && (!s.dialing && !s.restore ==> Inv(FailUnnamed(s)))
  {
    var z := ByIndex(s.table, 0);
    FailUnnamedOk(s);
    if z >= 0 {
      DealFailDialOk(s, z);
      assert HasKey(s.table[z], 0, s.table[z].slot);
      assert ByKey(s.table, 0, s.table[z].slot) == z;
    }
  }

  /** The state in which the call is looked up. */
  function LookedUp(s: State, r: Report): State {
    if r.tel in {Ringing, Waiting} then FailUnnamed(s) else s
  }

  lemma StillKnown(s: State, r: Report)
    requires Core(s) && Found(s, r) && r.index > 0
    ensures Found(LookedUp(s, r), r) && Known(LookedUp(s, r), r) == Known(s, r) && Core(LookedUp(s, r))
  {
    var k, z := ByKey(s.table, r.index, r.slot), ByIndex(s.table, 0);
    FailUnnamedTakes(s);
    if r.tel in {Ringing, Waiting} && z >= 0 {
      FoundById(s.table, k);
      FoundById(s.table, z);
      DeleteKeeps(s.table, s.table[z].id, k);
      var t := Delete(s.table, s.table[z].id);
      var j :| 0 <= j < |t| && t[j] == s.table[k];
      FoundByKey(t, j);
    }
  }

  /** A report that brings the call to the reported state. A dialing report refreshes a known call and no more; an
      incoming or waiting report changes the state only with the type or the video state; an alerting report passes
      over a call that is disconnecting; a report of another state is not handled. */
  predicate Follows(c: Call, r: Report) {
    match r.tel
    case Dialing => c.tel == Dialing
    case Alerting => c.tel != Disconnecting
    case Ringing | Waiting => c.tel == r.tel || c.kind != r.kind || c.video != r.video
    case Other => false
    case _ => true
  }

  predicate PassedOver(c: Call, r: Report) {
    r.tel == Alerting && c.tel == Disconnecting
  }

  /** What each handler leaves, in one form. */
  predicate Taken(s: State, s': State, c: Call, r: Report) {
    && SameFlags(s, s')
    && if PassedOver(c, r) then s' == s
       else Leaves(s.table, s'.table, c, r, if Follows(c, r) then r.tel else c.tel)
  }

  lemma DialingTaken(s: State, r: Report)
    requires Inv(s) && Found(s, r) && r.index > 0 && r.tel == Dialing
    ensures Taken(s, Handle(s, r), Known(s, r), r)
  {
    var k := ByKey(s.table, r.index, r.slot);
    RefreshedLeaves(s, k, r);
    RefreshIfNecessaryOk(s, k, r);
    assert Handle(s, r) == RefreshIfNecessary(s, s.table[k], r).s;
  }

  /** The three ways of RefreshOldCall. */
  lemma RefreshOldIs(s: State, r: Report)
    requires Found(s, r)
    ensures var k := ByKey(s.table, r.index, r.slot); var c := s.table[k];
      && (c.kind != r.kind || c.video != r.video ==> RefreshOld(s, r) == Moved(s, k, r, r.tel))
      && (c.kind == r.kind && c.video == r.video && c.tel != r.tel ==>
            RefreshOld(s, r) == RefreshIfNecessary(s, c, r).s)
      && (c.kind == r.kind && c.video == r.video && c.tel == r.tel ==> RefreshOld(s, r) == s)
  {
  }

  lemma RefreshOldTaken(s: State, r: Report)
    requires Core(s) && Found(s, r) && r.index > 0 && r.tel in {Ringing, Waiting}
    ensures Taken(s, RefreshOld(s, r), Known(s, r), r)
  {
    hide Moved, RefreshIfNecessary;
    var k := ByKey(s.table, r.index, r.slot);
    var c := s.table[k];
    RefreshOldIs(s, r);
    RefreshOldOk(s, r);
    if c.kind != r.kind || c.video != r.video {
      MovedLeaves(s, k, r, r.tel);
    } else if c.tel != r.tel {
      RefreshedLeaves(s, k, r);
    } else {
      FoundById(s.table, k);
    }
  }

  lemma AlertTaken(s: State, r: Report)
    requires Inv(s) && Found(s, r) && r.index > 0 && r.tel == Alerting
    ensures Taken(s, AlertHandle(s, r), Known(s, r), r)
  {
    var k := ByKey(s.table, r.index, r.slot);
    NotFlagged(s, k);
    assert Locate(s, r) == s;
    if s.table[k].tel == Disconnecting {
      assert AlertHandle(s, r) == s;
    } else {
      MovedOk(s, k, r, Alerting);
      MovedLeaves(s, k, r, Alerting);
      assert AlertHandle(s, r) == Moved(s, k, r, Alerting);
    }
  }

  /** The handlers that only move a call of the table. */
  lemma SimplyMoves(s: State, r: Report)
    requires Found(s, r) && r.tel in {Active, Holding, Disconnecting}
    requires r.tel == Active ==> ClearPending(s, Known(s, r)) == s
    ensures Handle(s, r) == Moved(s, ByKey(s.table, r.index, r.slot), r, r.tel)
  {
    hide Moved, DialingHandle, AlertHandle, IncomingHandle, DisconnectedHandle, ClearPending;
    if r.tel == Active {
      assert Locate(s, r) == s;
    }
  }

  lemma SimpleTaken(s: State, r: Report)
    requires Inv(s) && Found(s, r) && r.index > 0 && r.tel in {Active, Holding, Disconnecting}
    ensures Taken(s, Moved(s, ByKey(s.table, r.index, r.slot), r, r.tel), Known(s, r), r)
  {
    var k := ByKey(s.table, r.index, r.slot);
    MovedOk(s, k, r, r.tel);
    MovedLeaves(s, k, r, r.tel);
  }

  lemma KnownTaken(s: State, r: Report)
    requires Inv(s) && Found(s, r) && r.index > 0 && r.tel != Disconnected && r.tel != Tel.Other
    ensures Found(LookedUp(s, r), r) && Known(LookedUp(s, r), r) == Known(s, r)
    ensures Taken(LookedUp(s, r), Handle(s, r), Known(s, r), r)
  {
    StillKnown(s, r);
    if r.tel == Dialing {
      DialingTaken(s, r);
    } else if r.tel in {Ringing, Waiting} {
      RefreshOldTaken(FailUnnamed(s), r);
      assert Handle(s, r) == RefreshOld(FailUnnamed(s), r);
    } else if r.tel == Alerting {
      AlertTaken(s, r);
      assert Handle(s, r) == AlertHandle(s, r);
    } else {
      NotFlagged(s, ByKey(s.table, r.index, r.slot));
      SimplyMoves(s, r);
      SimpleTaken(s, r);
    }
  }

  /** A report takes its call to the reported state exactly when the call follows it, and leaves it in its state
      otherwise; it loses the call exactly when the type changes in a full table and the call is incoming. Every other
      call, the flags and the stack are left alone, once an incoming report has failed the unnamed call. */
  lemma ReportIsTaken(s: State, r: Report)
    requires Inv(s) && Found(s, r) && r.index > 0 && r.tel != Disconnected && r.tel != Tel.Other
    ensures var c, s0, s' := Known(s, r), LookedUp(s, r), Handle(s, r); var i := ById(s'.table, c.id);
      && SameFlags(s0, s') && Delete(s'.table, c.id) == Delete(s0.table, c.id)
      && (i < 0 <==> Loses(s0.table, c, r) && !PassedOver(c, r))
      && (i >= 0 ==>
            && HasKey(s'.table[i], r.index, r.slot)
            && (s'.table[i].tel == r.tel <==> Follows(c, r)) && (!Follows(c, r) ==> s'.table[i].tel == c.tel)
            && s'.table[i].kind == if PassedOver(c, r) then c.kind else KindAfter(c, r))
  {
    var c, s0 := Known(s, r), LookedUp(s, r);
    KnownTaken(s, r);
    StillKnown(s, r);
    FoundById(s0.table, ByKey(s0.table, r.index, r.slot));
  }

  // ---------------------------------------------------------------- the first report of a dialed call

  /** The report looks for a dialed call without an index: its slot has one, and nobody has the report's key. */
  predicate Binds(s: State, r: Report) {
    r.tel in {Dialing, Alerting, Active, Disconnected} && !Found(s, r) && ByKey(s.table, 0, r.slot) >= 0
  }

  lemma FirstUnnamed(t: seq<Call>, slot: int)
    requires ByKey(t, 0, slot) >= 0
    ensures var z, own := ByIndex(t, 0), ByKey(t, 0, slot); 0 <= z <= own && (z == own <==> t[z].slot == slot)
  {
    assert HasKey(t[ByKey(t, 0, slot)], 0, slot);
    assert t[ByIndex(t, 0)].slot == slot ==> HasKey(t[ByIndex(t, 0)], 0, slot);
  }

  /** The call under this id has the key, the type and the state; the other calls are as they were. */
  predicate NamedAs(t: seq<Call>, t': seq<Call>, id: int, r: Report, tel: Tel) {
    && UniqueIds(t') && Delete(t', id) == Delete(t, id)
    && var i := ById(t', id); i >= 0 && HasKey(t'[i], r.index, r.slot) && t'[i].tel == tel && t'[i].kind == r.kind
  }

  /** Binding names the first unnamed call of the table, whatever its slot. */
  lemma BindingNames(s: State, r: Report)
    requires Inv(s) && r.index > 0 && r.tel == Dialing && Binds(s, r)
    ensures NamedAs(s.table, DialingHandle(s, r).s.table, s.table[ByIndex(s.table, 0)].id, r, Dialing)
  {
    var z := ByIndex(s.table, 0);
    FirstUnnamed(s.table, r.slot);
    var h := RefreshIfNecessary(s, s.table[z], r);
    var s2 := h.s.(table := Put(h.s.table, Bound(h.c, r)));
    assert CallOk(s.table[z], s.lastId, s.dialEcc);
    RefreshLeaves(s, z, r);
    RefreshIfNecessaryOk(s, z, r);
    BindUnnamedOk(s, r, z);
    PutOthers(h.s.table, Bound(h.c, r));
    ClearPendingOk(s2, Bound(h.c, r));
  }

  /** The state the handlers of the other states go on from. */
  function BoundFirst(s: State, r: Report): State {
    DialingHandle(s, r.(tel := Dialing)).s
  }

  lemma BoundIsKnown(s: State, r: Report)
    requires Inv(s) && r.index > 0 && Binds(s, r)
    ensures var s1, id := BoundFirst(s, r), s.table[ByIndex(s.table, 0)].id;
      && Core(s1) && Found(s1, r) && Known(s1, r).id == id && ById(s1.table, id) == ByKey(s1.table, r.index, r.slot)
      && Known(s1, r).tel == Dialing && Known(s1, r).kind == r.kind && Delete(s1.table, id) == Delete(s.table, id)
  {
    var s1, id := BoundFirst(s, r), s.table[ByIndex(s.table, 0)].id;
    BindingNames(s, r.(tel := Dialing));
    DialingHandleOk(s, r.(tel := Dialing));
    FoundByKey(s1.table, ById(s1.table, id));
  }

  /** The report reached this call: the call has the key and the state, or it has ended. */
  predicate Reached(t: seq<Call>, id: int, r: Report) {
    var i := ById(t, id);
    if r.tel == Disconnected then i < 0 else i >= 0 && HasKey(t[i], r.index, r.slot) && t[i].tel == r.tel
  }

  /** A dialed call that has its key and type moves on. */
  lemma NamedMoves(s: State, id: int, r: Report)
    requires Core(s) && r.index > 0 && r.tel in {Active, Alerting} && Found(s, r)
    requires Known(s, r).id == id && Known(s, r).kind == r.kind
    ensures var t := Moved(s, ByKey(s.table, r.index, r.slot), r, r.tel).table;
      Delete(t, id) == Delete(s.table, id) && Reached(t, id, r)
  {
    MovedLeaves(s, ByKey(s.table, r.index, r.slot), r, r.tel);
  }

  lemma MovesTheBound(s: State, r: Report)
    requires Inv(s) && r.index > 0 && Binds(s, r) && r.tel in {Active, Alerting}
    ensures var s1 := BoundFirst(s, r);
      Found(s1, r) && Handle(s, r) == Moved(s1, ByKey(s1.table, r.index, r.slot), r, r.tel)
  {
    var s1 := BoundFirst(s, r);
    BoundIsKnown(s, r);
    FirstUnnamed(s.table, r.slot);
    assert Locate(s, r) == s1;
    NotFlagged(s1, ByKey(s1.table, r.index, r.slot));
  }

  lemma EndsTheLocated(s: State, r: Report)
    requires Found(Locate(s, r), r)
    ensures DisconnectedHandle(s, r) == DisconnectedHandle(Locate(s, r), r)
  {
    hide Concluded, RefreshIfNecessary;
  }

  lemma BoundIsEnded(s: State, r: Report)
    requires Inv(s) && r.index > 0 && Binds(s, r) && r.tel == Disconnected
    ensures var t, id := DisconnectedHandle(s, r).table, s.table[ByIndex(s.table, 0)].id;
      Delete(t, id) == Delete(s.table, id) && Reached(t, id, r)
  {
    var s1, id := BoundFirst(s, r), s.table[ByIndex(s.table, 0)].id;
    BoundIsKnown(s, r);
    FirstUnnamed(s.table, r.slot);
    assert Locate(s, r) == s1;
    EndsTheLocated(s, r);
    DisconnectedFoundOk(s1, r);
    Lost(s1.table, id, s1.lastId, s1.dialEcc);
  }

  /** What a binding report does to the first unnamed call of the table and to no other. */
  predicate ReachesFirst(s: State, t: seq<Call>, r: Report)
    requires ByIndex(s.table, 0) >= 0
  {
    var id := s.table[ByIndex(s.table, 0)].id;
    Delete(t, id) == Delete(s.table, id) && Reached(t, id, r)
  }

  lemma DialingReaches(s: State, r: Report)
    requires Inv(s) && r.index > 0 && Binds(s, r) && r.tel == Dialing
    ensures ByIndex(s.table, 0) >= 0 && ReachesFirst(s, Handle(s, r).table, r)
  {
    FirstUnnamed(s.table, r.slot);
    BindingNames(s, r);
    assert Handle(s, r) == DialingHandle(s, r).s;
  }

  lemma EndIs(s: State, r: Report)
    requires r.tel == Disconnected
    ensures Handle(s, r) == DisconnectedHandle(s, r)
  {
    hide DisconnectedHandle, ActiveHandle, AlertHandle, IncomingHandle, DialingHandle;
  }

  lemma EndReaches(s: State, r: Report)
    requires Inv(s) && r.index > 0 && Binds(s, r) && r.tel == Disconnected
    ensures ByIndex(s.table, 0) >= 0 && ReachesFirst(s, Handle(s, r).table, r)
  {
    FirstUnnamed(s.table, r.slot);
    BoundIsEnded(s, r);
    EndIs(s, r);
  }

  lemma MovingReaches(s: State, r: Report)
    requires Inv(s) && r.index > 0 && Binds(s, r) && r.tel in {Active, Alerting}
    ensures ByIndex(s.table, 0) >= 0 && ReachesFirst(s, Handle(s, r).table, r)
  {
    FirstUnnamed(s.table, r.slot);
    BoundIsKnown(s, r);
    NamedMoves(BoundFirst(s, r), s.table[ByIndex(s.table, 0)].id, r);
    MovesTheBound(s, r);
  }

  lemma FirstIsReached(s: State, r: Report)
    requires Inv(s) && r.index > 0 && Binds(s, r)
    ensures ByIndex(s.table, 0) >= 0 && ReachesFirst(s, Handle(s, r).table, r)
  {
    match r.tel
    case Dialing => DialingReaches(s, r);
    case Active | Alerting => MovingReaches(s, r);
    case Disconnected => EndReaches(s, r);
  }

  /** The first report with a new index, on a slot with a call that waits for one, reaches the first such call of the
      table and no other: the one of its own slot exactly when no call of another slot stands before it. */
  lemma ReportNames(s: State, r: Report)
    requires Inv(s) && r.index > 0 && Binds(s, r)
    ensures var z, own := ByIndex(s.table, 0), ByKey(s.table, 0, r.slot); var t := Handle(s, r).table;
      && 0 <= z <= own && Delete(t, s.table[z].id) == Delete(s.table, s.table[z].id)
      && Reached(t, s.table[z].id, r)
      && (Reached(t, s.table[own].id, r) <==> s.table[z].slot == r.slot)
  {
    var z, own := ByIndex(s.table, 0), ByKey(s.table, 0, r.slot);
    var id, t := s.table[z].id, Handle(s, r).table;
    FirstUnnamed(s.table, r.slot);
    FirstIsReached(s, r);
    HandleOk(s, r);
    if z != own {
      OtherStays(s.table, t, id, own);
    }
  }

  lemma OtherStays(t: seq<Call>, t': seq<Call>, id: int, k: int)
    requires UniqueIds(t) && UniqueIds(t') && Delete(t', id) == Delete(t, id)
    requires 0 <= k < |t| && t[k].id != id
    ensures ById(t', t[k].id) >= 0 && t'[ById(t', t[k].id)] == t[k]
  {
    DeleteKeeps(t, id, k);
    DeletePlaces(t', id);
    var j :| 0 <= j < |Delete(t', id)| && Delete(t', id)[j] == t[k];
    FoundById(t', Place(t', id, j));
  }

  // ---------------------------------------------------------------- the hang-up that waits

  /** The deferred hang-ups among the commands. */
  function Deferrals(log: seq<Command>): seq<Command> {
    if log == [] then []
    else Deferrals(log[..|log| - 1]) + (if log[|log| - 1].Deferred? then [log[|log| - 1]] else [])
  }

  lemma {:induction false} DeferralsAreSent(log: seq<Command>)
    ensures forall d | d in Deferrals(log) :: d in log && d.Deferred?
  {
    if log != [] {
      DeferralsAreSent(log[..|log| - 1]);
    }
  }

  lemma DeferralsOfOne(log: seq<Command>, cmd: Command)
    ensures Deferrals(log + [cmd]) == Deferrals(log) + (if cmd.Deferred? then [cmd] else [])
  {
    assert (log + [cmd])[..|log|] == log;
  }

  /** The deferred hang-ups that go out, and with the one that waited the flag and the protect task. */
  predicate Sends(s: State, s': State, ds: seq<Command>) {
    && Deferrals(s'.log) == Deferrals(s.log) + ds
    && s'.hang == (if ds == [] then s.hang else None)
    && s'.protect == (if ds == [] then s.protect else None)
  }

  /** The hang-up that waits for the call with this id. */
  function Owed(s: State, id: int, slot: int, index: int): seq<Command> {
    if s.hang == Some(id) then [Deferred(id, slot, index)] else []
  }

  /** Nothing but commands of other kinds was sent, and the flags stayed. */
  predicate SendsNone(s: State, s': State) {
    s'.hang == s.hang && s'.protect == s.protect && Deferrals(s'.log) == Deferrals(s.log)
  }

  lemma ClearPendingSends(s: State, c: Call)
    requires FlagsBut(s, Some(c.id)) && c.running != Ended
    ensures Sends(s, ClearPending(s, c), Owed(s, c.id, c.slot, c.index))
  {
    var s' := ClearPending(s, c);
    ClearPendingOk(s, c);
    if s.hang == Some(c.id) {
      DeferralsOfOne(s.log, Deferred(c.id, c.slot, c.index));
      assert s'.log == s.log + [Deferred(c.id, c.slot, c.index)];
    } else {
      assert s'.log == s.log;
      assert Deferrals(s.log) + [] == Deferrals(s.log);
    }
  }

  lemma ResumeSends(s: State, c: Call, previous: Running, prior: Tel)
    ensures SendsNone(s, Resume(s, c, previous, prior))
  {
    var k := Resumed(s.table, c, previous, prior);
    if k >= 0 {
      DeferralsOfOne(s.log, UnHold(s.table[k].id));
    }
  }

  lemma ConcludedSends(h: Held)
    requires FlagsBut(h.s, Some(h.c.id)) && h.c.running != Ended
    ensures Sends(h.s, Concluded(h), Owed(h.s, h.c.id, h.c.slot, h.c.index))
  {
    ClearPendingSends(h.s, h.c);
    var h' := UpdateState(ClearPending(h.s, h.c), h.c, Disconnected);
    ResumeSends(h'.s, h'.c, h.c.running, h.c.tel);
  }

  lemma ConcludesIt(s: State, r: Report)
    requires Found(s, r)
    ensures DisconnectedHandle(s, r) == Concluded(RefreshIfNecessary(s, Known(s, r), r))
  {
    hide Concluded, RefreshIfNecessary;
  }

  lemma RefreshedForEnd(s: State, r: Report)
    requires Core(s) && Found(s, r) && r.index >= 0
    ensures var c, h := Known(s, r), RefreshIfNecessary(s, Known(s, r), r);
      && FlagsBut(h.s, Some(h.c.id)) && SameFlags(s, h.s) && h.c.running != Ended
      && h.c.id == c.id && HasKey(h.c, r.index, r.slot)
  {
    hide RefreshIfNecessary;
    var k := ByKey(s.table, r.index, r.slot);
    RefreshIfNecessaryOk(s, k, r);
    FlagsFollow(s, RefreshIfNecessary(s, s.table[k], r).s, s.table[k].id);
    assert Agrees(s.table[k]);
  }

  /** The end of a call sends the hang-up that waits for it, with the key of the report. */
  lemma DisconnectedSends(s: State, r: Report)
    requires Core(s) && Found(s, r) && r.index >= 0
    ensures Sends(s, DisconnectedHandle(s, r), Owed(s, Known(s, r).id, r.slot, r.index))
  {
    RefreshedForEnd(s, r);
    ConcludedSends(RefreshIfNecessary(s, Known(s, r), r));
    ConcludesIt(s, r);
  }

  lemma LocateIs(s: State, r: Report)
    ensures Locate(s, r) == if Found(s, r) || ByIndex(s.table, 0) < 0 then s else BoundFirst(s, r)
  {
    hide DialingHandle;
  }

  lemma GoneIsNotUnnamed(t: seq<Call>, id: int)
    requires UniqueIds(t) && (ById(t, id) < 0 || t[ById(t, id)].index > 0)
    ensures !Unnamed(t, id)
  {
    forall i | 0 <= i < |t| && t[i].id == id ensures t[i].index != 0 {
      FoundById(t, i);
    }
  }

  lemma IncomingIs(s: State, r: Report)
    requires r.tel in {Ringing, Waiting}
    ensures var s0 := FailUnnamed(s); Handle(s, r) == if Found(s0, r) then RefreshOld(s0, r) else CreateIncoming(s0, r)
  {
    hide FailUnnamed, RefreshOld, CreateIncoming, ActiveHandle, AlertHandle, DialingHandle, DisconnectedHandle;
  }

  lemma RefreshOldNames(s: State, r: Report, id: int)
    requires Core(s) && Found(s, r) && r.index > 0 && r.tel in {Ringing, Waiting}
    requires !Unnamed(s.table, id) && id != Known(s, r).id
    ensures !Unnamed(RefreshOld(s, r).table, id)
  {
    RefreshOldTaken(s, r);
    RefreshOldOk(s, r);
    OthersUnnamed(s.table, Known(s, r).id, id);
    OthersUnnamed(RefreshOld(s, r).table, Known(s, r).id, id);
  }

  lemma CreateIncomingNames(s: State, r: Report, id: int)
    requires Core(s) && r.index > 0 && r.tel in {Ringing, Waiting} && !Unnamed(s.table, id)
    ensures !Unnamed(CreateIncoming(s, r).table, id)
  {
    CreateIncomingEffect(s, r);
  }

  /** An incoming report leaves nothing of the call it failed. */
  lemma FailedIsGone(s: State, r: Report, id: int)
    requires Inv(s) && r.index > 0 && r.tel in {Ringing, Waiting}
    requires ByIndex(s.table, 0) >= 0 && id == s.table[ByIndex(s.table, 0)].id
    ensures !Unnamed(Handle(s, r).table, id)
  {
    var s0 := FailUnnamed(s);
    FailUnnamedTakes(s);
    Lost(s.table, id, s.lastId, s.dialEcc);
    GoneIsNotUnnamed(s0.table, id);
    if Found(s0, r) {
      RefreshOldNames(s0, r, id);
    } else {
      CreateIncomingNames(s0, r, id);
    }
    IncomingIs(s, r);
  }

  lemma ReachedIsNotUnnamed(s: State, r: Report)
    requires Inv(s) && r.index > 0 && Binds(s, r)
    ensures ByIndex(s.table, 0) >= 0 && !Unnamed(Handle(s, r).table, s.table[ByIndex(s.table, 0)].id)
  {
    FirstIsReached(s, r);
    HandleOk(s, r);
    GoneIsNotUnnamed(Handle(s, r).table, s.table[ByIndex(s.table, 0)].id);
  }
}
