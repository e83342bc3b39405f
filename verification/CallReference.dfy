/** Reference definitions: what a report is meant to leave in the table and to send, written on the calls themselves
    and without the handlers. The handlers are proved to do just that. */
module CallReference {
  import opened Options
  import opened CallTable
  import opened CallHandlers
  import opened CallSafety
  import opened CallOutcomes
  import opened CallPresence

  // ---------------------------------------------------------------- one call

  /** The running state of a call in this telephony state. */
  function RunningOf(tel: Tel): Running {
    match tel
    case Active => Live
    case Holding => Hold
    case Dialing => Outbound
    case Alerting => Outbound
    case Ringing => Inbound
    case Waiting => Inbound
    case Disconnecting => Ending
    case Disconnected => Ended
    case Other => Create
  }

  function InState(c: Call, tel: Tel): Call {
    c.(tel := tel, running := RunningOf(tel))
  }

  predicate TypeChanges(c: Call, r: Report) {
    r.kind != CallType.Other && c.kind != r.kind
  }

  /** What refreshing makes of a call: a new type comes with a new object, which takes its key and video state from the
      report, its mark from the latest dial, and may be resumed; an IMS call follows the reported video state in any
      case. */
  function Refreshed(c: Call, r: Report, dialEcc: bool): Call {
    Call(c.id,
         if TypeChanges(c, r) then r.slot else c.slot,
         if TypeChanges(c, r) then r.index else c.index,
         if TypeChanges(c, r) then r.kind else c.kind,
         if TypeChanges(c, r) then c.dir == Outgoing && dialEcc else c.ecc,
         c.dir, c.tel, c.running,
         if TypeChanges(c, r) || c.kind == Ims then r.video else c.video,
         TypeChanges(c, r) || c.resumable)
  }

  lemma AdvanceIs(c: Call, tel: Tel)
    requires Agrees(c) && tel != Tel.Other
    ensures Advance(c, tel) == InState(c, tel) && InState(c, c.tel) == c
  {
  }

  // ---------------------------------------------------------------- the table

  function Without(t: seq<Call>, k: int): seq<Call>
    requires 0 <= k < |t|
  {
    t[..k] + t[k + 1..]
  }

  /** A changed call stays at its place; one of a new type goes to the end. */
  function Placed(t: seq<Call>, k: int, c: Call, toEnd: bool): seq<Call>
    requires 0 <= k < |t|
  {
    if toEnd then Without(t, k) + [c] else t[k := c]
  }

  /** A known call, refreshed and in this state, unless the full table has no place for an incoming call of a new
      type. */
  function Standing(t: seq<Call>, k: int, r: Report, tel: Tel, dialEcc: bool): seq<Call>
    requires 0 <= k < |t|
  {
    if TypeChanges(t[k], r) && |t| == 5 && t[k].dir == Incoming then Without(t, k)
    else Placed(t, k, InState(Refreshed(t[k], r, dialEcc), tel), TypeChanges(t[k], r))
  }

  lemma DeleteIsWithout(t: seq<Call>, k: int)
    requires UniqueIds(t) && 0 <= k < |t|
    ensures Delete(t, t[k].id) == Without(t, k)
  {
    FoundById(t, k);
  }

  lemma PutIsUpdate(t: seq<Call>, k: int, c: Call)
    requires UniqueIds(t) && 0 <= k < |t| && c.id == t[k].id
    ensures Put(t, c) == t[k := c] && UniqueIds(t[k := c])
  {
    FoundById(t, k);
  }

  /** The table and the object in hand once a call is refreshed. */
  lemma RefreshTable(s: State, k: int, r: Report)
    requires TableSafe(s) && 0 <= k < |s.table|
    ensures var t, c, h := s.table, s.table[k], RefreshIfNecessary(s, s.table[k], r);
      && (Loses(t, c, r) ==> h.s.table == Without(t, k) && h.c.id == c.id)
      && (!Loses(t, c, r) ==> h.c == Refreshed(c, r, s.dialEcc)
                              && h.s.table == Placed(t, k, Refreshed(c, r, s.dialEcc), TypeChanges(c, r)))
  {
    var t, c := s.table, s.table[k];
    var c1 := WithVideo(c, r.video);
    var s1 := s.(table := Put(t, c1));
    assert CallOk(c, s.lastId, s.dialEcc);
    WithVideoOk(s, k, r.video);
    PutIsUpdate(t, k, c1);
    RefreshIfNecessaryIs(s, c, r);
    if TypeChanges(c, r) {
      ChangeTable(s1, k, r);
      assert Without(s1.table, k) == Without(t, k);
    }
  }

  lemma ChangeTable(s: State, k: int, r: Report)
    requires TableSafe(s) && 0 <= k < |s.table| && TypeChanges(s.table[k], r)
    ensures var t, c, h := s.table, s.table[k], Refresh(s, s.table[k], r);
      if Loses(t, c, r) then h.s.table == Without(t, k) && h.c.id == c.id
      else h.c == Refreshed(c, r, s.dialEcc) && h.s.table == Without(t, k) + [Refreshed(c, r, s.dialEcc)]
  {
    var c := s.table[k];
    assert CallOk(c, s.lastId, s.dialEcc);
    DeleteIsWithout(s.table, k);
    RefreshKeepsCall(s, k, r);
    DeleteGone(s.table, c.id);
    if !CanAdd(Delete(s.table, c.id), Replacement(s, c, r)) {
      SecondOfferFails(s, c, r);
    } else {
      assert (Delete(s.table, c.id) + [Replacement(s, c, r)])[|Delete(s.table, c.id)|].id == c.id;
    }
  }

  lemma PlacedPut(t: seq<Call>, k: int, c: Call, c': Call, toEnd: bool)
    requires UniqueIds(t) && 0 <= k < |t| && c.id == c'.id == t[k].id
    ensures Put(Placed(t, k, c, toEnd), c') == Placed(t, k, c', toEnd)
  {
    DeleteIsWithout(t, k);
    DeleteGone(t, t[k].id);
    PutIsUpdate(t, k, c);
    if toEnd {
      PutLast(Without(t, k), c, c');
    } else {
      PutIsUpdate(t[k := c], k, c');
      assert t[k := c][k := c'] == t[k := c'];
    }
  }

  lemma LostPut(t: seq<Call>, k: int, c: Call)
    requires UniqueIds(t) && 0 <= k < |t| && c.id == t[k].id
    ensures Put(Without(t, k), c) == Without(t, k)
  {
    DeleteIsWithout(t, k);
    DeleteGone(t, t[k].id);
  }

  lemma MovedTable(s: State, k: int, r: Report, next: Tel)
    requires TableSafe(s) && 0 <= k < |s.table| && next != Tel.Other
    ensures Moved(s, k, r, next).table == Standing(s.table, k, r, next, s.dialEcc)
  {
    var t, c := s.table, s.table[k];
    var h := RefreshIfNecessary(s, c, r);
    assert CallOk(c, s.lastId, s.dialEcc);
    RefreshTable(s, k, r);
    if Loses(t, c, r) {
      LostPut(t, k, Advance(h.c, next));
    } else {
      AdvanceIs(h.c, next);
      PlacedPut(t, k, h.c, Advance(h.c, next), TypeChanges(c, r));
    }
  }

  lemma RefreshedTable(s: State, k: int, r: Report)
    requires TableSafe(s) && 0 <= k < |s.table|
    ensures RefreshIfNecessary(s, s.table[k], r).s.table == Standing(s.table, k, r, s.table[k].tel, s.dialEcc)
  {
    assert CallOk(s.table[k], s.lastId, s.dialEcc);
    RefreshTable(s, k, r);
    AdvanceIs(s.table[k], s.table[k].tel);
  }

  // ---------------------------------------------------------------- a first report

  /** A dialed call that learns its key from the report. */
  function NamedCall(c: Call, r: Report, dialEcc: bool): Call {
    Refreshed(c, r, dialEcc).(index := r.index, slot := r.slot, video := r.video, kind := r.kind)
  }

  function Naming(t: seq<Call>, z: int, r: Report, tel: Tel, dialEcc: bool): seq<Call>
    requires 0 <= z < |t|
  {
    Placed(t, z, InState(NamedCall(t[z], r, dialEcc), tel), TypeChanges(t[z], r))
  }

  lemma BoundTable(s: State, r: Report)
    requires Inv(s) && r.index > 0 && r.tel == Dialing && Binds(s, r)
    ensures var z := ByIndex(s.table, 0);
      z >= 0 && DialingHandle(s, r).s.table == Naming(s.table, z, r, Dialing, s.dialEcc)
  {
    var t, z := s.table, ByIndex(s.table, 0);
    FirstUnnamed(t, r.slot);
    var h := RefreshIfNecessary(s, t[z], r);
    assert CallOk(t[z], s.lastId, s.dialEcc);
    RefreshTable(s, z, r);
    BindUnnamedOk(s, r, z);
    BoundIs(t[z], r, s.dialEcc);
    PlacedPut(t, z, h.c, Bound(h.c, r), TypeChanges(t[z], r));
    ClearPendingOk(h.s.(table := Put(h.s.table, Bound(h.c, r))), Bound(h.c, r));
  }

  lemma BoundIs(c: Call, r: Report, dialEcc: bool)
    requires Agrees(c) && c.tel == Dialing && r.tel == Dialing
    ensures Bound(Refreshed(c, r, dialEcc), r) == InState(NamedCall(c, r, dialEcc), Dialing)
  {
  }

  /** A call that has just been named or made is of the reported type, so it only changes its state. */
  lemma MovesOn(t: seq<Call>, k: int, c: Call, r: Report, tel: Tel, dialEcc: bool)
    requires 0 <= k < |t| && t[k] == InState(c, Dialing) && c.kind == r.kind && c.video == r.video
    ensures Standing(t, k, r, tel, dialEcc) == t[k := InState(c, tel)]
  {
  }

  lemma PlacedAgain(t: seq<Call>, k: int, c: Call, c': Call, toEnd: bool)
    requires UniqueIds(t) && 0 <= k < |t| && c.id == c'.id == t[k].id
    ensures var u := Placed(t, k, c, toEnd); var j := ById(u, c.id);
      j >= 0 && u[j] == c && u[j := c'] == Placed(t, k, c', toEnd)
  {
    PlacedPut(t, k, c, c', toEnd);
    DeleteIsWithout(t, k);
    DeleteGone(t, t[k].id);
    var u := Placed(t, k, c, toEnd);
    if toEnd {
      assert u[|t| - 1].id == c.id;
    } else {
      FoundById(u, k);
    }
  }

  lemma NamingMoves(s: State, r: Report)
    requires Inv(s) && r.index > 0 && r.tel in {Active, Alerting} && Binds(s, r)
    ensures var z := ByIndex(s.table, 0);
      z >= 0 && Handle(s, r).table == Naming(s.table, z, r, r.tel, s.dialEcc)
  {
    var t, z, s1 := s.table, ByIndex(s.table, 0), BoundFirst(s, r);
    var c := NamedCall(t[z], r, s.dialEcc);
    BoundTable(s, r.(tel := Dialing));
    BoundIsKnown(s, r);
    MovesTheBound(s, r);
    var k := ByKey(s1.table, r.index, r.slot);
    PlacedAgain(t, z, InState(c, Dialing), InState(c, r.tel), TypeChanges(t[z], r));
    MovedTable(s1, k, r, r.tel);
    MovesOn(s1.table, k, c, r, r.tel, s1.dialEcc);
  }

  /** The call a report makes. */
  function Made(s: State, r: Report, dir: Direction): Call {
    var ecc := dir == Outgoing && s.dialEcc;
    InState(Call(s.lastId + 1, r.slot, r.index, r.kind, ecc, dir, r.tel, Create, r.video, true), r.tel)
  }

  /** An outgoing call may take the reserved place after an emergency dial. */
  predicate PlaceFor(t: seq<Call>, r: Report, places: int) {
    r.kind != CallType.Other && |t| < places
  }

  function OutgoingPlaces(s: State): int {
    if s.dialEcc then 5 else 4
  }

  function Making(s: State, r: Report): seq<Call> {
    if PlaceFor(s.table, r, OutgoingPlaces(s)) then s.table + [Made(s, r, Outgoing)] else s.table
  }

  // ---------------------------------------------------------------- the whole table

  /** Whether a known call takes the reported state. */
  predicate Takes(c: Call, r: Report) {
    match r.tel
    case Dialing => c.tel == Dialing
    case Alerting => c.tel != Disconnecting
    case Ringing => c.tel == Ringing || c.kind != r.kind || c.video != r.video
    case Waiting => c.tel == Waiting || c.kind != r.kind || c.video != r.video
    case _ => true
  }

  function KnownAfter(t: seq<Call>, k: int, r: Report, dialEcc: bool): seq<Call>
    requires 0 <= k < |t|
  {
    if r.tel == Alerting && t[k].tel == Disconnecting then t
    else Standing(t, k, r, if Takes(t[k], r) then r.tel else t[k].tel, dialEcc)
  }

  function IncomingAfter(s: State, r: Report): seq<Call> {
    var z := ByIndex(s.table, 0);
    var t := if z < 0 then s.table else Without(s.table, z);
    var k := ByKey(t, r.index, r.slot);
    if k >= 0 then KnownAfter(t, k, r, s.dialEcc)
    else if PlaceFor(t, r, 4) then t + [Made(s, r, Incoming)]
    else t
  }

  function FirstAfter(s: State, r: Report): seq<Call> {
    var z := ByIndex(s.table, 0);
    if ByKey(s.table, 0, r.slot) >= 0 && z >= 0 then
      if r.tel == Disconnected then Without(s.table, z) else Naming(s.table, z, r, r.tel, s.dialEcc)
    else if r.tel == Dialing || (r.tel != Disconnected && z >= 0) then Making(s, r)
    else s.table
  }

  /** The table after a report about a named call. */
  function TableAfter(s: State, r: Report): seq<Call> {
    var k := ByKey(s.table, r.index, r.slot);
    if r.tel == Ringing || r.tel == Waiting then IncomingAfter(s, r)
    else if r.tel == Tel.Other then s.table
    else if k >= 0 then
      if r.tel == Disconnected then Without(s.table, k) else KnownAfter(s.table, k, r, s.dialEcc)
    else if r.tel == Holding || r.tel == Disconnecting then s.table
    else FirstAfter(s, r)
  }

  lemma GoneIsWithout(t: seq<Call>, t': seq<Call>, k: int)
    requires UniqueIds(t) && 0 <= k < |t| && Delete(t', t[k].id) == Delete(t, t[k].id) && ById(t', t[k].id) < 0
    ensures t' == Without(t, k)
  {
    DeleteIsWithout(t, k);
  }

  lemma KnownTable(s: State, r: Report)
    requires Inv(s) && Found(s, r) && r.index > 0 && r.tel in {Active, Holding, Disconnecting, Dialing, Alerting}
    ensures Handle(s, r).table == KnownAfter(s.table, ByKey(s.table, r.index, r.slot), r, s.dialEcc)
  {
    var k := ByKey(s.table, r.index, r.slot);
    var c := s.table[k];
    assert Settled(c);
    NotFlagged(s, k);
    if r.tel == Dialing {
      RefreshedTable(s, k, r);
      DialingIsRefreshed(s, r);
    } else if r.tel == Alerting {
      MovedTable(s, k, r, Alerting);
      AlertIsMoved(s, r);
    } else {
      MovedTable(s, k, r, r.tel);
      SimplyMoves(s, r);
    }
  }

  lemma DialingIsRefreshed(s: State, r: Report)
    requires Found(s, r) && r.index > 0 && r.tel == Dialing
    ensures Handle(s, r) == RefreshIfNecessary(s, Known(s, r), r).s
  {
  }

  lemma AlertIsMoved(s: State, r: Report)
    requires Found(s, r) && r.tel == Alerting && ClearPending(s, Known(s, r)) == s
    ensures Handle(s, r) ==
      if Known(s, r).tel == Disconnecting then s else Moved(s, ByKey(s.table, r.index, r.slot), r, Alerting)
  {
    hide Moved;
    assert Locate(s, r) == s;
  }

  lemma EndedTable(s: State, r: Report)
    requires Inv(s) && Found(s, r) && r.index > 0 && r.tel == Disconnected
    ensures Handle(s, r).table == Without(s.table, ByKey(s.table, r.index, r.slot))
  {
    DisconnectedFoundOk(s, r);
    DeleteIsWithout(s.table, ByKey(s.table, r.index, r.slot));
    EndIs(s, r);
  }

  lemma StandingStill(t: seq<Call>, k: int, r: Report, dialEcc: bool)
    requires 0 <= k < |t| && Agrees(t[k]) && t[k].kind == r.kind && t[k].video == r.video
    ensures Standing(t, k, r, t[k].tel, dialEcc) == t
  {
    AdvanceIs(t[k], t[k].tel);
  }

  lemma RefreshOldTable(s: State, r: Report)
    requires Core(s) && Found(s, r) && r.index > 0 && r.tel in {Ringing, Waiting}
    ensures RefreshOld(s, r).table == KnownAfter(s.table, ByKey(s.table, r.index, r.slot), r, s.dialEcc)
  {
    hide RefreshOld, Moved, RefreshIfNecessary, Standing;
    var k := ByKey(s.table, r.index, r.slot);
    var c := s.table[k];
    assert Settled(c);
    RefreshOldIs(s, r);
    if c.kind != r.kind || c.video != r.video {
      MovedTable(s, k, r, r.tel);
    } else if c.tel != r.tel {
      RefreshedTable(s, k, r);
    } else {
      StandingStill(s.table, k, r, s.dialEcc);
    }
  }

  lemma ArrivedIsMade(s: State, r: Report)
    requires r.tel in {Ringing, Waiting}
    ensures Arrived(s, r) == Made(s, r, Incoming)
  {
  }

  lemma CreateIncomingTable(s: State, r: Report)
    requires Core(s) && r.tel in {Ringing, Waiting}
    ensures CreateIncoming(s, r).table == if PlaceFor(s.table, r, 4) then s.table + [Made(s, r, Incoming)] else s.table
  {
    hide CreateIncoming, Arrived, Made;
    CreateIncomingEffect(s, r);
    ArrivedIsMade(s, r);
    FreshId(s);
    assert Made(s, r, Incoming).id == s.lastId + 1 && !Made(s, r, Incoming).ecc by {
      MadeIs(s, r, Incoming);
    }
  }

  lemma MadeIs(s: State, r: Report, dir: Direction)
    ensures Made(s, r, dir).id == s.lastId + 1 && (Made(s, r, dir).ecc <==> dir == Outgoing && s.dialEcc)
  {
  }

  /** What is left of an incoming report once an unnamed call has been failed. */
  lemma IncomingOn(s: State, r: Report)
    requires Core(s) && r.index > 0 && r.tel in {Ringing, Waiting}
    ensures var k, s' := ByKey(s.table, r.index, r.slot),
                         if Found(s, r) then RefreshOld(s, r) else CreateIncoming(s, r);
      s'.table == if k >= 0 then KnownAfter(s.table, k, r, s.dialEcc)
                  else if PlaceFor(s.table, r, 4) then s.table + [Made(s, r, Incoming)] else s.table
  {
    hide Core, KnownAfter, Made, RefreshOld, CreateIncoming;
    if Found(s, r) {
      RefreshOldTable(s, r);
    } else {
      CreateIncomingTable(s, r);
    }
  }

  lemma FailedFirst(s: State)
    requires Core(s)
    ensures var z, s0 := ByIndex(s.table, 0), FailUnnamed(s);
      && Core(s0) && s0.table == (if z < 0 then s.table else Without(s.table, z))
      && s0.lastId == s.lastId && s0.dialEcc == s.dialEcc
  {
    assert UniqueIds(s.table);
    hide FailUnnamed, Core;
    FailUnnamedTakes(s);
    FailUnnamedKeeps(s);
    if ByIndex(s.table, 0) >= 0 {
      DeleteIsWithout(s.table, ByIndex(s.table, 0));
    }
  }

  lemma MadeAlike(s: State, s0: State, r: Report)
    requires s0.lastId == s.lastId && s0.dialEcc == s.dialEcc
    ensures Made(s0, r, Incoming) == Made(s, r, Incoming)
  {
  }

  lemma IncomingTable(s: State, r: Report)
    requires Inv(s) && r.index > 0 && r.tel in {Ringing, Waiting}
    ensures Handle(s, r).table == IncomingAfter(s, r)
  {
    assert Core(s);
    hide Core, Inv, Handle, KnownAfter, Made, RefreshOld, CreateIncoming, FailUnnamed;
    FailedFirst(s);
    IncomingOn(FailUnnamed(s), r);
    MadeAlike(s, FailUnnamed(s), r);
    IncomingIs(s, r);
  }

  /** Failing a call uses no id and leaves the latest dial alone. */
  lemma FailUnnamedKeeps(s: State)
    requires Core(s)
    ensures FailUnnamed(s).lastId == s.lastId && FailUnnamed(s).dialEcc == s.dialEcc
  {
    var z := ByIndex(s.table, 0);
    if z >= 0 {
      var c, r := s.table[z], FailReport(s.table[z]);
      assert HasKey(c, 0, c.slot) && ByKey(s.table, 0, c.slot) == z;
      ConcludesIt(s, r);
      RefreshedForEnd(s, r);
      RefreshIfNecessaryIs(s, c, r);
      assert RefreshIfNecessary(s, c, r).s.lastId == s.lastId;
      ConcludedKeeps(RefreshIfNecessary(s, c, r));
    }
  }

  lemma ConcludedKeeps(h: Held)
    ensures Concluded(h).lastId == h.s.lastId && Concluded(h).dialEcc == h.s.dialEcc
  {
    hide Resume, Put, Delete, Advance;
    var h' := UpdateState(ClearPending(h.s, h.c), h.c, Disconnected);
    ResumeOnlySends(h'.s, h'.c, h.c.running, h.c.tel);
  }

  lemma CreateDialingTable(s: State, r: Report)
    requires Core(s) && r.tel == Dialing
    ensures CreateDialing(s, r).s.table == Making(s, r)
  {
    hide CreateDialing, Made;
    CreatingIs(s, r);
    CreateDialingEffect(s, r);
    CreatedIsMade(s, r);
  }

  lemma CreatedIsMade(s: State, r: Report)
    requires r.tel == Dialing
    ensures Created(s, r) == Made(s, r, Outgoing)
  {
  }

  lemma FirstDialing(s: State, r: Report)
    requires Inv(s) && r.index > 0 && !Found(s, r) && r.tel == Dialing
    ensures Handle(s, r).table == FirstAfter(s, r)
  {
    assert r.(tel := Dialing) == r;
    if ByKey(s.table, 0, r.slot) >= 0 {
      BoundTable(s, r);
    } else {
      CreateDialingTable(s, r);
      DialingCreates(s, r);
    }
    HandleDialing(s, r);
  }

  lemma HandleDialing(s: State, r: Report)
    requires r.tel == Dialing
    ensures Handle(s, r) == DialingHandle(s, r).s
  {
    hide DialingHandle;
  }

  /** The call made for an active or alerting report is dialing first. */
  lemma MakingMovesTable(s: State, r: Report)
    requires Inv(s) && r.index > 0 && !Found(s, r) && r.tel in {Active, Alerting}
    requires ByIndex(s.table, 0) >= 0 && ByKey(s.table, 0, r.slot) < 0
    ensures Handle(s, r).table == Making(s, r)
  {
    var r1 := r.(tel := Dialing);
    var s1 := CreateDialing(s, r1).s;
    LocateIs(s, r);
    DialingCreates(s, r);
    CreatingPresent(s, r1);
    CreateDialingTable(s, r1);
    LocatedMoves(s, r);
    if Creatable(s, r) {
      CreateDialingOk(s, r1);
      NotFlagged(s1, ByKey(s1.table, r.index, r.slot));
      MadeMovesOn(s, s1, r);
    }
  }

  lemma MadeMovesOn(s: State, s1: State, r: Report)
    requires Core(s1) && r.tel in {Active, Alerting} && ByKey(s.table, r.index, r.slot) < 0
    requires s1.table == s.table + [Made(s, r.(tel := Dialing), Outgoing)]
    ensures ByKey(s1.table, r.index, r.slot) == |s.table|
    ensures Moved(s1, |s.table|, r, r.tel).table == s.table + [Made(s, r, Outgoing)]
  {
    var c := Made(s, r.(tel := Dialing), Outgoing);
    AppendedIsFound(s.table, c);
    MovedTable(s1, |s.table|, r, r.tel);
    MovesOn(s1.table, |s.table|, c, r, r.tel, s1.dialEcc);
  }

  lemma FirstMoving(s: State, r: Report)
    requires Inv(s) && r.index > 0 && !Found(s, r) && r.tel in {Active, Alerting}
    ensures Handle(s, r).table == FirstAfter(s, r)
  {
    if ByIndex(s.table, 0) < 0 {
      LocateIs(s, r);
      LocatedMoves(s, r);
      NoneOnSlot(s.table, r.slot);
    } else if ByKey(s.table, 0, r.slot) >= 0 {
      NamingMoves(s, r);
    } else {
      MakingMovesTable(s, r);
    }
  }

  lemma NoneOnSlot(t: seq<Call>, slot: int)
    requires ByIndex(t, 0) < 0
    ensures ByKey(t, 0, slot) < 0
  {
  }

  /** A report of the end of a call nobody knows names or makes that call first, and then ends it. */
  lemma FirstEnding(s: State, r: Report)
    requires Inv(s) && r.index > 0 && !Found(s, r) && r.tel == Disconnected
    ensures Handle(s, r).table == FirstAfter(s, r)
  {
    var z := ByIndex(s.table, 0);
    EndIs(s, r);
    LocateIs(s, r);
    if ByKey(s.table, 0, r.slot) >= 0 {
      FirstUnnamed(s.table, r.slot);
      EndReaches(s, r);
      GoneIsWithout(s.table, Handle(s, r).table, z);
    } else if z < 0 {
      EndsNothing(s, r);
    } else {
      MadeIsEnded(s, r);
    }
  }

  lemma EndsNothing(s: State, r: Report)
    requires !Found(Locate(s, r), r)
    ensures DisconnectedHandle(s, r) == Locate(s, r)
  {
    hide Locate;
  }

  lemma MadeIsEnded(s: State, r: Report)
    requires Inv(s) && r.index > 0 && !Found(s, r) && r.tel == Disconnected
    requires ByIndex(s.table, 0) >= 0 && ByKey(s.table, 0, r.slot) < 0
    ensures DisconnectedHandle(s, r).table == s.table
  {
    var r1 := r.(tel := Dialing);
    var s1 := CreateDialing(s, r1).s;
    LocateIs(s, r);
    DialingCreates(s, r);
    CreatingPresent(s, r1);
    CreateDialingTable(s, r1);
    CreateDialingOk(s, r1);
    if Creatable(s, r) {
      EndsTheLocated(s, r);
      AppendedIsFound(s.table, Made(s, r1, Outgoing));
      DisconnectedFoundOk(s1, r);
      MadeIs(s, r1, Outgoing);
      FreshId(s);
      AppendThenDelete(s.table, Made(s, r1, Outgoing));
    } else {
      EndsNothing(s, r);
    }
  }

  /** Every report about a named call leaves exactly the table the reference says. */
  lemma ReportedTable(s: State, r: Report)
    requires Inv(s) && r.index > 0
    ensures Handle(s, r).table == TableAfter(s, r)
  {
    hide IncomingAfter, KnownAfter, FirstAfter, ActiveHandle, AlertHandle, IncomingHandle, DialingHandle,
      DisconnectedHandle;
    if r.tel in {Ringing, Waiting} {
      IncomingTable(s, r);
    } else if r.tel == Tel.Other {
    } else if Found(s, r) {
      if r.tel == Disconnected {
        EndedTable(s, r);
      } else {
        KnownTable(s, r);
      }
    } else {
      match r.tel
      case Dialing => FirstDialing(s, r);
      case Active | Alerting => FirstMoving(s, r);
      case Disconnected => FirstEnding(s, r);
      case _ =>
    }
  }

  // ---------------------------------------------------------------- the reported call

  /** The call under a key. */
  function CallAt(t: seq<Call>, index: int, slot: int): Option<Call> {
    var k := ByKey(t, index, slot);
    if k < 0 then None else Some(t[k])
  }

  /** What a report makes of a call it knows. */
  function KnownCall(c: Call, r: Report, dialEcc: bool): Call {
    if r.tel == Tel.Other || (r.tel == Alerting && c.tel == Disconnecting) then c
    else InState(Refreshed(c, r, dialEcc), if Takes(c, r) then r.tel else c.tel)
  }

  /** The call that a report leaves under its key: the one it knows, one it makes, or the dialed one it names. */
  function CallAfter(s: State, r: Report): Option<Call> {
    var z := ByIndex(s.table, 0);
    if !Present(s, r) then None
    else if Found(s, r) then Some(KnownCall(Known(s, r), r, s.dialEcc))
    else if r.tel in {Ringing, Waiting} then Some(Made(s, r, Incoming))
    else if ByKey(s.table, 0, r.slot) >= 0 && z >= 0 then Some(InState(NamedCall(s.table[z], r, s.dialEcc), r.tel))
    else Some(Made(s, r, Outgoing))
  }

  lemma HasCall(t: seq<Call>, c: Call, r: Report)
    requires UniqueKeys(t) && c in t && r.index > 0 && HasKey(c, r.index, r.slot)
    ensures CallAt(t, r.index, r.slot) == Some(c)
  {
    var i :| 0 <= i < |t| && t[i] == c;
    KeyIsHis(t, i, r);
  }

  lemma PlacedIn(t: seq<Call>, k: int, c: Call, toEnd: bool)
    requires 0 <= k < |t|
    ensures c in Placed(t, k, c, toEnd)
  {
    if toEnd {
      assert Placed(t, k, c, toEnd)[|t| - 1] == c;
    } else {
      assert Placed(t, k, c, toEnd)[k] == c;
    }
  }

  lemma KnownStays(t: seq<Call>, k: int, r: Report, dialEcc: bool)
    requires 0 <= k < |t| && r.tel != Tel.Other && (PassedOver(t[k], r) || !Loses(t, t[k], r))
    ensures KnownCall(t[k], r, dialEcc) in KnownAfter(t, k, r, dialEcc)
  {
    var c := t[k];
    PlacedIn(t, k, InState(Refreshed(c, r, dialEcc), if Takes(c, r) then r.tel else c.tel), TypeChanges(c, r));
  }

  lemma IncomingStays(s: State, r: Report)
    requires Inv(s) && r.index > 0 && Found(s, r) && r.tel in {Ringing, Waiting}
    requires !Loses(LookedUp(s, r).table, Known(s, r), r)
    ensures KnownCall(Known(s, r), r, s.dialEcc) in IncomingAfter(s, r)
  {
    assert Core(s) && UniqueIds(s.table);
    hide KnownCall, KnownAfter, FailUnnamed, Inv, Core, Loses;
    var z, t := ByIndex(s.table, 0), LookedUp(s, r).table;
    StillKnown(s, r);
    FailUnnamedTakes(s);
    if z >= 0 {
      DeleteIsWithout(s.table, z);
    }
    KnownStays(t, ByKey(t, r.index, r.slot), r, s.dialEcc);
  }

  lemma KnownCallIn(s: State, r: Report)
    requires Inv(s) && r.index > 0 && Found(s, r) && Present(s, r)
    ensures KnownCall(Known(s, r), r, s.dialEcc) in TableAfter(s, r)
  {
    hide Handle, KnownCall, KnownAfter, IncomingAfter, FirstAfter, Inv, FailUnnamed, TakesUp, Loses;
    if r.tel == Tel.Other {
      StaysAsItIs(Known(s, r), r, s.dialEcc);
    } else if r.tel in {Ringing, Waiting} {
      IncomingStays(s, r);
    } else {
      KnownStays(s.table, ByKey(s.table, r.index, r.slot), r, s.dialEcc);
    }
  }

  lemma StaysAsItIs(c: Call, r: Report, dialEcc: bool)
    requires r.tel == Tel.Other
    ensures KnownCall(c, r, dialEcc) == c
  {
  }

  lemma IncomingMade(s: State, r: Report)
    requires Inv(s) && r.index > 0 && !Found(s, r) && Present(s, r) && r.tel in {Ringing, Waiting}
    ensures Made(s, r, Incoming) in IncomingAfter(s, r)
  {
    assert Core(s) && UniqueIds(s.table);
    assert PlaceFor(FailUnnamed(s).table, r, 4) by {
      hide FailUnnamed, Found, Inv;
    }
    hide Made, KnownAfter, FailUnnamed, Inv, Core, Handle, Present, TakesUp;
    FailUnnamedTakes(s);
    StillUnknown(s, r);
    if ByIndex(s.table, 0) >= 0 {
      DeleteIsWithout(s.table, ByIndex(s.table, 0));
    }
  }

  lemma FirstCallIn(s: State, r: Report)
    requires Inv(s) && r.index > 0 && !Found(s, r) && Present(s, r)
    ensures CallAfter(s, r).Some? && CallAfter(s, r).value in TableAfter(s, r)
  {
    hide Made, NamedCall, InState, Naming, KnownAfter, IncomingAfter, KnownCall, Handle, FailUnnamed, Inv;
    if r.tel in {Ringing, Waiting} {
      IncomingMade(s, r);
    } else if ByKey(s.table, 0, r.slot) >= 0 {
      FirstUnnamed(s.table, r.slot);
      NamingKeeps(s.table, ByIndex(s.table, 0), r, s.dialEcc);
    }
  }

  lemma NamingKeeps(t: seq<Call>, z: int, r: Report, dialEcc: bool)
    requires 0 <= z < |t|
    ensures InState(NamedCall(t[z], r, dialEcc), r.tel) in Naming(t, z, r, r.tel, dialEcc)
  {
    PlacedIn(t, z, InState(NamedCall(t[z], r, dialEcc), r.tel), TypeChanges(t[z], r));
  }

  lemma CallAfterHasKey(s: State, r: Report)
    requires CallAfter(s, r).Some?
    ensures HasKey(CallAfter(s, r).value, r.index, r.slot)
  {
    hide Present;
  }

  /** After any report the call under its key, in all its parts: state, type, video, mark, direction and the rest. */
  lemma ReportedCall(s: State, r: Report)
    requires Inv(s) && r.index > 0
    ensures CallAt(Handle(s, r).table, r.index, r.slot) == CallAfter(s, r)
  {
    hide Handle, Present, TableAfter;
    CallIsPresent(s, r);
    if Present(s, r) {
      HandleOk(s, r);
      ReportedTable(s, r);
      if Found(s, r) {
        KnownCallIn(s, r);
      } else {
        FirstCallIn(s, r);
      }
      CallAfterHasKey(s, r);
      HasCall(Handle(s, r).table, CallAfter(s, r).value, r);
    }
  }

  /** Among them the state: the reported one, unless the call was known and does not follow the report; then it is the
      state it had. */
  lemma ReportedStateHolds(s: State, r: Report)
    requires Inv(s) && r.index > 0
    ensures var c := CallAt(Handle(s, r).table, r.index, r.slot);
      && (c.Some? <==> Present(s, r))
      && (c.Some? ==> c.value.tel == if Found(s, r) && !Follows(Known(s, r), r) then Known(s, r).tel else r.tel)
  {
    hide Handle, Present;
    ReportedCall(s, r);
  }
}
