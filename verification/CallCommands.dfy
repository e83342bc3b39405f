/** Reference definitions of what a report sends and of the flags it leaves, and the handlers proved to do just that. */
module CallCommands {
  import opened Options
  import opened CallTable
  import opened CallHandlers
  import opened CallSafety
  import opened CallOutcomes
  import opened CallPresence
  import opened CallReference

  // ---------------------------------------------------------------- the held call that is resumed

  /** The last call that is held. */
  function LastHeld(t: seq<Call>): (k: int)
    ensures -1 <= k < |t|
    ensures k >= 0 ==> t[k].tel == Holding
    ensures forall j | k < j < |t| :: t[j].tel != Holding
  {
    if t == [] then -1
    else if t[|t| - 1].tel == Holding then |t| - 1
    else LastHeld(t[..|t| - 1])
  }

  /** Nobody talks, rings, waits or is being alerted. */
  predicate Quiet(t: seq<Call>) {
    forall i | 0 <= i < |t| :: t[i].tel !in {Active, Waiting, Ringing, Alerting}
  }

  /** The end of a call that was being hung up resumes the last held call, if that is of the same slot, nobody else is
      about, and no reject has forbidden it. */
  function Wakes(t: seq<Call>, c: Call): seq<Command> {
    var k := LastHeld(t);
    if c.tel == Disconnecting && k >= 0 && Quiet(t) && t[k].resumable && t[k].slot == c.slot then [UnHold(t[k].id)]
    else []
  }

  predicate AllAgree(t: seq<Call>) {
    forall i | 0 <= i < |t| :: Agrees(t[i])
  }

  /** The same call is the last held one in both tables, or there is none in either. */
  predicate SameHeld(t: seq<Call>, u: seq<Call>) {
    var i, j := LastHeld(t), LastRunning(u, Hold);
    (i < 0 <==> j < 0) && (i >= 0 ==> u[j] == t[i])
  }

  lemma LastHeldAgrees(t: seq<Call>)
    requires AllAgree(t)
    ensures SameHeld(t, t)
  {
    var i, j := LastHeld(t), LastRunning(t, Hold);
    assert i >= 0 ==> Agrees(t[i]);
    assert j >= 0 ==> Agrees(t[j]);
  }

  lemma WithoutAt(t: seq<Call>, k: int)
    requires 0 <= k < |t|
    ensures var u := Without(t, k);
      |u| == |t| - 1 && forall j | 0 <= j < |u| :: u[j] == t[if j < k then j else j + 1]
  {
  }

  lemma HeldAppendBoth(t: seq<Call>, u: seq<Call>, c: Call)
    requires SameHeld(t, u) && Agrees(c)
    ensures SameHeld(t + [c], u + [c])
  {
    assert (t + [c])[..|t|] == t && (u + [c])[..|u|] == u;
  }

  lemma NotHeldLast(t: seq<Call>, c: Call)
    requires AllAgree(t) && c.tel != Holding
    ensures SameHeld(t + [c], t)
  {
    assert (t + [c])[..|t|] == t;
    LastHeldAgrees(t);
  }

  lemma {:induction false} HeldWithout(t: seq<Call>, k: int)
    requires AllAgree(t) && 0 <= k < |t| && t[k].tel != Holding
    ensures SameHeld(t, Without(t, k))
  {
    hide SameHeld;
    var n := |t| - 1;
    var init := t[..n];
    assert t == init + [t[n]];
    if k == n {
      assert Without(t, k) == init;
      NotHeldLast(init, t[n]);
    } else {
      assert Without(t, k) == Without(init, k) + [t[n]];
      HeldWithout(init, k);
      HeldAppendBoth(init, Without(init, k), t[n]);
    }
  }

  lemma HeldAppend(t: seq<Call>, u: seq<Call>, c: Call)
    requires SameHeld(t, u) && c.running != Hold
    ensures SameHeld(t, u + [c])
  {
    assert (u + [c])[..|u|] == u;
  }

  lemma HeldUpdate(t: seq<Call>, k: int, c: Call)
    requires AllAgree(t) && 0 <= k < |t| && t[k].tel != Holding && c.running != Hold
    ensures SameHeld(t, t[k := c])
  {
    var u := t[k := c];
    var i, j := LastHeld(t), LastRunning(u, Hold);
    assert i >= 0 ==> Agrees(t[i]) && u[i] == t[i];
    if j >= 0 {
      assert Agrees(t[j]) && u[j] == t[j];
      forall q | j < q < |t| ensures t[q].tel != Holding {
        if q != k {
          assert Agrees(t[q]) && u[q] == t[q];
        }
      }
    }
  }

  /** The table while the call at k is being ended. */
  predicate Ends(t: seq<Call>, k: int, c: Call, u: seq<Call>)
    requires 0 <= k < |t|
  {
    u == Without(t, k) || u == Without(t, k) + [c] || u == t[k := c]
  }

  lemma HeldWhileEnding(t: seq<Call>, k: int, c: Call, u: seq<Call>)
    requires AllAgree(t) && 0 <= k < |t| && t[k].tel != Holding && c.running == Ended && Ends(t, k, c, u)
    ensures SameHeld(t, u)
  {
    HeldWithout(t, k);
    HeldAppend(t, Without(t, k), c);
    HeldUpdate(t, k, c);
  }

  lemma QuietWhileEnding(t: seq<Call>, k: int, c: Call, u: seq<Call>)
    requires 0 <= k < |t| && t[k].tel == Disconnecting && c.tel == Disconnected && Ends(t, k, c, u)
    ensures CanUnHold(u) <==> Quiet(t)
  {
    WithoutAt(t, k);
    forall i | 0 <= i < |u| ensures u[i] == c || u[i] in t {
    }
    forall i | 0 <= i < |t| && i != k ensures t[i] in u {
      assert Without(t, k)[if i < k then i else i - 1] == t[i];
      assert u == t[k := c] ==> u[i] == t[i];
      assert u == Without(t, k) + [c] ==> u[if i < k then i else i - 1] == t[i];
    }
  }

  lemma ResumeWakes(s: State, t: seq<Call>, k: int, c: Call, c': Call)
    requires AllAgree(t) && 0 <= k < |t| && Ends(t, k, c', s.table) && c' == InState(c, Disconnected)
    requires c.tel == t[k].tel && c.running == t[k].running && c.slot == t[k].slot
    ensures Resume(s, c', c.running, c.tel).log == s.log + Wakes(t, t[k])
  {
    assert Agrees(t[k]);
    if c.tel == Disconnecting {
      HeldWhileEnding(t, k, c', s.table);
      QuietWhileEnding(t, k, c', s.table);
    }
  }

  /** What the end of a call sends. */
  lemma EndedLog(s: State, r: Report)
    requires Core(s) && Found(s, r) && r.index >= 0
    ensures var k := ByKey(s.table, r.index, r.slot);
      DisconnectedHandle(s, r).log
      == s.log + Owed(s, s.table[k].id, r.slot, r.index) + Wakes(s.table, s.table[k])
  {
    var t, k := s.table, ByKey(s.table, r.index, r.slot);
    var h := RefreshIfNecessary(s, t[k], r);
    RefreshedForEnd(s, r);
    ConcludesIt(s, r);
    RefreshIfNecessaryOk(s, k, r);
    EndingTable(s, k, r);
    ClearPendingOk(h.s, h.c);
    var h' := UpdateState(ClearPending(h.s, h.c), h.c, Disconnected);
    ResumeWakes(h'.s, t, k, h.c, h'.c);
    assert Concluded(h).log == Resume(h'.s, h'.c, h.c.running, h.c.tel).log;
  }

  lemma EndingTable(s: State, k: int, r: Report)
    requires TableSafe(s) && 0 <= k < |s.table| && r.index >= 0 && About(s, s.table[k], r)
    requires r.index == 0 ==> s.table[k].index == 0
    ensures var h := RefreshIfNecessary(s, s.table[k], r); var c' := Advance(h.c, Disconnected);
      c' == InState(h.c, Disconnected) && Ends(s.table, k, c', Put(h.s.table, c'))
      && AllAgree(s.table)
  {
    var t, c, h := s.table, s.table[k], RefreshIfNecessary(s, s.table[k], r);
    assert forall i | 0 <= i < |t| :: CallOk(t[i], s.lastId, s.dialEcc);
    RefreshTable(s, k, r);
    RefreshIfNecessaryOk(s, k, r);
    AdvanceIs(h.c, Disconnected);
    if Loses(t, c, r) {
      LostPut(t, k, Advance(h.c, Disconnected));
    } else {
      PlacedPut(t, k, h.c, Advance(h.c, Disconnected), TypeChanges(c, r));
    }
  }

  // ---------------------------------------------------------------- the flags and the commands of a report

  /** The call that the flags stop naming: the one that gets its index or ends without, or the one that an incoming
      call fails. */
  function Freed(s: State, r: Report): Option<int> {
    var z := ByIndex(s.table, 0);
    if z < 0 then None
    else if r.tel == Ringing || r.tel == Waiting then Some(s.table[z].id)
    else if r.tel != Holding && r.tel != Disconnecting && r.tel != Tel.Other && ByKey(s.table, r.index, r.slot) < 0
            && ByKey(s.table, 0, r.slot) >= 0 then Some(s.table[z].id)
    else None
  }

  /** The hang-up that waits for that call goes out, with the key the call has then. */
  function Waited(s: State, r: Report): seq<Command> {
    if Freed(s, r).None? || s.hang != Freed(s, r) then []
    else if r.tel == Ringing || r.tel == Waiting
      then [Deferred(s.hang.value, s.table[ByIndex(s.table, 0)].slot, 0)]
    else [Deferred(s.hang.value, r.slot, r.index)]
  }

  /** The end of a known call may resume another one. */
  function Woken(s: State, r: Report): seq<Command> {
    var k := ByKey(s.table, r.index, r.slot);
    if r.tel == Disconnected && k >= 0 then Wakes(s.table, s.table[k]) else []
  }

  /** An incoming call without a place is rejected. */
  function Rejected(s: State, r: Report): seq<Command> {
    var z := ByIndex(s.table, 0);
    var t := if z < 0 then s.table else Without(s.table, z);
    if (r.tel == Ringing || r.tel == Waiting) && ByKey(t, r.index, r.slot) < 0 && r.kind != CallType.Other && |t| >= 4
    then [HangUp(s.lastId + 1, r.slot, r.index)] else []
  }

  /** Everything but the table and the id counter. */
  predicate Rest(s: State, s': State, freed: Option<int>, sent: seq<Command>) {
    && s'.mo == (if freed.Some? && s.mo == freed then None else s.mo)
    && s'.hang == (if freed.Some? && s.hang == freed then None else s.hang)
    && s'.protect == (if freed.Some? && s.hang == freed then None else s.protect)
    && s'.log == s.log + sent && s'.dialEcc == s.dialEcc
  }

  lemma RestSame(s: State, s': State)
    requires SameFlags(s, s')
    ensures Rest(s, s', None, [])
  {
  }

  lemma RestThen(s: State, s1: State, s2: State, freed: Option<int>, sent: seq<Command>, more: seq<Command>)
    requires Rest(s, s1, freed, sent) && Rest(s1, s2, None, more)
    ensures Rest(s, s2, freed, sent + more)
  {
    assert (s.log + sent) + more == s.log + (sent + more);
  }

  /** The end of a call of the table. */
  lemma EndRest(s: State, r: Report)
    requires Core(s) && Found(s, r) && r.index >= 0
    ensures var c := Known(s, r);
      Rest(s, DisconnectedHandle(s, r), Some(c.id), Owed(s, c.id, r.slot, r.index) + Wakes(s.table, c))
  {
    hide DisconnectedHandle, Wakes;
    DisconnectedFoundOk(s, r);
    EndedLog(s, r);
    var c := Known(s, r);
    assert s.log + (Owed(s, c.id, r.slot, r.index) + Wakes(s.table, c))
        == s.log + Owed(s, c.id, r.slot, r.index) + Wakes(s.table, c);
  }

  /** A named call is in no flag. */
  lemma NamedEndRest(s: State, r: Report)
    requires Core(s) && Found(s, r) && r.index > 0
    ensures Rest(s, DisconnectedHandle(s, r), None, Wakes(s.table, Known(s, r)))
  {
    hide DisconnectedHandle, Wakes;
    EndRest(s, r);
    NotFlagged(s, ByKey(s.table, r.index, r.slot));
    assert [] + Wakes(s.table, Known(s, r)) == Wakes(s.table, Known(s, r));
  }

  lemma FailRest(s: State)
    requires Core(s)
    ensures var z := ByIndex(s.table, 0);
      if z < 0 then FailUnnamed(s) == s
      else Rest(s, FailUnnamed(s), Some(s.table[z].id), Owed(s, s.table[z].id, s.table[z].slot, 0))
  {
    hide DisconnectedHandle;
    var z := ByIndex(s.table, 0);
    if z >= 0 {
      var c := s.table[z];
      assert Settled(c) && HasKey(c, 0, c.slot) && ByKey(s.table, 0, c.slot) == z;
      EndRest(s, FailReport(c));
      assert Owed(s, c.id, c.slot, 0) + [] == Owed(s, c.id, c.slot, 0);
    }
  }

  lemma BindingRest(s: State, r: Report)
    requires Core(s) && r.index > 0 && r.tel == Dialing && Binds(s, r)
    ensures var id := s.table[ByIndex(s.table, 0)].id;
      ByIndex(s.table, 0) >= 0 && Rest(s, DialingHandle(s, r).s, Some(id), Owed(s, id, r.slot, r.index))
  {
    var z := ByIndex(s.table, 0);
    FirstUnnamed(s.table, r.slot);
    var h := RefreshIfNecessary(s, s.table[z], r);
    var s2 := h.s.(table := Put(h.s.table, Bound(h.c, r)));
    BindUnnamedOk(s, r, z);
    ClearPendingOk(s2, Bound(h.c, r));
    assert DialingHandle(s, r).s == ClearPending(s2, Bound(h.c, r));
  }

  lemma CreatingRest(s: State, r: Report)
    requires Core(s) && r.index > 0 && r.tel == Dialing
    ensures Rest(s, CreateDialing(s, r).s, None, [])
  {
    hide CreateDialing;
    CreateDialingEffect(s, r);
  }

  lemma CreateIncomingRest(s: State, r: Report)
    requires Core(s) && r.tel in {Ringing, Waiting}
    ensures Rest(s, CreateIncoming(s, r), None,
                 if r.kind != CallType.Other && |s.table| >= 4 then [HangUp(s.lastId + 1, r.slot, r.index)] else [])
  {
    hide CreateIncoming;
    CreateIncomingEffect(s, r);
    FreshId(s);
  }

  lemma KnownRest(s: State, r: Report)
    requires Inv(s) && Found(s, r) && r.index > 0 && r.tel in {Active, Holding, Disconnecting, Dialing, Alerting}
    ensures Rest(s, Handle(s, r), None, [])
  {
    KnownTaken(s, r);
    RestSame(s, Handle(s, r));
  }

  lemma FailedRest(s: State, r: Report)
    requires Core(s) && r.tel in {Ringing, Waiting}
    ensures Rest(s, FailUnnamed(s), Freed(s, r), Waited(s, r))
  {
    hide FailUnnamed;
    FailRest(s);
    assert s.log + [] == s.log;
  }

  lemma ArrivingRest(s: State, r: Report)
    requires Core(s) && r.tel in {Ringing, Waiting} && !Found(FailUnnamed(s), r)
    ensures Core(FailUnnamed(s)) && Rest(FailUnnamed(s), CreateIncoming(FailUnnamed(s), r), None, Rejected(s, r))
  {
    hide CreateIncoming, FailUnnamed, Rest;
    FailUnnamedTakes(s);
    FailUnnamedKeeps(s);
    if ByIndex(s.table, 0) >= 0 {
      DeleteIsWithout(s.table, ByIndex(s.table, 0));
    }
    CreateIncomingRest(FailUnnamed(s), r);
  }

  lemma KnownRejectsNone(s: State, r: Report)
    requires Core(s) && Found(FailUnnamed(s), r)
    ensures Rejected(s, r) == [] && Core(FailUnnamed(s))
  {
    hide FailUnnamed;
    FailUnnamedTakes(s);
    if ByIndex(s.table, 0) >= 0 {
      DeleteIsWithout(s.table, ByIndex(s.table, 0));
    }
  }

  lemma IncomingRest(s: State, r: Report)
    requires Inv(s) && r.index > 0 && r.tel in {Ringing, Waiting}
    ensures Rest(s, Handle(s, r), Freed(s, r), Waited(s, r) + Rejected(s, r))
  {
    hide RefreshOld, CreateIncoming, FailUnnamed, Handle, Rest, Rejected, Freed, Waited;
    var s0 := FailUnnamed(s);
    FailedRest(s, r);
    IncomingIs(s, r);
    if Found(s0, r) {
      KnownRejectsNone(s, r);
      RefreshOldOk(s0, r);
      RestSame(s0, RefreshOld(s0, r));
    } else {
      ArrivingRest(s, r);
    }
    RestThen(s, s0, Handle(s, r), Freed(s, r), Waited(s, r), Rejected(s, r));
  }

  /** The calls named or made for a first report are dialing and are of its type. */
  lemma LocatedRest(s: State, r: Report)
    requires Inv(s) && r.index > 0 && !Found(s, r) && r.tel in {Dialing, Active, Alerting, Disconnected}
    requires r.tel == Dialing || ByIndex(s.table, 0) >= 0
    ensures Rest(s, BoundFirst(s, r), Freed(s, r), Waited(s, r))
  {
    hide DialingHandle, CreateDialing, Rest;
    if ByKey(s.table, 0, r.slot) >= 0 {
      FirstUnnamed(s.table, r.slot);
      BindingRest(s, r.(tel := Dialing));
    } else {
      DialingCreates(s, r);
      CreatingRest(s, r.(tel := Dialing));
    }
  }

  lemma LocatedDials(s: State, r: Report)
    requires Inv(s) && r.index > 0 && !Found(s, r) && r.tel in {Dialing, Active, Alerting, Disconnected}
    requires r.tel == Dialing || ByIndex(s.table, 0) >= 0
    ensures Core(BoundFirst(s, r))
    ensures Found(BoundFirst(s, r), r) ==> Known(BoundFirst(s, r), r).tel == Dialing
  {
    hide DialingHandle, CreateDialing;
    DialingHandleOk(s, r.(tel := Dialing));
    if ByKey(s.table, 0, r.slot) >= 0 {
      BoundIsKnown(s, r);
    } else {
      DialingCreates(s, r);
      CreatingPresent(s, r.(tel := Dialing));
    }
  }

  lemma MovedRest(s: State, r: Report)
    requires Core(s) && Found(s, r) && r.index > 0 && r.tel in {Active, Alerting}
    ensures Rest(s, Moved(s, ByKey(s.table, r.index, r.slot), r, r.tel), None, [])
  {
    MovedOk(s, ByKey(s.table, r.index, r.slot), r, r.tel);
    RestSame(s, Moved(s, ByKey(s.table, r.index, r.slot), r, r.tel));
  }

  lemma FirstMovingRest(s: State, r: Report)
    requires Inv(s) && r.index > 0 && !Found(s, r) && r.tel in {Active, Alerting}
    ensures Rest(s, Handle(s, r), Freed(s, r), Waited(s, r))
  {
    hide Handle, Moved, DialingHandle;
    LocateIs(s, r);
    LocatedMoves(s, r);
    if ByIndex(s.table, 0) < 0 {
      NoneOnSlot(s.table, r.slot);
      assert s.log + [] == s.log;
    } else {
      var s1 := BoundFirst(s, r);
      LocatedRest(s, r);
      LocatedDials(s, r);
      if Found(s1, r) {
        NotFlagged(s1, ByKey(s1.table, r.index, r.slot));
        MovedRest(s1, r);
        RestThen(s, s1, Handle(s, r), Freed(s, r), Waited(s, r), []);
        assert Waited(s, r) + [] == Waited(s, r);
      }
    }
  }

  lemma FirstEndingRest(s: State, r: Report)
    requires Inv(s) && r.index > 0 && !Found(s, r) && r.tel == Disconnected
    ensures Rest(s, DisconnectedHandle(s, r), Freed(s, r), Waited(s, r))
  {
    hide DialingHandle, Concluded;
    LocateIs(s, r);
    if ByIndex(s.table, 0) < 0 {
      NoneOnSlot(s.table, r.slot);
      EndsNothing(s, r);
      assert s.log + [] == s.log;
    } else {
      var s1 := BoundFirst(s, r);
      LocatedRest(s, r);
      LocatedDials(s, r);
      if Found(s1, r) {
        EndsTheLocated(s, r);
        NamedEndRest(s1, r);
        RestThen(s, s1, DisconnectedHandle(s, r), Freed(s, r), Waited(s, r), Wakes(s1.table, Known(s1, r)));
        assert Waited(s, r) + [] == Waited(s, r);
      } else {
        EndsNothing(s, r);
      }
    }
  }

  lemma KnownSendsNothing(s: State, r: Report)
    requires Found(s, r) && r.tel !in {Ringing, Waiting}
    ensures Freed(s, r) == None && Waited(s, r) == [] && Rejected(s, r) == []
    ensures r.tel != Disconnected ==> Woken(s, r) == []
  {
  }

  lemma OtherIsIdle(s: State, r: Report)
    requires r.tel == Tel.Other
    ensures Handle(s, r) == s
  {
    hide ActiveHandle, AlertHandle, IncomingHandle, DialingHandle, DisconnectedHandle;
  }

  /** What a report about a named call does besides the table, in one form: it frees at most the call it names, ends or
      fails, and sends the hang-up that waited for that call, the resumption of another call, or a rejection. */
  lemma ReportedRest(s: State, r: Report)
    requires Inv(s) && r.index > 0
    ensures Rest(s, Handle(s, r), Freed(s, r), Waited(s, r) + Woken(s, r) + Rejected(s, r))
  {
    hide Handle, Wakes, Rest;
    assert Waited(s, r) + [] == Waited(s, r) && Waited(s, r) + [] + Rejected(s, r) == Waited(s, r) + Rejected(s, r);
    if r.tel in {Ringing, Waiting} {
      IncomingRest(s, r);
    } else if r.tel == Tel.Other {
      OtherIsIdle(s, r);
      StillRest(s, r);
    } else if Found(s, r) {
      KnownSendsNothing(s, r);
      if r.tel == Disconnected {
        EndIs(s, r);
        NamedEndRest(s, r);
        assert [] + Woken(s, r) + [] == Woken(s, r);
      } else {
        KnownRest(s, r);
      }
    } else if r.tel in {Holding, Disconnecting} {
      IdlePresent(s, r);
      StillRest(s, r);
    } else if r.tel == Dialing {
      LocatedRest(s, r);
      HandleDialing(s, r);
      assert r.(tel := Dialing) == r;
    } else if r.tel == Disconnected {
      EndIs(s, r);
      FirstEndingRest(s, r);
    } else {
      FirstMovingRest(s, r);
    }
  }

  lemma StillRest(s: State, r: Report)
    requires Freed(s, r) == None && Woken(s, r) == [] && Rejected(s, r) == []
    ensures Rest(s, s, Freed(s, r), Waited(s, r) + Woken(s, r) + Rejected(s, r))
  {
    assert s.log + [] == s.log;
  }

  // ---------------------------------------------------------------- the hang-up that waits

  /** What a report sends for the call that waits: an incoming one fails the first unnamed call, which still has index
      0, and one that binds gives it its key first. */
  function Due(s: State, r: Report): seq<Command> {
    var z := ByIndex(s.table, 0);
    if z < 0 then []
    else if r.tel in {Ringing, Waiting} then Owed(s, s.table[z].id, s.table[z].slot, 0)
    else if Binds(s, r) then Owed(s, s.table[z].id, r.slot, r.index)
    else []
  }

  lemma DueIsWaited(s: State, r: Report)
    ensures Due(s, r) == Waited(s, r)
    ensures Waited(s, r) == [] <==> Freed(s, r).None? || s.hang != Freed(s, r)
  {
  }

  lemma NoneDeferred(log: seq<Command>, cmds: seq<Command>)
    requires |cmds| <= 1 && forall cmd | cmd in cmds :: !cmd.Deferred?
    ensures Deferrals(log + cmds) == Deferrals(log)
  {
    if cmds == [] {
      assert log + cmds == log;
    } else {
      DeferralsOfOne(log, cmds[0]);
      assert cmds == [cmds[0]];
    }
  }

  lemma OneDeferred(log: seq<Command>, cmds: seq<Command>)
    requires |cmds| <= 1 && forall cmd | cmd in cmds :: cmd.Deferred?
    ensures Deferrals(log + cmds) == Deferrals(log) + cmds
  {
    if cmds == [] {
      assert log + cmds == log && Deferrals(log) + cmds == Deferrals(log);
    } else {
      DeferralsOfOne(log, cmds[0]);
      assert cmds == [cmds[0]];
    }
  }

  lemma KindsOfCommands(s: State, r: Report)
    ensures |Waited(s, r)| <= 1 && forall cmd | cmd in Waited(s, r) :: cmd.Deferred?
    ensures |Woken(s, r)| <= 1 && forall cmd | cmd in Woken(s, r) :: !cmd.Deferred?
    ensures |Rejected(s, r)| <= 1 && forall cmd | cmd in Rejected(s, r) :: !cmd.Deferred?
  {
  }

  lemma OnlyTheWaiting(s: State, r: Report)
    ensures Deferrals(s.log + (Waited(s, r) + Woken(s, r) + Rejected(s, r))) == Deferrals(s.log) + Waited(s, r)
  {
    KindsOfCommands(s, r);
    hide Waited, Woken, Rejected, Deferrals;
    var a, b, c := Waited(s, r), Woken(s, r), Rejected(s, r);
    OneDeferred(s.log, a);
    NoneDeferred(s.log + a, b);
    NoneDeferred(s.log + a + b, c);
    assert s.log + (a + b + c) == s.log + a + b + c;
  }

  /** The hang-up that waits goes out exactly when it is due, once, with the key of the report; the flag and the protect
      task go with it. No other report sends one. */
  lemma DeferredHangUpIsSent(s: State, r: Report)
    requires Inv(s) && r.index > 0
    ensures Sends(s, Handle(s, r), Due(s, r))
  {
    hide Inv, Handle, Deferrals, Waited, Woken, Rejected, Freed, Due;
    ReportedRest(s, r);
    DueIsWaited(s, r);
    OnlyTheWaiting(s, r);
  }

  /** Over any report a deferred hang-up keeps waiting exactly as long as its call is in the table without an index;
      when that ends, it has gone out once. */
  lemma HangUpWaitsOrGoesOut(s: State, r: Report, id: int)
    requires Inv(s) && r.index > 0 && s.hang == Some(id)
    ensures var s' := Handle(s, r);
      if Unnamed(s'.table, id) then s'.hang == Some(id) && Deferrals(s'.log) == Deferrals(s.log)
      else s'.hang == None && exists slot, index :: Deferrals(s'.log) == Deferrals(s.log) + [Deferred(id, slot, index)]
  {
    DeferredHangUpIsSent(s, r);
    HandleOk(s, r);
    if Due(s, r) != [] {
      if r.tel in {Ringing, Waiting} {
        FailedIsGone(s, r, id);
      } else {
        ReachedIsNotUnnamed(s, r);
      }
      var d := Due(s, r)[0];
      assert Deferrals(Handle(s, r).log) == Deferrals(s.log) + [Deferred(id, d.slot, d.index)];
    }
  }
}
