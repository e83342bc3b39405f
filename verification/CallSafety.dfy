/** What every task on the main loop keeps: the table, the two state views and the pending flags. */
module CallSafety {
  import opened Options
  import opened CallTable
  import opened CallHandlers

  predicate TableSafe(s: State) {
    TableOk(s.table, s.lastId, s.dialEcc)
  }

  predicate FlagOk(t: seq<Call>, flag: Option<int>, but: Option<int>) {
    flag.Some? && flag != but ==> Unnamed(t, flag.value)
  }

  /** The flags name calls the stack has not named, and not the same one; without a deferred hang-up there is no
      protect task. A handler at work on a call leaves out the flags that name it. */
  predicate FlagsBut(s: State, but: Option<int>) {
    && FlagOk(s.table, s.mo, but) && FlagOk(s.table, s.hang, but)
    && (s.mo.Some? ==> s.mo != s.hang)
    && (s.hang.None? ==> s.protect.None?)
  }

  predicate Core(s: State) {
    TableSafe(s) && FlagsBut(s, None) && s.lastId >= 0
  }

  /** Between two tasks no dial is in progress either. */
  predicate Inv(s: State) {
    Core(s) && !s.dialing && !s.restore
  }

  /** The dialing flag and the restore task are as they were, or both gone. */
  predicate NotDialing(s: State, s': State) {
    (s'.dialing == s.dialing && s'.restore == s.restore) || (!s'.dialing && !s'.restore)
  }

  /** The object in hand is the table's, or is not in the table. */
  predicate Hand(s: State, c: Call) {
    && CallOk(c, s.lastId, s.dialEcc)
    && (ById(s.table, c.id) >= 0 ==> s.table[ById(s.table, c.id)] == c)
  }

  // ---------------------------------------------------------------- the other calls

  lemma OthersUnnamed(t: seq<Call>, id: int, other: int)
    requires UniqueIds(t) && other != id
    ensures Unnamed(t, other) <==> Unnamed(Delete(t, id), other)
  {
    DeletePlaces(t, id);
    if Unnamed(t, other) {
      var i :| 0 <= i < |t| && t[i].id == other && t[i].index == 0;
      DeleteKeeps(t, id, i);
    }
  }

  /** If two tables differ in one call at most, the flags that do not name it hold in both. */
  lemma FlagsFollow(s: State, s': State, id: int)
    requires FlagsBut(s, Some(id)) && UniqueIds(s.table) && UniqueIds(s'.table)
    requires Delete(s'.table, id) == Delete(s.table, id)
    requires s'.mo == s.mo && s'.hang == s.hang && s'.protect == s.protect
    ensures FlagsBut(s', Some(id))
  {
    if s.mo.Some? && s.mo.value != id {
      OthersUnnamed(s.table, id, s.mo.value);
      OthersUnnamed(s'.table, id, s.mo.value);
    }
    if s.hang.Some? && s.hang.value != id {
      OthersUnnamed(s.table, id, s.hang.value);
      OthersUnnamed(s'.table, id, s.hang.value);
    }
  }

  lemma PutOthers(t: seq<Call>, c: Call)
    requires UniqueIds(t)
    ensures UniqueIds(Put(t, c)) && ById(Put(t, c), c.id) == ById(t, c.id)
    ensures Delete(Put(t, c), c.id) == Delete(t, c.id)
  {
    var k := ById(t, c.id);
    if k >= 0 {
      var u := Put(t, c);
      forall j | 0 <= j < |u| ensures u[j].id == t[j].id {
        assert j != k ==> u[j] == t[j];
      }
      assert ById(u, c.id) == k;
      assert u[..k] == t[..k] && u[k + 1..] == t[k + 1..];
    }
  }

  /** The call is named, so no flag names it. */
  lemma NotFlagged(s: State, i: int)
    requires Core(s) && 0 <= i < |s.table| && s.table[i].index > 0
    ensures s.mo != Some(s.table[i].id) && s.hang != Some(s.table[i].id)
    ensures ClearPending(s, s.table[i]) == s
  {
    forall j | 0 <= j < |s.table| ensures s.table[j].id == s.table[i].id ==> j == i {
      FoundById(s.table, i);
      FoundById(s.table, j);
    }
  }

  /** Flags that leave out a call they do not name leave out none. */
  lemma ButNone(s: State, id: int)
    requires FlagsBut(s, Some(id)) && s.mo != Some(id) && s.hang != Some(id)
    ensures FlagsBut(s, None)
  {
  }

  // ---------------------------------------------------------------- replacing a call

  /** The report is about this call, or gives it a free index. */
  predicate About(s: State, c: Call, r: Report) {
    || HasKey(c, r.index, r.slot)
    || (c.index == 0 && r.index > 0 && ByKey(s.table, r.index, r.slot) < 0)
  }

  lemma DeleteFree(t: seq<Call>, id: int, index: int, slot: int)
    requires ByKey(t, index, slot) < 0
    ensures ByKey(Delete(t, id), index, slot) < 0
  {
    DeletePlaces(t, id);
    forall j | 0 <= j < |Delete(t, id)| ensures !HasKey(Delete(t, id)[j], index, slot) {
      assert !HasKey(t[Place(t, id, j)], index, slot);
    }
  }

  lemma DeleteFreesKey(t: seq<Call>, i: int)
    requires UniqueIds(t) && UniqueKeys(t) && 0 <= i < |t| && t[i].index > 0
    ensures ByKey(Delete(t, t[i].id), t[i].index, t[i].slot) < 0
  {
    DeletePlaces(t, t[i].id);
    FoundById(t, i);
    var k := ByKey(Delete(t, t[i].id), t[i].index, t[i].slot);
    if k >= 0 {
      var p := Place(t, t[i].id, k);
      assert SameKey(t[i], t[p]) && SameKey(t[p], t[i]);
    }
  }

  lemma AppendThenDelete(t: seq<Call>, c: Call)
    requires UniqueIds(t) && ById(t, c.id) < 0
    ensures UniqueIds(t + [c]) && ById(t + [c], c.id) == |t| && Delete(t + [c], c.id) == t
    ensures Delete(t, c.id) == t
  {
    assert (t + [c])[|t|] == c;
    var k := ById(t + [c], c.id);
    assert k == |t|;
  }

  /** A call leaves, and one with its id and its place among the keys is admitted. */
  lemma Rejoin(t: seq<Call>, c: Call, lastId: int, dialEcc: bool)
    requires TableOk(t, lastId, dialEcc) && ById(t, c.id) >= 0 && CallOk(c, lastId, dialEcc)
    requires CanAdd(Delete(t, c.id), c)
    requires c.index > 0 ==> HasKey(t[ById(t, c.id)], c.index, c.slot) || ByKey(t, c.index, c.slot) < 0
    ensures var t' := Delete(t, c.id) + [c];
      && TableOk(t', lastId, dialEcc) && Delete(t', c.id) == Delete(t, c.id)
      && ById(t', c.id) >= 0 && t'[ById(t', c.id)] == c
  {
    var rest := Delete(t, c.id);
    DeleteOk(t, c.id, lastId, dialEcc);
    if c.index > 0 {
      if HasKey(t[ById(t, c.id)], c.index, c.slot) {
        DeleteFreesKey(t, ById(t, c.id));
      } else {
        DeleteFree(t, c.id, c.index, c.slot);
      }
    }
    AppendOk(rest, c, lastId, dialEcc);
    AppendThenDelete(rest, c);
  }

  lemma ReplacementIs(s: State, c: Call, r: Report)
    requires CallOk(c, s.lastId, s.dialEcc) && r.index >= 0 && (r.index == 0 ==> c.index == 0)
    ensures var c' := Replacement(s, c, r);
      && CallOk(c', s.lastId, s.dialEcc) && HasKey(c', r.index, r.slot)
      && c'.id == c.id && c'.tel == c.tel && c'.running == c.running && c'.dir == c.dir
  {
  }

  lemma Later(t: seq<Call>, lastId: int, dialEcc: bool)
    requires TableOk(t, lastId, dialEcc)
    ensures TableOk(t, lastId + 1, dialEcc)
  {
  }

  /** The call leaves and is not let in again. */
  lemma Lost(t: seq<Call>, id: int, lastId: int, dialEcc: bool)
    requires TableOk(t, lastId, dialEcc)
    ensures TableOk(Delete(t, id), lastId, dialEcc) && ById(Delete(t, id), id) < 0
    ensures Delete(Delete(t, id), id) == Delete(t, id)
  {
    DeleteOk(t, id, lastId, dialEcc);
    DeleteGone(t, id);
  }

  /** Only the table and the id counter changed. */
  predicate SameFlags(s: State, s': State) {
    s' == s.(table := s'.table, lastId := s'.lastId) && s'.lastId >= s.lastId
  }

  /** Whatever RefreshCall left in the table, it touched no other call. */
  predicate Swapped(s: State, c: Call, h: Held) {
    && TableSafe(h.s) && Hand(h.s, h.c) && Delete(h.s.table, c.id) == Delete(s.table, c.id)
    && h.c.id == c.id && h.c.tel == c.tel && h.c.running == c.running && h.c.dir == c.dir
  }

  /** Offering the old call again never helps: whatever keeps the new call out keeps the old one out. */
  lemma SecondOfferFails(s: State, c: Call, r: Report)
    requires CallOk(c, s.lastId, s.dialEcc) && !CanAdd(Delete(s.table, c.id), Replacement(s, c, r))
    ensures !CanAdd(Delete(s.table, c.id), c)
  {
  }

  /** A call that is still in the table has the reported type, if that type can be. */
  predicate TypeTaken(c: Call, r: Report, h: Held) {
    r.kind != CallType.Other && ById(h.s.table, c.id) >= 0 ==> h.c.kind == r.kind
  }

  lemma RefreshOk(s: State, c: Call, r: Report)
    requires TableSafe(s) && Hand(s, c) && ById(s.table, c.id) >= 0 && r.index >= 0 && About(s, c, r)
    requires r.index == 0 ==> c.index == 0
    ensures Swapped(s, c, Refresh(s, c, r)) && SameFlags(s, Refresh(s, c, r).s)
    ensures TypeTaken(c, r, Refresh(s, c, r))
    ensures HasKey(Refresh(s, c, r).c, c.index, c.slot) || HasKey(Refresh(s, c, r).c, r.index, r.slot)
  {
    var h := Refresh(s, c, r);
    var rest := Delete(s.table, c.id);
    var c' := Replacement(s, c, r);
    ReplacementIs(s, c, r);
    if r.kind == CallType.Other {
    } else if CanAdd(rest, c') {
      Rejoin(s.table, c', s.lastId, s.dialEcc);
      assert h.s.table == rest + [c'];
    } else {
      SecondOfferFails(s, c, r);
      Lost(s.table, c.id, s.lastId, s.dialEcc);
      assert h.s.table == rest;
    }
    Later(h.s.table, s.lastId, s.dialEcc);
  }

  lemma WithVideoOk(s: State, k: int, video: int)
    requires TableSafe(s) && 0 <= k < |s.table|
    ensures var c1 := WithVideo(s.table[k], video); var s1 := s.(table := Put(s.table, c1));
      && TableSafe(s1) && Hand(s1, c1) && ById(s1.table, c1.id) == k
      && Delete(s1.table, c1.id) == Delete(s.table, c1.id)
  {
    var c1 := WithVideo(s.table[k], video);
    FoundById(s.table, k);
    PutOk(s.table, c1, s.lastId, s.dialEcc);
    PutOthers(s.table, c1);
  }

  /** A report about the call is still about it once its video state is set. */
  lemma StillAbout(s: State, k: int, r: Report)
    requires TableSafe(s) && 0 <= k < |s.table| && About(s, s.table[k], r)
    ensures var c1 := WithVideo(s.table[k], r.video);
      About(s.(table := Put(s.table, c1)), c1, r)
  {
    var c := s.table[k];
    if !HasKey(c, r.index, r.slot) {
      PutKeepsFree(s.table, WithVideo(c, r.video), r.index, r.slot);
    }
  }

  lemma RefreshIfNecessaryOk(s: State, k: int, r: Report)
    requires TableSafe(s) && 0 <= k < |s.table| && r.index >= 0 && About(s, s.table[k], r)
    requires r.index == 0 ==> s.table[k].index == 0
    ensures var c, h := s.table[k], RefreshIfNecessary(s, s.table[k], r);
      && Swapped(s, c, h) && SameFlags(s, h.s) && TypeTaken(c, r, h)
      && (HasKey(h.c, c.index, c.slot) || HasKey(h.c, r.index, r.slot))
  {
    var c := s.table[k];
    var c1 := WithVideo(c, r.video);
    var s1 := s.(table := Put(s.table, c1));
    WithVideoOk(s, k, r.video);
    StillAbout(s, k, r);
    var h := RefreshIfNecessary(s, c, r);
    if c1.kind == r.kind {
      assert h == Held(s1, c1);
    } else {
      assert h == Refresh(s1, c1, r);
      RefreshOk(s1, c1, r);
    }
    assert Swapped(s1, c1, h) && SameFlags(s1, h.s) && TypeTaken(c1, r, h);
  }

  lemma PutKeepsFree(t: seq<Call>, c: Call, index: int, slot: int)
    requires ByKey(t, index, slot) < 0 && !HasKey(c, index, slot)
    ensures ByKey(Put(t, c), index, slot) < 0
  {
  }

  lemma UpdateStateOk(s: State, c: Call, next: Tel)
    requires TableSafe(s) && Hand(s, c) && next != Disconnected && next != Tel.Other
    requires c.index == 0 ==> next == Dialing
    ensures var h := UpdateState(s, c, next);
      && TableSafe(h.s) && Hand(h.s, h.c) && Delete(h.s.table, c.id) == Delete(s.table, c.id)
      && SameFlags(s, h.s) && h.c == Advance(c, next)
  {
    var c' := Advance(c, next);
    AdvanceAgrees(c, next);
    PutOk(s.table, c', s.lastId, s.dialEcc);
    PutOthers(s.table, c');
  }

  lemma MovedOk(s: State, k: int, r: Report, next: Tel)
    requires Core(s) && 0 <= k < |s.table| && r.index > 0 && HasKey(s.table[k], r.index, r.slot)
    requires next != Disconnected && next != Tel.Other
    ensures Core(Moved(s, k, r, next)) && SameFlags(s, Moved(s, k, r, next))
    ensures Delete(Moved(s, k, r, next).table, s.table[k].id) == Delete(s.table, s.table[k].id)
    ensures var t := Moved(s, k, r, next).table; var i := ById(t, s.table[k].id);
      i >= 0 ==> HasKey(t[i], r.index, r.slot) && t[i].tel == next && (r.kind != CallType.Other ==> t[i].kind == r.kind)
  {
    var c := s.table[k];
    RefreshIfNecessaryOk(s, k, r);
    var h := RefreshIfNecessary(s, c, r);
    UpdateStateOk(h.s, h.c, next);
    NotFlagged(s, k);
    FlagsFollow(s, Moved(s, k, r, next), c.id);
    ButNone(Moved(s, k, r, next), c.id);
  }

  // ---------------------------------------------------------------- dialing reports

  /** The call a dialing report leaves in the table. */
  function Created(s: State, r: Report): Call {
    NewCall(r, Outgoing, s.lastId + 1, NewEcc(s, Outgoing)).(tel := Dialing, running := Outbound)
  }

  lemma CreatedIs(s: State, r: Report)
    requires CreateDialing(s, r).ok && UniqueIds(s.table) && r.tel == Dialing
    ensures CreateDialing(s, r).s.table == s.table + [Created(s, r)]
  {
    var c := NewCall(r, Outgoing, s.lastId + 1, NewEcc(s, Outgoing));
    PutTwice(s.table, c, c.(running := Connecting), Created(s, r));
  }

  /** The call last added changes twice. */
  lemma PutTwice(t: seq<Call>, c: Call, c': Call, c'': Call)
    requires ById(t, c.id) < 0 && c'.id == c.id && c''.id == c.id
    ensures Put(t + [c], c') == t + [c'] && Put(t + [c'], c'') == t + [c'']
  {
    PutLast(t, c, c');
    PutLast(t, c', c'');
  }

  lemma AppendKeepsUnnamed(t: seq<Call>, c: Call, id: int)
    requires Unnamed(t, id)
    ensures Unnamed(t + [c], id)
  {
    var i :| 0 <= i < |t| && t[i].id == id && t[i].index == 0;
    assert (t + [c])[i].id == id;
  }

  /** What creating a dialing call changes. */
  lemma CreateDialingEffect(s: State, r: Report)
    requires UniqueIds(s.table) && r.tel == Dialing
    ensures var o := CreateDialing(s, r);
      && (o.ok ==> CanAdd(s.table, Created(s, r)) && r.kind != CallType.Other)
      && o.s == if o.ok then s.(table := s.table + [Created(s, r)], lastId := s.lastId + 1, dialing := false,
                                 restore := false, mo := if r.index == 0 then Some(s.lastId + 1) else s.mo)
                else s.(lastId := s.lastId + 1)
  {
    if CreateDialing(s, r).ok {
      CreatedIs(s, r);
    }
  }

  lemma CreateDialingOk(s: State, r: Report)
    requires Core(s) && r.index >= 0 && r.tel == Dialing
    requires r.index > 0 ==> ByKey(s.table, r.index, r.slot) < 0
    ensures Core(CreateDialing(s, r).s) && NotDialing(s, CreateDialing(s, r).s)
  {
    var o := CreateDialing(s, r);
    CreateDialingEffect(s, r);
    Later(s.table, s.lastId, s.dialEcc);
    if o.ok {
      var c := Created(s, r);
      AppendOk(s.table, c, s.lastId + 1, s.dialEcc);
      if s.mo.Some? {
        AppendKeepsUnnamed(s.table, c, s.mo.value);
      }
      if s.hang.Some? {
        AppendKeepsUnnamed(s.table, c, s.hang.value);
      }
      assert o.s.table[|s.table|] == c;
    }
  }

  lemma BoundOk(s: State, c: Call, r: Report)
    requires TableSafe(s) && Hand(s, c) && r.index > 0 && r.tel == Dialing
    requires HasKey(c, r.index, r.slot) || ByKey(s.table, r.index, r.slot) < 0
    ensures var c' := Bound(c, r); var t := Put(s.table, c');
      && TableOk(t, s.lastId, s.dialEcc) && Delete(t, c.id) == Delete(s.table, c.id)
      && HasKey(c', r.index, r.slot) && c'.running == Outbound && c'.tel == Dialing && c'.id == c.id
      && (ById(t, c.id) >= 0 ==> t[ById(t, c.id)] == c')
  {
    PutOk(s.table, Bound(c, r), s.lastId, s.dialEcc);
    PutOthers(s.table, Bound(c, r));
  }

  /** A key that is free stays free if only one call changes and does not take it. */
  lemma FreeFollows(t: seq<Call>, t': seq<Call>, id: int, index: int, slot: int)
    requires UniqueIds(t') && Delete(t', id) == Delete(t, id) && ByKey(t, index, slot) < 0
    requires var i := ById(t', id); i >= 0 ==> !HasKey(t'[i], index, slot)
    ensures ByKey(t', index, slot) < 0
  {
    DeleteFree(t, id, index, slot);
    forall k | 0 <= k < |t'| ensures !HasKey(t'[k], index, slot) {
      if t'[k].id == id {
        FoundById(t', k);
      } else {
        DeleteKeeps(t', id, k);
        var j :| 0 <= j < |Delete(t, id)| && Delete(t, id)[j] == t'[k];
      }
    }
  }

  lemma ClearPendingOk(s: State, c: Call)
    requires FlagsBut(s, Some(c.id))
    ensures var s' := ClearPending(s, c);
      && FlagsBut(s', None) && s'.mo != Some(c.id) && s'.hang != Some(c.id)
      && s' == s.(mo := s'.mo, hang := s'.hang, protect := s'.protect, log := s'.log)
      && s'.log == s.log + (if s.hang == Some(c.id) && c.running != Ended
                            then [Deferred(c.id, c.slot, c.index)] else [])
      && s'.hang == (if s.hang == Some(c.id) then None else s.hang)
      && s'.protect == (if s.hang == Some(c.id) then None else s.protect)
      && s'.mo == (if s.mo == Some(c.id) then None else s.mo)
  {
  }

  /** Binding an unnamed call, up to the pending flags. */
  lemma BindUnnamedOk(s: State, r: Report, z: int)
    requires Core(s) && r.index > 0 && r.tel == Dialing && ByKey(s.table, r.index, r.slot) < 0
    requires 0 <= z < |s.table| && s.table[z].index == 0
    ensures var c := s.table[z]; var h := RefreshIfNecessary(s, c, r);
      var s2 := h.s.(table := Put(h.s.table, Bound(h.c, r)));
      && TableSafe(s2) && Delete(s2.table, c.id) == Delete(s.table, c.id) && FlagsBut(s2, Some(c.id))
      && SameFlags(s, s2) && h.c.id == c.id
      && HasKey(Bound(h.c, r), r.index, r.slot) && Bound(h.c, r).running == Outbound
      && (ById(s2.table, c.id) >= 0 ==> s2.table[ById(s2.table, c.id)] == Bound(h.c, r))
  {
    var c := s.table[z];
    var h := RefreshIfNecessary(s, c, r);
    RefreshIfNecessaryOk(s, z, r);
    if !HasKey(h.c, r.index, r.slot) {
      FreeFollows(s.table, h.s.table, c.id, r.index, r.slot);
    }
    BoundOk(h.s, h.c, r);
    FlagsFollow(s, h.s.(table := Put(h.s.table, Bound(h.c, r))), c.id);
  }

  lemma BindDialingOk(s: State, r: Report)
    requires Core(s) && r.index > 0 && r.tel == Dialing
    ensures Core(BindDialing(s, r)) && NotDialing(s, BindDialing(s, r))
  {
    var k, z := ByKey(s.table, r.index, r.slot), ByIndex(s.table, 0);
    if k >= 0 {
      RefreshIfNecessaryOk(s, k, r);
      NotFlagged(s, k);
      FlagsFollow(s, BindDialing(s, r), s.table[k].id);
      ButNone(BindDialing(s, r), s.table[k].id);
    } else if z >= 0 {
      BindUnnamedOk(s, r, z);
      var h := RefreshIfNecessary(s, s.table[z], r);
      ClearPendingOk(h.s.(table := Put(h.s.table, Bound(h.c, r))), Bound(h.c, r));
    }
  }

  lemma DialingHandleOk(s: State, r: Report)
    requires Core(s) && r.index >= 0 && r.tel == Dialing
    ensures Core(DialingHandle(s, r).s) && NotDialing(s, DialingHandle(s, r).s)
  {
    if r.index > 0 && (ByKey(s.table, 0, r.slot) >= 0 || ByKey(s.table, r.index, r.slot) >= 0) {
      BindDialingOk(s, r);
    } else {
      CreateDialingOk(s, r);
    }
  }

  lemma LocateOk(s: State, r: Report)
    requires Core(s) && r.index > 0
    ensures Core(Locate(s, r)) && NotDialing(s, Locate(s, r))
  {
    if ByKey(s.table, r.index, r.slot) < 0 && ByIndex(s.table, 0) >= 0 {
      DialingHandleOk(s, r.(tel := Dialing));
    }
  }

  // ---------------------------------------------------------------- a call ends

  lemma ResumeOnlySends(s: State, c: Call, previous: Running, prior: Tel)
    ensures Resume(s, c, previous, prior) == s.(log := Resume(s, c, previous, prior).log)
  {
  }

  lemma ConcludedEffect(h: Held)
    requires TableSafe(h.s) && FlagsBut(h.s, Some(h.c.id))
    ensures var s', s2 := Concluded(h), ClearPending(h.s, h.c);
      s' == s2.(table := Delete(h.s.table, h.c.id), log := s'.log)
  {
    var s2 := ClearPending(h.s, h.c);
    ClearPendingOk(h.s, h.c);
    var h' := UpdateState(s2, h.c, Disconnected);
    assert h'.s == s2.(table := Put(h.s.table, h'.c)) && h'.c.id == h.c.id;
    ResumeOnlySends(h'.s, h'.c, h.c.running, h.c.tel);
    PutOthers(h.s.table, h'.c);
  }

  lemma ConcludedOk(h: Held)
    requires TableSafe(h.s) && FlagsBut(h.s, Some(h.c.id)) && h.s.lastId >= 0
    ensures var s' := Concluded(h);
      && Core(s') && s'.table == Delete(h.s.table, h.c.id)
      && s' == h.s.(table := s'.table, mo := s'.mo, hang := s'.hang, protect := s'.protect, log := s'.log)
      && s'.hang == (if h.s.hang == Some(h.c.id) then None else h.s.hang)
      && s'.protect == (if h.s.hang == Some(h.c.id) then None else h.s.protect)
      && s'.mo == (if h.s.mo == Some(h.c.id) then None else h.s.mo)
  {
    var s2 := ClearPending(h.s, h.c);
    ConcludedEffect(h);
    ClearPendingOk(h.s, h.c);
    DeleteOk(h.s.table, h.c.id, h.s.lastId, h.s.dialEcc);
    if s2.mo.Some? {
      OthersUnnamed(h.s.table, h.c.id, s2.mo.value);
    }
    if s2.hang.Some? {
      OthersUnnamed(h.s.table, h.c.id, s2.hang.value);
    }
  }

  /** A report of the end of a call takes that call, and only that call, out of the table, and its flags with it. */
  lemma DisconnectedFoundOk(s: State, r: Report)
    requires Core(s) && Found(s, r) && r.index >= 0
    ensures var s' := DisconnectedHandle(s, r); var id := s.table[ByKey(s.table, r.index, r.slot)].id;
      && Core(s') && s'.table == Delete(s.table, id) && s'.mo != Some(id) && s'.hang != Some(id)
      && s'.lastId >= s.lastId && s'.dialEcc == s.dialEcc
      && s'.dialing == s.dialing && s'.restore == s.restore
      && s'.mo == (if s.mo == Some(id) then None else s.mo)
      && s'.hang == (if s.hang == Some(id) then None else s.hang)
      && s'.protect == (if s.hang == Some(id) then None else s.protect)
  {
    var k := ByKey(s.table, r.index, r.slot);
    RefreshIfNecessaryOk(s, k, r);
    var h := RefreshIfNecessary(s, s.table[k], r);
    FlagsFollow(s, h.s, s.table[k].id);
    ConcludedOk(h);
  }

  /** The flags of an ended call are gone, so nothing it was meant to do happens to a later call. */
  lemma DisconnectedHandleOk(s: State, r: Report)
    requires Core(s) && r.index > 0
    ensures Core(DisconnectedHandle(s, r)) && NotDialing(s, DisconnectedHandle(s, r))
    ensures !Found(DisconnectedHandle(s, r), r)
  {
    var s1 := Locate(s, r);
    LocateOk(s, r);
    if Found(s1, r) {
      assert Locate(s1, r) == s1;
      DisconnectedFoundOk(s1, r);
      DeleteFreesKey(s1.table, ByKey(s1.table, r.index, r.slot));
    }
  }

  lemma DealFailDialOk(s: State, k: int)
    requires Core(s) && 0 <= k < |s.table|
    ensures var c := s.table[k]; var first := s.table[ByKey(s.table, c.index, c.slot)].id;
      var s' := DealFailDial(s, c);
      && Core(s') && s'.table == Delete(s.table, first) && s'.lastId >= s.lastId && s'.dialEcc == s.dialEcc
      && s'.dialing == s.dialing && s'.restore == s.restore
      && s'.mo == (if s.mo == Some(first) then None else s.mo)
      && s'.hang == (if s.hang == Some(first) then None else s.hang)
      && s'.protect == (if s.hang == Some(first) then None else s.protect)
  {
    var c := s.table[k];
    assert HasKey(s.table[k], c.index, c.slot);
    DisconnectedFoundOk(s, FailReport(c));
  }

  // ---------------------------------------------------------------- the other handlers

  lemma ActiveHandleOk(s: State, r: Report)
    requires Core(s) && r.index > 0
    ensures Core(ActiveHandle(s, r)) && NotDialing(s, ActiveHandle(s, r))
  {
    var s1 := Locate(s, r);
    LocateOk(s, r);
    if Found(s1, r) {
      NotFlagged(s1, ByKey(s1.table, r.index, r.slot));
      MovedOk(s1, ByKey(s1.table, r.index, r.slot), r, Active);
    }
  }

  lemma AlertHandleOk(s: State, r: Report)
    requires Core(s) && r.index > 0
    ensures Core(AlertHandle(s, r)) && NotDialing(s, AlertHandle(s, r))
  {
    var s1 := Locate(s, r);
    LocateOk(s, r);
    if Found(s1, r) {
      NotFlagged(s1, ByKey(s1.table, r.index, r.slot));
      MovedOk(s1, ByKey(s1.table, r.index, r.slot), r, Alerting);
    }
  }

  lemma HoldingHandleOk(s: State, r: Report)
    requires Core(s) && r.index > 0
    ensures Core(HoldingHandle(s, r)) && NotDialing(s, HoldingHandle(s, r))
  {
    if Found(s, r) {
      MovedOk(s, ByKey(s.table, r.index, r.slot), r, Holding);
    }
  }

  lemma DisconnectingHandleOk(s: State, r: Report)
    requires Core(s) && r.index > 0
    ensures Core(DisconnectingHandle(s, r)) && NotDialing(s, DisconnectingHandle(s, r))
  {
    if Found(s, r) {
      MovedOk(s, ByKey(s.table, r.index, r.slot), r, Disconnecting);
    }
  }

  lemma FailUnnamedOk(s: State)
    requires Core(s)
    ensures Core(FailUnnamed(s)) && NotDialing(s, FailUnnamed(s)) && FailUnnamed(s).dialEcc == s.dialEcc
  {
    if ByIndex(s.table, 0) >= 0 {
      DealFailDialOk(s, ByIndex(s.table, 0));
    }
  }

  lemma RefreshOldOk(s: State, r: Report)
    requires Core(s) && r.index > 0 && Found(s, r) && r.tel in {Ringing, Waiting}
    ensures Core(RefreshOld(s, r)) && SameFlags(s, RefreshOld(s, r))
  {
    var k := ByKey(s.table, r.index, r.slot);
    MovedOk(s, k, r, r.tel);
    RefreshIfNecessaryOk(s, k, r);
    NotFlagged(s, k);
    var s' := RefreshIfNecessary(s, s.table[k], r).s;
    FlagsFollow(s, s', s.table[k].id);
    ButNone(s', s.table[k].id);
  }

  /** The call an incoming report leaves in the table. */
  function Arrived(s: State, r: Report): Call {
    NewCall(r, Incoming, s.lastId + 1, false).(running := Inbound)
  }

  /** The limits that would hang up an incoming call are above the size of the table. */
  lemma ArriveEffect(s: State, t: seq<Call>, c: Call, next: Tel)
    requires s.table == t + [c] && ById(t, c.id) < 0 && |t| < MAX_CALL_OBJECTS
    requires c.running == Create && next in {Ringing, Waiting}
    ensures Arrive(s, c, next) == s.(table := t + [c.(tel := next, running := Inbound)])
  {
    var c' := Advance(c, next);
    PutTwice(t, c, c', c');
    var h := UpdateState(s, c, next);
    assert h == Held(s.(table := t + [c']), c');
    assert CountRunning(h.s.table, Inbound) < 30 && CountRunning(h.s.table, Live) < 30;
  }

  lemma CreateIncomingEffect(s: State, r: Report)
    requires UniqueIds(s.table) && Fits(s.table) && r.tel in {Ringing, Waiting}
    ensures var s' := CreateIncoming(s, r);
      s' == if r.kind == CallType.Other then s.(lastId := s.lastId + 1)
            else if CanAdd(s.table, Arrived(s, r))
            then s.(lastId := s.lastId + 1, table := s.table + [Arrived(s, r)])
            else s.(lastId := s.lastId + 1, log := s.log + [HangUp(s.lastId + 1, r.slot, r.index)])
  {
    var s1 := s.(lastId := s.lastId + 1);
    var c := NewCall(r, Incoming, s.lastId + 1, false);
    if r.kind != CallType.Other && CanAdd(s.table, c) {
      ArriveEffect(s1.(table := s.table + [c]), s.table, c, r.tel);
    }
  }

  lemma AppendKeepsFlags(s: State, c: Call)
    requires FlagsBut(s, None)
    ensures FlagsBut(s.(table := s.table + [c]), None)
  {
    if s.mo.Some? {
      AppendKeepsUnnamed(s.table, c, s.mo.value);
    }
    if s.hang.Some? {
      AppendKeepsUnnamed(s.table, c, s.hang.value);
    }
  }

  lemma CreateIncomingOk(s: State, r: Report)
    requires Core(s) && r.index > 0 && r.tel in {Ringing, Waiting} && !Found(s, r)
    ensures Core(CreateIncoming(s, r)) && NotDialing(s, CreateIncoming(s, r))
  {
    var c := Arrived(s, r);
    CreateIncomingEffect(s, r);
    Later(s.table, s.lastId, s.dialEcc);
    if r.kind != CallType.Other && CanAdd(s.table, c) {
      AppendOk(s.table, c, s.lastId + 1, s.dialEcc);
      AppendKeepsFlags(s, c);
    }
  }

  lemma IncomingHandleOk(s: State, r: Report)
    requires Core(s) && r.index > 0 && r.tel in {Ringing, Waiting}
    ensures Core(IncomingHandle(s, r)) && NotDialing(s, IncomingHandle(s, r))
  {
    FailUnnamedOk(s);
    var s1 := FailUnnamed(s);
    if Found(s1, r) {
      RefreshOldOk(s1, r);
    } else {
      CreateIncomingOk(s1, r);
    }
  }

  /** Every report about a named call keeps the invariant. */
  lemma HandleOk(s: State, r: Report)
    requires Inv(s) && r.index > 0
    ensures Inv(Handle(s, r))
  {
    match r.tel
    case Active => ActiveHandleOk(s, r);
    case Holding => HoldingHandleOk(s, r);
    case Dialing => DialingHandleOk(s, r);
    case Alerting => AlertHandleOk(s, r);
    case Ringing | Waiting => IncomingHandleOk(s, r);
    case Disconnecting => DisconnectingHandleOk(s, r);
    case Disconnected => DisconnectedHandleOk(s, r);
    case Other =>
  }
}
