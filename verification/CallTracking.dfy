/** The table follows the stack: a call with a real index is one that the last report of its slot lists. */
module CallTracking {
  import opened Options
  import opened CallTable
  import opened CallHandlers
  import opened CallSafety
  import opened CallReports
  import opened CallOutcomes
  import opened CallPresence
  import opened CallReference

  /** A call, leaving aside whether it may be resumed. */
  function View(c: Call): Call {
    c.(resumable := true)
  }

  /** The call under this call's key is the same. */
  predicate SameAt(t: seq<Call>, c: Call) {
    var k := ByKey(t, c.index, c.slot);
    k >= 0 && View(t[k]) == View(c)
  }

  /** The named calls of the later table were named in the earlier one and the same, except one the report is about. */
  predicate Within(t': seq<Call>, t: seq<Call>, r: Report) {
    forall i | 0 <= i < |t'| && t'[i].index > 0 :: HasKey(t'[i], r.index, r.slot) || SameAt(t, t'[i])
  }

  lemma IsSame(t: seq<Call>, i: int)
    requires UniqueKeys(t) && 0 <= i < |t| && t[i].index > 0
    ensures SameAt(t, t[i])
  {
    FoundByKey(t, i);
  }

  lemma SameWithin(t: seq<Call>, r: Report)
    requires UniqueKeys(t)
    ensures Within(t, t, r)
  {
    forall i | 0 <= i < |t| && t[i].index > 0 ensures SameAt(t, t[i]) {
      IsSame(t, i);
    }
  }

  lemma WithinAgain(t'': seq<Call>, t': seq<Call>, t: seq<Call>, r: Report)
    requires Within(t'', t', r) && Within(t', t, r)
    ensures Within(t'', t, r)
  {
    forall i | 0 <= i < |t''| && t''[i].index > 0 && !HasKey(t''[i], r.index, r.slot) ensures SameAt(t, t''[i]) {
      var j := ByKey(t', t''[i].index, t''[i].slot);
      assert HasKey(t'[j], t''[i].index, t''[i].slot);
    }
  }

  lemma DeleteWithin(t: seq<Call>, id: int, r: Report)
    requires UniqueKeys(t)
    ensures Within(Delete(t, id), t, r)
  {
    DeletePlaces(t, id);
    SameWithin(t, r);
  }

  /** A call that is not about the report and is still there is the same. */
  lemma InWithin(t': seq<Call>, t: seq<Call>, r: Report)
    requires UniqueKeys(t)
    requires forall i | 0 <= i < |t'| && t'[i].index > 0 && !HasKey(t'[i], r.index, r.slot) :: t'[i] in t
    ensures Within(t', t, r)
  {
    forall i | 0 <= i < |t'| && t'[i].index > 0 && !HasKey(t'[i], r.index, r.slot) ensures SameAt(t, t'[i]) {
      var j :| 0 <= j < |t| && t[j] == t'[i];
      IsSame(t, j);
    }
  }

  /** The same calls are named, and they are the same, except possibly the one the report is about. */
  predicate SameNames(t': seq<Call>, t: seq<Call>, r: Report) {
    Within(t', t, r) && Within(t, t', r)
  }

  lemma SameNamesAgain(t'': seq<Call>, t': seq<Call>, t: seq<Call>, r: Report)
    requires SameNames(t'', t', r) && SameNames(t', t, r)
    ensures SameNames(t'', t, r)
  {
    WithinAgain(t'', t', t, r);
    WithinAgain(t, t', t'', r);
  }

  lemma AppendNames(t: seq<Call>, c: Call, r: Report)
    requires UniqueKeys(t) && HasKey(c, r.index, r.slot)
    ensures SameNames(t + [c], t, r)
  {
    var u := t + [c];
    forall i | 0 <= i < |u| && u[i].index > 0 && !HasKey(u[i], r.index, r.slot) ensures SameAt(t, u[i]) {
      assert u[i] == t[i];
      IsSame(t, i);
    }
    forall i | 0 <= i < |t| && t[i].index > 0 ensures SameAt(u, t[i]) {
      IsSame(t, i);
      FirstStays(t, c, i);
    }
  }

  lemma FirstStays(t: seq<Call>, c: Call, i: int)
    requires 0 <= i < |t| && ByKey(t, t[i].index, t[i].slot) == i
    ensures ByKey(t + [c], t[i].index, t[i].slot) == i
  {
    assert HasKey((t + [c])[i], t[i].index, t[i].slot);
    forall j | 0 <= j < i ensures !HasKey((t + [c])[j], t[i].index, t[i].slot) {
      assert !HasKey(t[j], t[i].index, t[i].slot);
    }
  }

  /** The report may be about this call, or the call has no name. */
  predicate About(c: Call, r: Report) {
    c.index <= 0 || HasKey(c, r.index, r.slot)
  }

  lemma WithoutNames(t: seq<Call>, k: int, r: Report)
    requires UniqueKeys(t) && 0 <= k < |t| && About(t[k], r)
    ensures UniqueKeys(Without(t, k)) && SameNames(Without(t, k), t, r)
  {
    var u := Without(t, k);
    assert forall i | 0 <= i < |u| :: u[i] == t[if i < k then i else i + 1];
    forall i | 0 <= i < |t| && i != k ensures t[i] in u {
      assert u[if i < k then i else i - 1] == t[i];
    }
    InWithin(u, t, r);
    InWithin(t, u, r);
  }

  lemma PlacedNames(t: seq<Call>, k: int, c: Call, toEnd: bool, r: Report)
    requires UniqueKeys(t) && 0 <= k < |t| && About(t[k], r)
    requires UniqueKeys(Placed(t, k, c, toEnd)) && HasKey(c, r.index, r.slot)
    ensures SameNames(Placed(t, k, c, toEnd), t, r)
  {
    var u := Placed(t, k, c, toEnd);
    forall i | 0 <= i < |t| && i != k ensures t[i] in u {
      assert u[if toEnd && i > k then i - 1 else i] == t[i];
    }
    forall i | 0 <= i < |u| ensures u[i] == c || u[i] in t {
    }
    InWithin(u, t, r);
    InWithin(t, u, r);
  }

  lemma KnownNames(t: seq<Call>, k: int, r: Report, dialEcc: bool)
    requires UniqueKeys(t) && 0 <= k < |t| && HasKey(t[k], r.index, r.slot) && UniqueKeys(KnownAfter(t, k, r, dialEcc))
    ensures SameNames(KnownAfter(t, k, r, dialEcc), t, r)
  {
    hide SameNames, Placed, Without, UniqueKeys;
    if r.tel == Alerting && t[k].tel == Disconnecting {
      assert SameNames(t, t, r) by { StandNames(t, r); }
    } else if TypeChanges(t[k], r) && |t| == 5 && t[k].dir == Incoming {
      WithoutNames(t, k, r);
    } else {
      var tel := if Takes(t[k], r) then r.tel else t[k].tel;
      PlacedNames(t, k, InState(Refreshed(t[k], r, dialEcc), tel), TypeChanges(t[k], r), r);
    }
  }

  lemma StandNames(t: seq<Call>, r: Report)
    requires UniqueKeys(t)
    ensures SameNames(t, t, r)
  {
    SameWithin(t, r);
  }

  lemma FirstNames(s: State, r: Report)
    requires UniqueKeys(s.table) && UniqueKeys(FirstAfter(s, r))
    ensures SameNames(FirstAfter(s, r), s.table, r)
  {
    hide SameNames, Placed, Without, UniqueKeys;
    var z := ByIndex(s.table, 0);
    StandNames(s.table, r);
    if ByKey(s.table, 0, r.slot) >= 0 && z >= 0 {
      if r.tel == Disconnected {
        WithoutNames(s.table, z, r);
      } else {
        var c := InState(NamedCall(s.table[z], r, s.dialEcc), r.tel);
        PlacedNames(s.table, z, c, TypeChanges(s.table[z], r), r);
      }
    } else {
      AppendNames(s.table, Made(s, r, Outgoing), r);
    }
  }

  lemma IncomingNames(s: State, r: Report)
    requires UniqueKeys(s.table) && UniqueKeys(IncomingAfter(s, r))
    ensures SameNames(IncomingAfter(s, r), s.table, r)
  {
    hide SameNames, Without, UniqueKeys, KnownAfter, Made;
    var z := ByIndex(s.table, 0);
    var t := if z < 0 then s.table else Without(s.table, z);
    if z < 0 {
      StandNames(s.table, r);
    } else {
      WithoutNames(s.table, z, r);
    }
    StandNames(t, r);
    if ByKey(t, r.index, r.slot) >= 0 {
      KnownNames(t, ByKey(t, r.index, r.slot), r, s.dialEcc);
    } else {
      MadeHasKey(s, r, Incoming);
      AppendNames(t, Made(s, r, Incoming), r);
    }
    SameNamesAgain(IncomingAfter(s, r), t, s.table, r);
  }

  lemma MadeHasKey(s: State, r: Report, dir: Direction)
    ensures HasKey(Made(s, r, dir), r.index, r.slot)
  {
  }

  /** No report names or ends a named call other than the one it is about, or changes one. */
  lemma HandleNames(s: State, r: Report)
    requires Inv(s) && r.index > 0
    ensures SameNames(Handle(s, r).table, s.table, r)
  {
    HandleOk(s, r);
    hide Handle, SameNames, KnownAfter, FirstAfter, IncomingAfter, Without;
    ReportedTable(s, r);
    var k := ByKey(s.table, r.index, r.slot);
    StandNames(s.table, r);
    if r.tel == Ringing || r.tel == Waiting {
      IncomingNames(s, r);
    } else if r.tel == Tel.Other {
    } else if k >= 0 {
      if r.tel == Disconnected {
        WithoutNames(s.table, k, r);
      } else {
        KnownNames(s.table, k, r, s.dialEcc);
      }
    } else if r.tel != Holding && r.tel != Disconnecting {
      FirstNames(s, r);
    }
  }

  function ViewOf(c: Option<Call>): Option<Call> {
    if c.Some? then Some(View(c.value)) else None
  }

  /** The call under a key, leaving aside whether it may be resumed. */
  function ViewAt(t: seq<Call>, index: int, slot: int): Option<Call> {
    ViewOf(CallAt(t, index, slot))
  }

  lemma WithinView(t': seq<Call>, t: seq<Call>, r: Report, index: int, slot: int)
    requires Within(t', t, r) && index > 0 && !(index == r.index && slot == r.slot)
    ensures ViewAt(t', index, slot).Some? ==> ViewAt(t, index, slot) == ViewAt(t', index, slot)
  {
    var k := ByKey(t', index, slot);
    if k >= 0 {
      assert HasKey(t'[k], index, slot);
    }
  }

  /** The call under any other key stays as it is. */
  lemma KeyStays(s: State, r: Report, index: int, slot: int)
    requires Inv(s) && r.index > 0 && index > 0 && !(index == r.index && slot == r.slot)
    ensures ViewAt(Handle(s, r).table, index, slot) == ViewAt(s.table, index, slot)
  {
    var t := Handle(s, r).table;
    HandleNames(s, r);
    WithinView(t, s.table, r, index, slot);
    WithinView(s.table, t, r, index, slot);
  }

  // ---------------------------------------------------------------- a whole batch

  function Fold<S, E>(f: (S, E) -> S, s: S, es: seq<E>): S
    decreases |es|
  {
    if |es| == 0 then s else Fold(f, f(s, es[0]), es[1..])
  }

  lemma {:induction false} FoldAppend<S, E>(f: (S, E) -> S, s: S, es: seq<E>, fs: seq<E>)
    ensures Fold(f, s, es + fs) == Fold(f, Fold(f, s, es), fs)
    decreases |es|
  {
    if es == [] {
      assert es + fs == fs;
    } else {
      FoldAppend(f, f(s, es[0]), es[1..], fs);
      assert (es + fs)[1..] == es[1..] + fs;
    }
  }

  /** The reports are handled one after another. */
  function HandleAll(s: State, es: seq<Report>): State {
    Fold(Handle, s, es)
  }

  /** Reports name calls by positive indices, all of the slot. */
  predicate Named(es: seq<Report>, slot: int) {
    forall i | 0 <= i < |es| :: es[i].index > 0 && es[i].slot == slot
  }

  lemma {:induction false} HandleAllOk(s: State, es: seq<Report>, slot: int)
    requires Inv(s) && Named(es, slot)
    ensures Inv(HandleAll(s, es))
    decreases |es|
  {
    if es != [] {
      HandleOk(s, es[0]);
      HandleAllOk(Handle(s, es[0]), es[1..], slot);
    }
  }

  lemma KeyStep(s: State, r: Report, index: int, slot: int)
    requires Inv(s) && r.index > 0 && index > 0
    ensures Inv(Handle(s, r))
    ensures ViewAt(Handle(s, r).table, index, slot)
      == if index == r.index && slot == r.slot then ViewOf(CallAfter(s, r)) else ViewAt(s.table, index, slot)
  {
    HandleOk(s, r);
    if index == r.index && slot == r.slot {
      ReportedCall(s, r);
    } else {
      KeyStays(s, r, index, slot);
    }
  }

  lemma HandleAllNext(s: State, es: seq<Report>, e: nat)
    requires 0 < e <= |es|
    ensures HandleAll(s, es[..e]) == HandleAll(Handle(s, es[0]), es[1..][..e - 1])
  {
    assert es[..e][1..] == es[1..][..e - 1];
  }

  /** After the events, the call under a key is what its own event makes of it in the state that event meets, or, if
      there is none, what it was. */
  lemma {:induction false} KeyAfter(s: State, es: seq<Report>, slot: int, index: int, at: int)
    requires Inv(s) && Named(es, slot) && Distinct(es) && index > 0
    ensures var e := EntryAt(es, index);
      ViewAt(HandleAll(s, es).table, index, at)
      == if at == slot && e >= 0 then ViewOf(CallAfter(HandleAll(s, es[..e]), es[e])) else ViewAt(s.table, index, at)
    decreases |es|
  {
    if es != [] {
      var s1, rest, e := Handle(s, es[0]), es[1..], EntryAt(es, index);
      KeyStep(s, es[0], index, at);
      KeyAfter(s1, rest, slot, index, at);
      assert HandleAll(s, es) == HandleAll(s1, rest);
      if e == 0 {
        NoLaterEntry(es);
        assert es[..0] == [];
      } else if e > 0 {
        HandleAllNext(s, es, e);
      }
    }
  }

  /** Every named call of the slot is listed in the slot's snapshot, or has one of the loose keys. */
  predicate Listed(t: seq<Call>, slot: int, snapshot: seq<Report>, loose: set<(int, int)>) {
    forall i | 0 <= i < |t| && t[i].index > 0 && t[i].slot == slot ::
      EntryAt(snapshot, t[i].index) >= 0 || (t[i].index, slot) in loose
  }

  /** The keys a batch leaves loose: those it says nothing about. */
  function LooseAfterBatch(loose: set<(int, int)>, past: seq<Report>, news: seq<Report>, slot: int): set<(int, int)> {
    set key | key in loose && !(key.1 == slot && (EntryAt(past, key.0) >= 0 || EntryAt(news, key.0) >= 0))
  }

  /** A report of a single call loosens its key if it takes up a call nobody knew, and takes it back with the call. */
  function LooseAfterReport(s: State, r: Report, loose: set<(int, int)>): set<(int, int)> {
    if !Present(s, r) then loose - {(r.index, r.slot)}
    else if !Found(s, r) then loose + {(r.index, r.slot)}
    else loose
  }

  lemma {:induction false} NamedDiff(past: seq<Report>, news: seq<Report>, slot: int)
    requires Named(past, slot) && Named(news, slot)
    ensures Named(Arrivals(past, news), slot) && Named(Departures(past, news), slot)
    ensures Named(Diff(past, news), slot) && Named(Kept(news), slot)
  {
    forall r | r in news ensures r.index > 0 && r.slot == slot {
      var i :| 0 <= i < |news| && news[i] == r;
    }
    forall i | 0 <= i < |Arrivals(past, news)| ensures Arrivals(past, news)[i] in news {
      assert Arrivals(past, news)[i] in Arrivals(past, news);
    }
    forall i | 0 <= i < |Kept(news)| ensures Kept(news)[i] in news {
      assert Kept(news)[i] in Kept(news);
    }
    NamedDepartures(past, news, slot);
  }

  lemma {:induction false} NamedDepartures(past: seq<Report>, news: seq<Report>, slot: int)
    requires Named(past, slot)
    ensures Named(Departures(past, news), slot)
  {
    if past != [] {
      NamedDepartures(past[1..], news, slot);
    }
  }

  /** The call with this index after the batch: for an entry that is kept, what its event makes of it in the state it
      meets, or, without an event, what it was; none for an entry that went or is reported as disconnected; an index
      neither report lists is left alone. */
  lemma EntryHasCall(s: State, past: seq<Report>, news: seq<Report>, slot: int, index: int)
    requires Inv(s) && SnapshotOk(past) && Distinct(news) && Named(past, slot) && Named(news, slot) && index > 0
    ensures var es, k := Diff(past, news), EntryAt(Kept(news), index); var e := EntryAt(es, index);
      && (k >= 0 && Changed(past, Kept(news)[k]) ==> e >= 0 && es[e] == Kept(news)[k])
      && ViewAt(HandleAll(s, es).table, index, slot)
         == if k >= 0 && Changed(past, Kept(news)[k]) then ViewOf(CallAfter(HandleAll(s, es[..e]), Kept(news)[k]))
            else if k < 0 && (EntryAt(past, index) >= 0 || EntryAt(news, index) >= 0) then None
            else ViewAt(s.table, index, slot)
  {
    var es, n := Diff(past, news), EntryAt(news, index);
    NamedDiff(past, news, slot);
    DiffDistinct(past, news);
    KeyAfter(s, es, slot, index, slot);
    EventAt(past, news, index);
    KeptAt(news, index);
    if EntryAt(es, index) >= 0 {
      EventIsFrom(past, news, es[EntryAt(es, index)]);
    }
  }

  /** After a report on a slot, the named calls there are calls the report lists as not disconnected, or loose ones it
      does not list; the named calls of the other slots were there before. */
  lemma BatchFollows(s: State, past: seq<Report>, news: seq<Report>, slot: int, loose: set<(int, int)>)
    requires Inv(s) && SnapshotOk(past) && Distinct(news) && Named(past, slot) && Named(news, slot)
    requires Listed(s.table, slot, past, loose)
    ensures Inv(HandleAll(s, Diff(past, news)))
    ensures Listed(HandleAll(s, Diff(past, news)).table, slot, Kept(news), LooseAfterBatch(loose, past, news, slot))
    ensures forall other, snapshot | other != slot && Listed(s.table, other, snapshot, loose) ::
      Listed(HandleAll(s, Diff(past, news)).table, other, snapshot, LooseAfterBatch(loose, past, news, slot))
  {
    var es := Diff(past, news);
    var t := HandleAll(s, es).table;
    var loose' := LooseAfterBatch(loose, past, news, slot);
    NamedDiff(past, news, slot);
    DiffDistinct(past, news);
    HandleAllOk(s, es, slot);
    forall i | 0 <= i < |t| && t[i].index > 0 && t[i].slot == slot
      ensures EntryAt(Kept(news), t[i].index) >= 0 || (t[i].index, slot) in loose'
    {
      KeyTaken(t, i);
      EntryHasCall(s, past, news, slot, t[i].index);
      WasListed(s, past, t[i].index, slot, loose);
    }
    forall other, snapshot | other != slot && Listed(s.table, other, snapshot, loose)
      ensures Listed(t, other, snapshot, loose')
    {
      forall i | 0 <= i < |t| && t[i].index > 0 && t[i].slot == other
        ensures EntryAt(snapshot, t[i].index) >= 0 || (t[i].index, other) in loose'
      {
        KeyTaken(t, i);
        KeyAfter(s, es, slot, t[i].index, other);
        WasListed(s, snapshot, t[i].index, other, loose);
      }
    }
  }

  lemma KeyTaken(t: seq<Call>, i: int)
    requires 0 <= i < |t|
    ensures ByKey(t, t[i].index, t[i].slot) >= 0
  {
    assert HasKey(t[i], t[i].index, t[i].slot);
  }

  lemma WasListed(s: State, snapshot: seq<Report>, index: int, slot: int, loose: set<(int, int)>)
    requires Listed(s.table, slot, snapshot, loose) && index > 0
    ensures ByKey(s.table, index, slot) >= 0 ==> EntryAt(snapshot, index) >= 0 || (index, slot) in loose
  {
    if ByKey(s.table, index, slot) >= 0 {
      assert HasKey(s.table[ByKey(s.table, index, slot)], index, slot);
    }
  }

  lemma SingleFollows(s: State, r: Report, slot: int, snapshot: seq<Report>, loose: set<(int, int)>)
    requires Inv(s) && r.index > 0 && Listed(s.table, slot, snapshot, loose)
    ensures Listed(Handle(s, r).table, slot, snapshot, LooseAfterReport(s, r, loose))
  {
    var t := Handle(s, r).table;
    HandleNames(s, r);
    CallIsPresent(s, r);
    forall i | 0 <= i < |t| && t[i].index > 0 && t[i].slot == slot
      ensures EntryAt(snapshot, t[i].index) >= 0 || (t[i].index, slot) in LooseAfterReport(s, r, loose)
    {
      KeyTaken(t, i);
      WasListed(s, snapshot, t[i].index, slot, loose);
    }
  }
}
