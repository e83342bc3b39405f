/** The snapshot kept for each slot and the events a new report is turned into. */
module CallReports {
  import opened Options
  import opened CallTable
  import opened CallHandlers
  import opened CallSafety

  // ---------------------------------------------------------------- the difference

  /** The first entry with this index, -1 if there is none. */
  function EntryAt(rs: seq<Report>, index: int): (k: int)
    ensures -1 <= k < |rs|
    ensures k >= 0 ==> rs[k].index == index
    ensures forall j | 0 <= j < (if k < 0 then |rs| else k) :: rs[j].index != index
  {
    if rs == [] then -1
    else if rs[0].index == index then 0
    else var k := EntryAt(rs[1..], index); if k < 0 then -1 else k + 1
  }

  /** What the comparison looks at. */
  datatype Facts = Facts(tel: Tel, mpty: int, video: int, kind: CallType)

  function FactsOf(r: Report): Facts {
    Facts(r.tel, r.mpty, r.video, r.kind)
  }

  /** A reported entry is handled if it is new, has changed, or is alerting. */
  predicate Changed(past: seq<Report>, r: Report) {
    var k := EntryAt(past, r.index);
    k < 0 || r.tel == Alerting || FactsOf(r) != FactsOf(past[k])
  }

  function Arrivals(past: seq<Report>, news: seq<Report>): (es: seq<Report>)
    ensures forall r :: r in es <==> r in news && Changed(past, r)
  {
    if news == [] then []
    else (if Changed(past, news[0]) then [news[0]] else []) + Arrivals(past, news[1..])
  }

  function Gone(r: Report): Report {
    r.(tel := Disconnected)
  }

  function Departures(past: seq<Report>, news: seq<Report>): (es: seq<Report>)
    ensures forall j | 0 <= j < |es| :: es[j].tel == Disconnected && EntryAt(news, es[j].index) < 0
    ensures forall j | 0 <= j < |es| :: EntryAt(past, es[j].index) >= 0
  {
    if past == [] then []
    else
      var rest := Departures(past[1..], news);
      if EntryAt(news, past[0].index) < 0 then [Gone(past[0])] + rest else rest
  }

  lemma {:induction false} Departs(past: seq<Report>, news: seq<Report>, k: nat)
    requires k < |past| && EntryAt(news, past[k].index) < 0
    ensures Gone(past[k]) in Departures(past, news)
  {
    if k > 0 {
      Departs(past[1..], news, k - 1);
    }
  }

  /** The events one batch is turned into, in order. */
  function Diff(past: seq<Report>, news: seq<Report>): seq<Report> {
    Arrivals(past, news) + Departures(past, news)
  }

  /** What is kept as the new snapshot. */
  function Kept(news: seq<Report>): (ks: seq<Report>)
    ensures forall r :: r in ks <==> r in news && r.tel != Disconnected
  {
    if news == [] then []
    else (if news[0].tel == Disconnected then [] else [news[0]]) + Kept(news[1..])
  }

  predicate Distinct(rs: seq<Report>) {
    forall i, j | 0 <= i < j < |rs| :: rs[i].index != rs[j].index
  }

  predicate SnapshotOk(past: seq<Report>) {
    Distinct(past) && forall i | 0 <= i < |past| :: past[i].tel != Disconnected
  }

  // ---------------------------------------------------------------- the difference refines replacement

  /** A snapshot as a map from index to entry. */
  function AsMap(rs: seq<Report>): map<int, Report> {
    if rs == [] then map[] else AsMap(rs[1..])[rs[0].index := rs[0]]
  }

  function Apply(m: map<int, Report>, e: Report): map<int, Report> {
    if e.tel == Disconnected then m - {e.index} else m[e.index := e]
  }

  function ApplyAll(m: map<int, Report>, es: seq<Report>): map<int, Report>
    decreases |es|
  {
    if es == [] then m else ApplyAll(Apply(m, es[0]), es[1..])
  }

  function At(m: map<int, Report>, index: int): Option<Report> {
    if index in m then Some(m[index]) else None
  }

  lemma {:induction false} MapAt(rs: seq<Report>, index: int)
    ensures At(AsMap(rs), index) == if EntryAt(rs, index) < 0 then None else Some(rs[EntryAt(rs, index)])
  {
    if rs != [] {
      MapAt(rs[1..], index);
    }
  }

  lemma NoLaterEntry(es: seq<Report>)
    requires Distinct(es) && es != []
    ensures EntryAt(es[1..], es[0].index) < 0
  {
    forall j | 0 <= j < |es[1..]| ensures es[1..][j].index != es[0].index {
      assert es[1..][j] == es[j + 1];
    }
  }

  /** What events with distinct indices leave at one index: the event for it decides, if there is one. */
  lemma {:induction false} AppliedAt(m: map<int, Report>, es: seq<Report>, index: int)
    requires Distinct(es)
    ensures At(ApplyAll(m, es), index) ==
      if EntryAt(es, index) < 0 then At(m, index)
      else if es[EntryAt(es, index)].tel == Disconnected then None
      else Some(es[EntryAt(es, index)])
    decreases |es|
  {
    if es != [] {
      AppliedAt(Apply(m, es[0]), es[1..], index);
      NoLaterEntry(es);
    }
  }

  lemma InDistinct(rs: seq<Report>, r: Report)
    requires Distinct(rs) && r in rs
    ensures EntryAt(rs, r.index) >= 0 && rs[EntryAt(rs, r.index)] == r
  {
    var i :| 0 <= i < |rs| && rs[i] == r;
    forall j | 0 <= j < |rs| && j != i ensures rs[j].index != rs[i].index {
      var low, high := if j < i then j else i, if j < i then i else j;
      assert rs[low].index != rs[high].index;
    }
  }

  lemma {:induction false} ArrivalsDistinct(past: seq<Report>, news: seq<Report>)
    requires Distinct(news)
    ensures Distinct(Arrivals(past, news))
  {
    if news != [] {
      var rest := Arrivals(past, news[1..]);
      ArrivalsDistinct(past, news[1..]);
      forall j | 0 <= j < |rest| ensures rest[j].index != news[0].index {
        assert rest[j] in news[1..];
        var i :| 0 <= i < |news[1..]| && news[1..][i] == rest[j];
        assert news[i + 1].index != news[0].index;
      }
    }
  }

  lemma {:induction false} DeparturesDistinct(past: seq<Report>, news: seq<Report>)
    requires Distinct(past)
    ensures Distinct(Departures(past, news))
  {
    if past != [] {
      var rest := Departures(past[1..], news);
      DeparturesDistinct(past[1..], news);
      forall j | 0 <= j < |rest| ensures rest[j].index != past[0].index {
        var i := EntryAt(past[1..], rest[j].index);
        assert past[i + 1].index != past[0].index;
      }
    }
  }

  lemma DiffDistinct(past: seq<Report>, news: seq<Report>)
    requires Distinct(past) && Distinct(news)
    ensures Distinct(Diff(past, news))
  {
    ArrivalsDistinct(past, news);
    DeparturesDistinct(past, news);
    var a, d := Arrivals(past, news), Departures(past, news);
    forall i, j | 0 <= i < |a| && 0 <= j < |d| ensures a[i].index != d[j].index {
      assert a[i] in a;
      InDistinct(news, a[i]);
    }
  }

  lemma {:induction false} KeptDistinct(news: seq<Report>)
    requires Distinct(news)
    ensures SnapshotOk(Kept(news))
  {
    if news != [] {
      var rest := Kept(news[1..]);
      KeptDistinct(news[1..]);
      forall j | 0 <= j < |rest| ensures rest[j].index != news[0].index {
        assert rest[j] in rest;
        var i :| 0 <= i < |news[1..]| && news[1..][i] == rest[j];
        assert news[i + 1].index != news[0].index;
      }
    }
  }

  /** The event for an index, if any. */
  lemma EventAt(past: seq<Report>, news: seq<Report>, index: int)
    requires SnapshotOk(past) && Distinct(news)
    ensures var e, n, o := EntryAt(Diff(past, news), index), EntryAt(news, index), EntryAt(past, index);
      && (n >= 0 && Changed(past, news[n]) ==> e >= 0 && Diff(past, news)[e] == news[n])
      && (n >= 0 && !Changed(past, news[n]) ==> e < 0)
      && (n < 0 && o >= 0 ==> e >= 0 && Diff(past, news)[e].tel == Disconnected)
      && (n < 0 && o < 0 ==> e < 0)
  {
    var d := Diff(past, news);
    var e, n, o := EntryAt(d, index), EntryAt(news, index), EntryAt(past, index);
    DiffDistinct(past, news);
    if e >= 0 {
      EventIsFrom(past, news, d[e]);
    }
    if n >= 0 && Changed(past, news[n]) {
      assert news[n] in Arrivals(past, news);
      assert news[n] in d;
      InDistinct(d, news[n]);
    }
    if n < 0 && o >= 0 {
      Departs(past, news, o);
      assert Gone(past[o]) in d;
      InDistinct(d, Gone(past[o]));
    }
  }

  lemma EventIsFrom(past: seq<Report>, news: seq<Report>, e: Report)
    requires e in Diff(past, news) && Distinct(news)
    ensures var n := EntryAt(news, e.index);
      if n >= 0 then news[n] == e && Changed(past, e) else EntryAt(past, e.index) >= 0 && e.tel == Disconnected
  {
    if e in Arrivals(past, news) {
      InDistinct(news, e);
    } else {
      var j :| 0 <= j < |Departures(past, news)| && Departures(past, news)[j] == e;
    }
  }

  /** An entry of the new report is an event exactly if it is alerting or the old snapshot has no entry that is alike in
      state, conference, video and type; and an entry of the old snapshot whose index the new report lacks is an event
      as disconnected. There are no other events. */
  lemma EventsExactly(past: seq<Report>, news: seq<Report>, e: Report)
    requires SnapshotOk(past) && Distinct(news)
    ensures e in Diff(past, news) <==>
      || (e in news && (e.tel == Alerting || forall p | p in past && p.index == e.index ::
            p.tel != e.tel || p.mpty != e.mpty || p.video != e.video || p.kind != e.kind))
      || (exists p | p in past :: e == p.(tel := Disconnected) && forall n | n in news :: n.index != p.index)
  {
    if e in news {
      ChangedExactly(past, e);
      InDistinct(news, e);
    }
    if e in Departures(past, news) {
      LeftFrom(past, news, e);
    }
    forall p | p in past && e == p.(tel := Disconnected) && forall n | n in news :: n.index != p.index
      ensures e in Departures(past, news)
    {
      InDistinct(past, p);
      Departs(past, news, EntryAt(past, p.index));
    }
  }

  lemma ChangedExactly(past: seq<Report>, e: Report)
    requires Distinct(past)
    ensures Changed(past, e) <==> e.tel == Alerting || forall p | p in past && p.index == e.index ::
      p.tel != e.tel || p.mpty != e.mpty || p.video != e.video || p.kind != e.kind
  {
    forall p | p in past && p.index == e.index
      ensures EntryAt(past, e.index) >= 0 && p == past[EntryAt(past, e.index)]
    {
      InDistinct(past, p);
    }
    if EntryAt(past, e.index) >= 0 {
      assert past[EntryAt(past, e.index)] in past;
    }
  }

  lemma {:induction false} LeftFrom(past: seq<Report>, news: seq<Report>, e: Report)
    requires e in Departures(past, news)
    ensures exists p | p in past :: e == p.(tel := Disconnected) && forall n | n in news :: n.index != p.index
  {
    if e in Departures(past[1..], news) {
      LeftFrom(past[1..], news, e);
      var p :| p in past[1..] && e == p.(tel := Disconnected) && forall n | n in news :: n.index != p.index;
      assert p in past;
    } else {
      assert past[0] in past && e == past[0].(tel := Disconnected);
      assert forall n | n in news :: n.index != past[0].index;
    }
  }

  /** The reports are about calls that are listed here, one for each, and in this order. */
  predicate InOrder(rs: seq<Report>, es: seq<Report>) {
    && (forall i | 0 <= i < |es| :: EntryAt(rs, es[i].index) >= 0)
    && (forall i, j | 0 <= i < j < |es| :: EntryAt(rs, es[i].index) < EntryAt(rs, es[j].index))
  }

  lemma LaterEntry(rs: seq<Report>, index: int)
    requires Distinct(rs) && rs != [] && EntryAt(rs[1..], index) >= 0
    ensures EntryAt(rs, index) == EntryAt(rs[1..], index) + 1
  {
    NoLaterEntry(rs);
  }

  lemma OneMoreInOrder(rs: seq<Report>, head: seq<Report>, rest: seq<Report>)
    requires Distinct(rs) && rs != [] && InOrder(rs[1..], rest)
    requires head == [] || (|head| == 1 && head[0].index == rs[0].index)
    ensures InOrder(rs, head + rest)
  {
    var es := head + rest;
    assert EntryAt(rs, rs[0].index) == 0;
    forall i | 0 <= i < |rest| ensures EntryAt(rs, rest[i].index) == EntryAt(rs[1..], rest[i].index) + 1 {
      LaterEntry(rs, rest[i].index);
    }
    hide EntryAt;
    assert forall i | |head| <= i < |es| :: es[i] == rest[i - |head|];
  }

  lemma {:induction false} ArrivalsInOrder(past: seq<Report>, news: seq<Report>)
    requires Distinct(news)
    ensures InOrder(news, Arrivals(past, news))
  {
    if news != [] {
      ArrivalsInOrder(past, news[1..]);
      OneMoreInOrder(news, if Changed(past, news[0]) then [news[0]] else [], Arrivals(past, news[1..]));
    }
  }

  lemma {:induction false} DeparturesInOrder(past: seq<Report>, news: seq<Report>)
    requires Distinct(past)
    ensures InOrder(past, Departures(past, news))
  {
    if past != [] {
      var rest := Departures(past[1..], news);
      DeparturesInOrder(past[1..], news);
      OneMoreInOrder(past, if EntryAt(news, past[0].index) < 0 then [Gone(past[0])] else [], rest);
      assert [Gone(past[0])] + rest == Departures(past, news) || [] + rest == rest == Departures(past, news);
    }
  }

  /** The events come in the order of the new report; those of the calls it no longer lists follow, in the old order. */
  lemma EventsInOrder(past: seq<Report>, news: seq<Report>)
    requires SnapshotOk(past) && Distinct(news)
    ensures exists n: nat | n <= |Diff(past, news)| ::
      InOrder(news, Diff(past, news)[..n]) && InOrder(past, Diff(past, news)[n..])
      && forall i | n <= i < |Diff(past, news)| :: EntryAt(news, Diff(past, news)[i].index) < 0
  {
    var a, d := Arrivals(past, news), Departures(past, news);
    ArrivalsInOrder(past, news);
    DeparturesInOrder(past, news);
    assert Diff(past, news)[..|a|] == a && Diff(past, news)[|a|..] == d;
  }

  /** The events, applied to the old snapshot, give the new one, entry by entry: handling only the differences misses no
      change of state, conference, video or type. */
  lemma DiffIsReplacement(past: seq<Report>, news: seq<Report>)
    requires SnapshotOk(past) && Distinct(news)
    ensures var replayed, kept := ApplyAll(AsMap(past), Diff(past, news)), AsMap(Kept(news));
      && replayed.Keys == kept.Keys
      && forall index | index in kept ::
           && replayed[index].tel == kept[index].tel && replayed[index].mpty == kept[index].mpty
           && replayed[index].video == kept[index].video && replayed[index].kind == kept[index].kind
  {
    var replayed, kept := ApplyAll(AsMap(past), Diff(past, news)), AsMap(Kept(news));
    forall index
      ensures index in replayed <==> index in kept
      ensures index in kept ==> FactsOf(replayed[index]) == FactsOf(kept[index])
    {
      SameAt(past, news, index);
    }
  }

  lemma SameAt(past: seq<Report>, news: seq<Report>, index: int)
    requires SnapshotOk(past) && Distinct(news)
    ensures var left, right := At(ApplyAll(AsMap(past), Diff(past, news)), index), At(AsMap(Kept(news)), index);
      (left.Some? <==> right.Some?) && (left.Some? ==> FactsOf(left.value) == FactsOf(right.value))
  {
    DiffDistinct(past, news);
    AppliedAt(AsMap(past), Diff(past, news), index);
    MapAt(past, index);
    MapAt(Kept(news), index);
    EventAt(past, news, index);
    KeptAt(news, index);
  }

  lemma KeptAt(news: seq<Report>, index: int)
    requires Distinct(news)
    ensures var k, n := EntryAt(Kept(news), index), EntryAt(news, index);
      if n >= 0 && news[n].tel != Disconnected then k >= 0 && Kept(news)[k] == news[n] else k < 0
  {
    var k, n := EntryAt(Kept(news), index), EntryAt(news, index);
    KeptDistinct(news);
    if k >= 0 {
      assert Kept(news)[k] in Kept(news);
      InDistinct(news, Kept(news)[k]);
    }
    if n >= 0 && news[n].tel != Disconnected {
      assert news[n] in Kept(news);
      InDistinct(Kept(news), news[n]);
    }
  }

  /** An entry that did not change and is not alerting is not handled again. */
  lemma UnchangedIsSilent(past: seq<Report>, news: seq<Report>, r: Report)
    requires SnapshotOk(past) && Distinct(news) && r in news && r.tel != Alerting
    requires EntryAt(past, r.index) >= 0 && FactsOf(past[EntryAt(past, r.index)]) == FactsOf(r)
    ensures EntryAt(Diff(past, news), r.index) < 0
  {
    InDistinct(news, r);
    EventAt(past, news, r.index);
  }
}
