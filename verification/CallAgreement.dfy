/** The states, types and video states of the calls agree with the last report of their slot, except for the calls that
    did not follow it. */
module CallAgreement {
  import opened Options
  import opened CallTable
  import opened CallHandlers
  import opened CallSafety
  import opened CallReports
  import opened CallOutcomes
  import opened CallPresence
  import opened CallReference
  import opened CallTracking

  /** What an entry says about its call. */
  datatype Aspect = OfState | OfType | OfVideo

  /** The call is as the entry says. */
  predicate Shows(c: Call, r: Report, a: Aspect) {
    match a
    case OfState => c.tel == r.tel
    case OfType => c.kind == r.kind
    case OfVideo => c.video == r.video
  }

  predicate SaysTheSame(r: Report, r': Report, a: Aspect) {
    match a
    case OfState => r.tel == r'.tel
    case OfType => r.kind == r'.kind
    case OfVideo => r.video == r'.video
  }

  /** A call listed in the snapshot is as it is listed exactly if its key is not among these. */
  ghost predicate Agreed(t: seq<Call>, a: Aspect, slot: int, snapshot: seq<Report>, behind: set<(int, int)>) {
    forall index | index > 0 && EntryAt(snapshot, index) >= 0 :: AgreedAt(t, a, slot, snapshot, index, behind)
  }

  predicate AgreedAt(t: seq<Call>, a: Aspect, slot: int, snapshot: seq<Report>, index: int, behind: set<(int, int)>)
    requires EntryAt(snapshot, index) >= 0
  {
    var c := CallAt(t, index, slot);
    c.Some? ==> (Shows(c.value, snapshot[EntryAt(snapshot, index)], a) <==> (index, slot) !in behind)
  }

  /** A known call keeps what the report says otherwise. The state: a dialing report moves no call, an alerting one no
      disconnecting call, a ringing or waiting one no call whose type and video state are as reported. The type: nothing
      turns a call into one of an unsupported type. The video state: only an IMS call or one of a new type takes it. An
      unknown state, or alerting for a disconnecting call, changes nothing at all. */
  predicate Missed(s: State, r: Report, a: Aspect) {
    Found(s, r) &&
      var c := Known(s, r);
      var ignored := r.tel == Tel.Other || (r.tel == Alerting && c.tel == Disconnecting);
      match a
      case OfState =>
        c.tel != r.tel
        && (ignored || r.tel == Dialing || (r.tel in {Ringing, Waiting} && c.kind == r.kind && c.video == r.video))
      case OfType => c.kind != r.kind && (ignored || r.kind == CallType.Other)
      case OfVideo =>
        c.video != r.video && (ignored || (c.kind != Ims && (r.kind == CallType.Other || r.kind == c.kind)))
  }

  /** The keys of the events that their calls miss. */
  function MissedKeys(s: State, a: Aspect, es: seq<Report>): set<(int, int)> {
    set i | 0 <= i < |es| && Missed(HandleAll(s, es[..i]), es[i], a) :: (es[i].index, es[i].slot)
  }

  /** The calls that are behind after a batch: those that miss their events, and of the others without an event those
      that were behind. */
  function BehindAfterBatch(s: State, a: Aspect, es: seq<Report>, slot: int, behind: set<(int, int)>)
    : set<(int, int)>
  {
    MissedKeys(s, a, es) + set key | key in behind && !(key.1 == slot && EntryAt(es, key.0) >= 0)
  }

  lemma MissedAt(s: State, a: Aspect, es: seq<Report>, slot: int, index: int)
    requires Named(es, slot) && Distinct(es)
    ensures var e := EntryAt(es, index);
      (index, slot) in MissedKeys(s, a, es) <==> e >= 0 && Missed(HandleAll(s, es[..e]), es[e], a)
  {
    hide Missed;
    var e := EntryAt(es, index);
    if e >= 0 && Missed(HandleAll(s, es[..e]), es[e], a) {
      assert (es[e].index, es[e].slot) in MissedKeys(s, a, es);
    }
    if (index, slot) in MissedKeys(s, a, es) {
      var i :| 0 <= i < |es| && Missed(HandleAll(s, es[..i]), es[i], a) && (es[i].index, es[i].slot) == (index, slot);
      assert forall j | 0 <= j < i :: es[j].index != es[i].index;
      assert i == e;
    }
  }

  /** After a report its call is as the report says exactly if it does not miss the report; if it does, it is in this as
      it was. */
  lemma MissedDiffers(s: State, r: Report, a: Aspect)
    requires Inv(s) && CallAfter(s, r).Some?
    ensures Shows(CallAfter(s, r).value, r, a) <==> !Missed(s, r, a)
    ensures Missed(s, r, a) ==> forall r' :: Shows(CallAfter(s, r).value, r', a) <==> Shows(Known(s, r), r', a)
  {
    hide Present;
    if Found(s, r) {
      assert Agrees(Known(s, r));
    }
  }

  lemma SameShown(c: Call, c': Call, r: Report, a: Aspect)
    requires View(c) == View(c')
    ensures Shows(c, r, a) <==> Shows(c', r, a)
  {
    assert c.tel == View(c).tel && c.kind == View(c).kind && c.video == View(c).video;
  }

  lemma ViewShows(t: seq<Call>, index: int, slot: int, c: Option<Call>, r: Report, a: Aspect)
    requires ViewAt(t, index, slot) == ViewOf(c)
    ensures var c' := CallAt(t, index, slot);
      (c'.Some? <==> c.Some?) && (c.Some? ==> (Shows(c'.value, r, a) <==> Shows(c.value, r, a)))
  {
    hide Shows, CallAt;
    if c.Some? {
      SameShown(CallAt(t, index, slot).value, c.value, r, a);
    }
  }

  lemma SameView(t: seq<Call>, t': seq<Call>, index: int, slot: int, r: Report, a: Aspect)
    requires ViewAt(t', index, slot) == ViewAt(t, index, slot)
    ensures var c, c' := CallAt(t, index, slot), CallAt(t', index, slot);
      (c'.Some? <==> c.Some?) && (c.Some? ==> (Shows(c'.value, r, a) <==> Shows(c.value, r, a)))
  {
    ViewShows(t', index, slot, CallAt(t, index, slot), r, a);
  }

  lemma EntryAgrees(s: State, a: Aspect, past: seq<Report>, news: seq<Report>, slot: int, behind: set<(int, int)>,
                    index: int)
    requires Inv(s) && SnapshotOk(past) && Distinct(news) && Named(past, slot) && Named(news, slot) && index > 0
    requires Agreed(s.table, a, slot, past, behind) && EntryAt(Kept(news), index) >= 0
    ensures var es := Diff(past, news);
      AgreedAt(HandleAll(s, es).table, a, slot, Kept(news), index, BehindAfterBatch(s, a, es, slot, behind))
  {
    hide Handle, Inv, Shows, Missed, MissedKeys, CallAfter;
    var es, k := Diff(past, news), EntryAt(Kept(news), index);
    var r, e, t := Kept(news)[k], EntryAt(es, index), HandleAll(s, es).table;
    EntryHasCall(s, past, news, slot, index);
    NamedDiff(past, news, slot);
    DiffDistinct(past, news);
    MissedAt(s, a, es, slot, index);
    KeptAt(news, index);
    EventAt(past, news, index);
    if Changed(past, r) {
      var c := CallAfter(HandleAll(s, es[..e]), r);
      ViewShows(t, index, slot, c, r, a);
      if c.Some? {
        HandleAllOk(s, es[..e], slot);
        MissedDiffers(HandleAll(s, es[..e]), r, a);
      }
    } else {
      assert AgreedAt(s.table, a, slot, past, index, behind);
      SameView(s.table, t, index, slot, r, a);
      UnchangedShows(past, r, a);
    }
  }

  lemma UnchangedShows(past: seq<Report>, r: Report, a: Aspect)
    requires !Changed(past, r)
    ensures forall c :: Shows(c, r, a) <==> Shows(c, past[EntryAt(past, r.index)], a)
  {
    assert FactsOf(r) == FactsOf(past[EntryAt(past, r.index)]);
  }

  /** A batch keeps the agreement, on its own slot with the new snapshot and on the others with the old ones. */
  lemma BatchAgrees(s: State, a: Aspect, past: seq<Report>, news: seq<Report>, slot: int, behind: set<(int, int)>)
    requires Inv(s) && SnapshotOk(past) && Distinct(news) && Named(past, slot) && Named(news, slot)
    requires Agreed(s.table, a, slot, past, behind)
    ensures var es := Diff(past, news);
      Agreed(HandleAll(s, es).table, a, slot, Kept(news), BehindAfterBatch(s, a, es, slot, behind))
  {
    var es := Diff(past, news);
    forall index | index > 0 && EntryAt(Kept(news), index) >= 0
      ensures AgreedAt(HandleAll(s, es).table, a, slot, Kept(news), index, BehindAfterBatch(s, a, es, slot, behind))
    {
      EntryAgrees(s, a, past, news, slot, behind, index);
    }
  }

  lemma OthersAgree(s: State, a: Aspect, es: seq<Report>, slot: int, other: int, snapshot: seq<Report>,
                    behind: set<(int, int)>)
    requires Inv(s) && Named(es, slot) && Distinct(es) && other != slot && Agreed(s.table, a, other, snapshot, behind)
    ensures Agreed(HandleAll(s, es).table, a, other, snapshot, BehindAfterBatch(s, a, es, slot, behind))
  {
    hide Handle, Inv, Shows, Missed;
    var behind', t := BehindAfterBatch(s, a, es, slot, behind), HandleAll(s, es).table;
    forall index | index > 0 && EntryAt(snapshot, index) >= 0
      ensures AgreedAt(t, a, other, snapshot, index, behind')
    {
      KeyAfter(s, es, slot, index, other);
      assert (index, other) in behind' <==> (index, other) in behind;
      assert AgreedAt(s.table, a, other, snapshot, index, behind);
      SameView(s.table, t, index, other, snapshot[EntryAt(snapshot, index)], a);
    }
  }

  /** A report of a single call puts its call behind if it makes it other than listed, and brings it back if it makes it
      as it is listed. */
  function BehindAfterReport(s: State, a: Aspect, r: Report, snapshot: seq<Report>, behind: set<(int, int)>)
    : set<(int, int)>
  {
    var k := EntryAt(snapshot, r.index);
    if k < 0 || Missed(s, r, a) then behind
    else if SaysTheSame(snapshot[k], r, a) then behind - {(r.index, r.slot)}
    else behind + {(r.index, r.slot)}
  }

  lemma SameShows(c: Call, r: Report, r': Report, a: Aspect)
    requires Shows(c, r, a)
    ensures Shows(c, r', a) <==> SaysTheSame(r', r, a)
  {
  }

  lemma SingleAgrees(s: State, a: Aspect, r: Report, slot: int, snapshot: seq<Report>, own: seq<Report>,
                     behind: set<(int, int)>)
    requires Inv(s) && r.index > 0 && Agreed(s.table, a, slot, snapshot, behind) && (r.slot == slot ==> own == snapshot)
    ensures Agreed(Handle(s, r).table, a, slot, snapshot, BehindAfterReport(s, a, r, own, behind))
  {
    var t, behind' := Handle(s, r).table, BehindAfterReport(s, a, r, own, behind);
    forall index | index > 0 && EntryAt(snapshot, index) >= 0 ensures AgreedAt(t, a, slot, snapshot, index, behind') {
      SingleAgreesAt(s, a, r, slot, snapshot, own, behind, index);
    }
  }

  lemma SingleAgreesAt(s: State, a: Aspect, r: Report, slot: int, snapshot: seq<Report>, own: seq<Report>,
                       behind: set<(int, int)>, index: int)
    requires Inv(s) && r.index > 0 && index > 0 && EntryAt(snapshot, index) >= 0
    requires AgreedAt(s.table, a, slot, snapshot, index, behind) && (r.slot == slot ==> own == snapshot)
    ensures AgreedAt(Handle(s, r).table, a, slot, snapshot, index, BehindAfterReport(s, a, r, own, behind))
  {
    hide Handle, Inv, Shows, Missed, CallAfter, SaysTheSame;
    var t, x := Handle(s, r).table, snapshot[EntryAt(snapshot, index)];
    KeyStep(s, r, index, slot);
    if index == r.index && slot == r.slot {
      var c := CallAfter(s, r);
      ViewShows(t, index, slot, c, x, a);
      if c.Some? {
        MissedDiffers(s, r, a);
        if Missed(s, r, a) {
          KnownIsAt(s, r, a);
        } else {
          SameShows(c.value, r, x, a);
        }
      }
    } else {
      SameView(s.table, t, index, slot, x, a);
    }
  }

  lemma KnownIsAt(s: State, r: Report, a: Aspect)
    requires Missed(s, r, a)
    ensures CallAt(s.table, r.index, r.slot) == Some(Known(s, r))
  {
  }

  /** Tasks that are no reports change nothing a report speaks of. */
  lemma WithinAgrees(t: seq<Call>, t': seq<Call>, a: Aspect, slot: int, snapshot: seq<Report>, behind: set<(int, int)>,
                     r: Report)
    requires Agreed(t, a, slot, snapshot, behind) && Within(t', t, r) && r.index == 0
    ensures Agreed(t', a, slot, snapshot, behind)
  {
    hide Shows;
    forall index | index > 0 && EntryAt(snapshot, index) >= 0 ensures AgreedAt(t', a, slot, snapshot, index, behind) {
      WithinView(t', t, r, index, slot);
      assert AgreedAt(t, a, slot, snapshot, index, behind);
      if CallAt(t', index, slot).Some? {
        SameView(t, t', index, slot, snapshot[EntryAt(snapshot, index)], a);
      }
    }
  }
}
