/** The delayed-task table of the event handler: a list ordered by 32-bit due ticks that wrap. The functions
    say what the list operations compute, the class runs the source's loops and keeps, beside the ticks, the
    true (unwrapped) due times the order is meant to follow. */
module DelayedTable {
  import opened Ticks

  const INVALID_ID := 0

  datatype Entry = Entry(id: Word, dueTick: Word)

  /** How many task ids there are: every word but the invalid one. */
  const IDS := WORD - 1

  /** The next task id: the counter wraps and skips the invalid id, so that it runs through 1, .., IDS in a circle. */
  function NextId(last: Word): (id: Word)
    ensures id == last % IDS + 1
  {
    var id := (last + 1) % WORD;
    if id == INVALID_ID then 1 else id
  }

  function DueTick(now: Word, ticks: Word): Word {
    (now + if ticks == 0 then 1 else ticks) % WORD
  }

  /** The tick computed from the wrapped clock is the wrapped true due time, at least one tick ahead. */
  lemma DueTickIsWrapped(now: int, ticks: Word)
    ensures DueTick(now % WORD, ticks) == (if ticks > 1 then now + ticks else now + 1) % WORD
    ensures TrueDue(Post(ticks, now)) == if ticks > 1 then now + ticks else now + 1
  {
    ModShift(now % WORD + if ticks == 0 then 1 else ticks, now / WORD);
  }

  /** Where the first scan stops: at the first entry the new one is not strictly later than. */
  function SkipSooner(q: seq<Entry>, due: Word, i: nat): (p: nat)
    requires i <= |q|
    ensures i <= p <= |q|
    decreases |q| - i
  {
    if i < |q| && !IsDue(due, q[i].dueTick) then SkipSooner(q, due, i + 1) else i
  }

  /** Where the second scan stops: past the run of equal ticks. */
  function SkipEqual(q: seq<Entry>, due: Word, i: nat): (p: nat)
    requires i <= |q|
    ensures i <= p <= |q|
    decreases |q| - i
  {
    if i < |q| && q[i].dueTick == due then SkipEqual(q, due, i + 1) else i
  }

  function InsertPos(q: seq<Entry>, due: Word): (p: nat)
    ensures p <= |q|
  {
    SkipEqual(q, due, SkipSooner(q, due, 0))
  }

  function InsertAt<T>(q: seq<T>, p: nat, x: T): (r: seq<T>)
    requires p <= |q|
    ensures |r| == |q| + 1
  {
    q[..p] + [x] + q[p..]
  }

  function RemoveAt<T>(q: seq<T>, p: nat): (r: seq<T>)
    requires p < |q|
    ensures |r| == |q| - 1
  {
    q[..p] + q[p + 1..]
  }

  /** How many entries RunDueTasks takes off the front. */
  function DueCount(q: seq<Entry>, now: Word): (k: nat)
    ensures k <= |q|
  {
    if q != [] && IsDue(q[0].dueTick, now) then 1 + DueCount(q[1..], now) else 0
  }

  /** They are due, and the next one is not. */
  lemma {:induction false} DueCountStops(q: seq<Entry>, now: Word)
    ensures var k := DueCount(q, now);
      (forall i | 0 <= i < k :: IsDue(q[i].dueTick, now)) && (k < |q| ==> !IsDue(q[k].dueTick, now))
  {
    if q != [] {
      DueCountStops(q[1..], now);
      assert forall i | 1 <= i < |q| :: q[i] == q[1..][i - 1];
    }
  }

  /** The first entry with the id, or the length of the list. */
  function IndexOf(q: seq<Entry>, id: Word): (k: nat)
    ensures k <= |q|
    ensures k < |q| ==> q[k].id == id
    ensures forall i | 0 <= i < k :: q[i].id != id
  {
    if q == [] || q[0].id == id then 0
    else
      var k := IndexOf(q[1..], id);
      assert forall i | 1 <= i < 1 + k :: q[i] == q[1..][i - 1];
      1 + k
  }

  /** The true due time of an entry and its place in posting order. */
  datatype Stamp = Stamp(due: int, serial: nat)

  predicate Before(a: Stamp, b: Stamp) {
    a.due < b.due || (a.due == b.due && a.serial < b.serial)
  }

  ghost predicate Ordered(w: seq<Stamp>) {
    forall i, j | 0 <= i < j < |w| :: Before(w[i], w[j])
  }

  /** The ticks in the list are the wrapped images of the true due times. */
  ghost predicate Wrapped(q: seq<Entry>, w: seq<Stamp>) {
    && |q| == |w|
    && forall i | 0 <= i < |q| :: q[i].dueTick == w[i].due % WORD
  }

  /** All true times in play lie in one window shorter than half a word starting at lo. */
  ghost predicate InWindow(w: seq<Stamp>, lo: int) {
    forall i | 0 <= i < |w| :: lo <= w[i].due < lo + HALF
  }

  ghost predicate SerialsBelow(w: seq<Stamp>, serial: nat) {
    forall i | 0 <= i < |w| :: w[i].serial < serial
  }

  lemma {:induction false} SkipSoonerFinds(q: seq<Entry>, w: seq<Stamp>, lo: int, t: int, i: nat)
    requires Wrapped(q, w) && Ordered(w) && InWindow(w, lo) && lo <= t < lo + HALF
    requires i <= |q| && forall j | 0 <= j < i :: w[j].due < t
    ensures var p := SkipSooner(q, t % WORD, i);
      && (forall j | 0 <= j < p :: w[j].due < t)
      && (forall j | p <= j < |w| :: t <= w[j].due)
    decreases |q| - i
  {
    if i < |q| {
      WrappedOrder(t, w[i].due);
      if w[i].due < t {
        SkipSoonerFinds(q, w, lo, t, i + 1);
      }
    }
  }

  lemma {:induction false} SkipEqualFinds(q: seq<Entry>, w: seq<Stamp>, lo: int, t: int, i: nat)
    requires Wrapped(q, w) && Ordered(w) && InWindow(w, lo) && lo <= t < lo + HALF
    requires i <= |q| && (forall j | 0 <= j < i :: w[j].due <= t) && forall j | i <= j < |w| :: t <= w[j].due
    ensures var p := SkipEqual(q, t % WORD, i);
      && (forall j | 0 <= j < p :: w[j].due <= t)
      && (forall j | p <= j < |w| :: t < w[j].due)
    decreases |q| - i
  {
    if i < |q| {
      WrappedOrder(t, w[i].due);
      if w[i].due == t {
        SkipEqualFinds(q, w, lo, t, i + 1);
      }
    }
  }

  /** The two wrapped scans find the place true time asks for: after everything due no later, before
      everything due later. */
  lemma InsertPosIsStable(q: seq<Entry>, w: seq<Stamp>, lo: int, t: int)
    requires Wrapped(q, w) && Ordered(w) && InWindow(w, lo) && lo <= t < lo + HALF
    ensures var p := InsertPos(q, t % WORD);
      && (forall j | 0 <= j < p :: w[j].due <= t)
      && (forall j | p <= j < |w| :: t < w[j].due)
  {
    SkipSoonerFinds(q, w, lo, t, 0);
    SkipEqualFinds(q, w, lo, t, SkipSooner(q, t % WORD, 0));
  }

  /** Posting keeps the table in order of true due time, first in first out among equal ones. */
  lemma InsertKeepsOrder(q: seq<Entry>, w: seq<Stamp>, lo: int, e: Entry, s: Stamp)
    requires Wrapped(q, w) && Ordered(w) && InWindow(w, lo) && lo <= s.due < lo + HALF
    requires SerialsBelow(w, s.serial) && e.dueTick == s.due % WORD
    ensures var p := InsertPos(q, e.dueTick);
      Wrapped(InsertAt(q, p, e), InsertAt(w, p, s)) && Ordered(InsertAt(w, p, s)) && InWindow(InsertAt(w, p, s), lo)
  {
    InsertPosIsStable(q, w, lo, s.due);
  }

  lemma RemoveKeepsOrder(q: seq<Entry>, w: seq<Stamp>, p: nat)
    requires Wrapped(q, w) && Ordered(w) && p < |q|
    ensures Wrapped(RemoveAt(q, p), RemoveAt(w, p)) && Ordered(RemoveAt(w, p))
  {
    var r := RemoveAt(w, p);
    assert forall i | 0 <= i < |r| :: r[i] == w[if i < p then i else i + 1];
  }

  /** What RunDueTasks takes is exactly what is truly due: nothing early, nothing due left behind. */
  lemma {:induction false} DueCountIsExact(q: seq<Entry>, w: seq<Stamp>, lo: int, now: int)
    requires Wrapped(q, w) && Ordered(w) && InWindow(w, lo) && lo <= now < lo + HALF
    ensures var k := DueCount(q, now % WORD);
      && (forall i | 0 <= i < k :: w[i].due <= now)
      && (forall i | k <= i < |w| :: now < w[i].due)
  {
    if q != [] {
      WrappedOrder(w[0].due, now);
      if w[0].due <= now {
        DueCountIsExact(q[1..], w[1..], lo, now);
        var k := DueCount(q[1..], now % WORD);
        assert forall i | 1 <= i < |w| :: w[i] == w[1..][i - 1];
      }
    }
  }

  /** One use of the table, with the true time at which it happens. */
  datatype Op =
    | Post(ticks: Word, now: int)
    | Remove(id: Word)
    | TakeDue(now: int)

  /** The table beside its true history: `log` holds what was taken for execution, in order, and `clock`
      and `lastTake` are the true times of the latest operation and of the latest TakeDue. */
  datatype History = History(entries: seq<Entry>, lastId: Word, stamps: seq<Stamp>, serial: nat,
                             log: seq<Stamp>, clock: int, lastTake: int)

  function TrueDue(op: Op): int
    requires op.Post?
  {
    op.now + if op.ticks == 0 then 1 else op.ticks
  }

  function Apply(h: History, op: Op, capacity: nat): (r: History)
    requires |h.entries| == |h.stamps|
    ensures |r.entries| == |r.stamps|
  {
    match op
    case Post(ticks, now) =>
      if |h.entries| >= capacity then h.(clock := now)
      else
        var id := NextId(h.lastId);
        var due := TrueDue(op);
        var p := InsertPos(h.entries, due % WORD);
        h.(entries := InsertAt(h.entries, p, Entry(id, due % WORD)), lastId := id,
           stamps := InsertAt(h.stamps, p, Stamp(due, h.serial)), serial := h.serial + 1, clock := now)
    case Remove(id) =>
      var k := IndexOf(h.entries, id);
      if id == INVALID_ID || k == |h.entries| then h
      else h.(entries := RemoveAt(h.entries, k), stamps := RemoveAt(h.stamps, k))
    case TakeDue(now) =>
      var k := DueCount(h.entries, now % WORD);
      h.(entries := h.entries[k..], stamps := h.stamps[k..], log := h.log + h.stamps[..k],
         clock := now, lastTake := now)
  }

  /** The clock does not run backwards and the operation's time shares a half-word window with the table. */
  ghost predicate Timely(h: History, op: Op) {
    match op
    case Post(_, now) =>
      h.clock <= now && exists lo {:trigger InWindow(h.stamps, lo)} ::
        lo <= TrueDue(op) < lo + HALF && InWindow(h.stamps, lo)
    case Remove(_) => true
    case TakeDue(now) =>
      h.clock <= now && exists lo {:trigger InWindow(h.stamps, lo)} ::
        lo <= now < lo + HALF && InWindow(h.stamps, lo)
  }

  ghost predicate TimelyRun(h: History, ops: seq<Op>, capacity: nat)
    requires |h.entries| == |h.stamps|
    decreases |ops|
  {
    ops == [] || (Timely(h, ops[0]) && TimelyRun(Apply(h, ops[0], capacity), ops[1..], capacity))
  }

  function Run(h: History, ops: seq<Op>, capacity: nat): (r: History)
    requires |h.entries| == |h.stamps|
    ensures |r.entries| == |r.stamps|
    decreases |ops|
  {
    if ops == [] then h else Run(Apply(h, ops[0], capacity), ops[1..], capacity)
  }

  /** Everything executed so far, followed by everything still waiting, is in order of true due time and
      first in first out among equal times; what has run was due when it ran, what waits was not. */
  ghost predicate InOrder(h: History) {
    && Wrapped(h.entries, h.stamps)
    && Ordered(h.log + h.stamps)
    && SerialsBelow(h.log + h.stamps, h.serial)
    && (forall i | 0 <= i < |h.log| :: h.log[i].due <= h.lastTake)
    && (forall i | 0 <= i < |h.stamps| :: h.lastTake < h.stamps[i].due)
    && h.lastTake <= h.clock
  }

  function Fresh(now: int): History {
    History([], INVALID_ID, [], 0, [], now, now)
  }

  lemma SuffixInOrder(h: History)
    requires InOrder(h)
    ensures Ordered(h.stamps) && SerialsBelow(h.stamps, h.serial)
  {
    var all := h.log + h.stamps;
    assert forall i | 0 <= i < |h.stamps| :: h.stamps[i] == all[|h.log| + i];
  }

  /** Joins an ordered past with an ordered future that lies strictly after it. */
  lemma JoinOrdered(past: seq<Stamp>, future: seq<Stamp>, t: int)
    requires Ordered(past) && Ordered(future)
    requires forall i | 0 <= i < |past| :: past[i].due <= t
    requires forall i | 0 <= i < |future| :: t < future[i].due
    ensures Ordered(past + future)
  {
  }

  lemma PrefixOrdered(h: History)
    requires InOrder(h)
    ensures Ordered(h.log)
  {
    var all := h.log + h.stamps;
    assert forall i | 0 <= i < |h.log| :: h.log[i] == all[i];
  }

  lemma PostInOrder(h: History, op: Op, capacity: nat)
    requires InOrder(h) && op.Post? && Timely(h, op)
    ensures InOrder(Apply(h, op, capacity))
  {
    if |h.entries| < capacity {
      SuffixInOrder(h);
      PrefixOrdered(h);
      var lo :| lo <= TrueDue(op) < lo + HALF && InWindow(h.stamps, lo);
      var due := TrueDue(op);
      var e, s := Entry(NextId(h.lastId), due % WORD), Stamp(due, h.serial);
      InsertKeepsOrder(h.entries, h.stamps, lo, e, s);
      var r := Apply(h, op, capacity);
      JoinOrdered(r.log, r.stamps, r.lastTake);
      var all := h.log + h.stamps;
      forall i | 0 <= i < |r.log + r.stamps| ensures (r.log + r.stamps)[i].serial < r.serial {
        var x := (r.log + r.stamps)[i];
        assert x == s || x in all;
      }
    }
  }

  lemma RemoveInOrder(h: History, op: Op, capacity: nat)
    requires InOrder(h) && op.Remove?
    ensures InOrder(Apply(h, op, capacity))
  {
    var k := IndexOf(h.entries, op.id);
    if op.id != INVALID_ID && k < |h.entries| {
      SuffixInOrder(h);
      PrefixOrdered(h);
      RemoveKeepsOrder(h.entries, h.stamps, k);
      var r := Apply(h, op, capacity);
      forall i | 0 <= i < |r.stamps| ensures r.stamps[i] in h.stamps {
        assert r.stamps[i] == h.stamps[if i < k then i else i + 1];
      }
      JoinOrdered(r.log, r.stamps, r.lastTake);
      var all := h.log + h.stamps;
      assert forall i | 0 <= i < |r.log + r.stamps| :: (r.log + r.stamps)[i] in all;
    }
  }

  /** The due prefix moves to the log. */
  lemma TakeKeeps(h: History, k: nat, now: int)
    requires InOrder(h) && k <= |h.entries| && h.clock <= now
    requires forall i | 0 <= i < k :: h.stamps[i].due <= now
    requires forall i | k <= i < |h.stamps| :: now < h.stamps[i].due
    ensures InOrder(h.(entries := h.entries[k..], stamps := h.stamps[k..], log := h.log + h.stamps[..k],
                       clock := now, lastTake := now))
  {
    assert (h.log + h.stamps[..k]) + h.stamps[k..] == h.log + h.stamps;
  }

  lemma TakeInOrder(h: History, op: Op, capacity: nat)
    requires InOrder(h) && op.TakeDue? && Timely(h, op)
    ensures InOrder(Apply(h, op, capacity))
  {
    SuffixInOrder(h);
    var lo :| lo <= op.now < lo + HALF && InWindow(h.stamps, lo);
    DueCountIsExact(h.entries, h.stamps, lo, op.now);
    TakeKeeps(h, DueCount(h.entries, op.now % WORD), op.now);
  }

  /** Over any run whose times stay inside moving half-word windows, delayed tasks execute in order of their
      true due times, first posted first among equal ones, none before it is due and none that is due left
      behind: the 32-bit wrap of the tick counter is not observable. */
  lemma {:induction false} RunInOrder(h: History, ops: seq<Op>, capacity: nat)
    requires InOrder(h) && TimelyRun(h, ops, capacity)
    ensures InOrder(Run(h, ops, capacity))
    decreases |ops|
  {
    if ops != [] {
      match ops[0] {
        case Post(_, _) => PostInOrder(h, ops[0], capacity);
        case Remove(_) => RemoveInOrder(h, ops[0], capacity);
        case TakeDue(_) => TakeInOrder(h, ops[0], capacity);
      }
      RunInOrder(Apply(h, ops[0], capacity), ops[1..], capacity);
    }
  }

  /** From an empty table, over every run inside the window, the tasks come out in order of true due time and of
      posting among equals, and none before its time. */
  lemma TasksComeInOrder(now: int, ops: seq<Op>, capacity: nat)
    requires TimelyRun(Fresh(now), ops, capacity)
    ensures InOrder(Run(Fresh(now), ops, capacity)) && Ordered(Run(Fresh(now), ops, capacity).log)
  {
    RunInOrder(Fresh(now), ops, capacity);
    PrefixOrdered(Run(Fresh(now), ops, capacity));
  }

  // ---------------------------------------------------------------- ids

  /** The id of the post with this serial number. */
  function IdOf(serial: nat): (id: Word)
    ensures 1 <= id <= IDS
  {
    serial % IDS + 1
  }

  /** Ids follow the order of posting and start again after IDS posts. */
  ghost predicate Numbered(h: History) {
    && |h.entries| == |h.stamps|
    && h.lastId == (if h.serial == 0 then INVALID_ID else IdOf(h.serial - 1))
    && (forall i | 0 <= i < |h.stamps| :: h.entries[i].id == IdOf(h.stamps[i].serial))
    && (forall i | 0 <= i < |h.stamps| :: h.stamps[i].serial < h.serial)
    && (forall i, j | 0 <= i < j < |h.stamps| :: h.stamps[i].serial != h.stamps[j].serial)
  }

  lemma NextIdFollows(serial: nat)
    ensures NextId(if serial == 0 then INVALID_ID else IdOf(serial - 1)) == IdOf(serial)
  {
    if serial > 0 {
      ModMultiple((serial - 1) % IDS + 1, (serial - 1) / IDS);
    }
  }

  /** The later history has one waiting post more, at this place. */
  predicate PutIn(h: History, r: History, p: nat, e: Entry, x: Stamp) {
    && p <= |h.entries| == |h.stamps|
    && r.entries == h.entries[..p] + [e] + h.entries[p..]
    && r.stamps == h.stamps[..p] + [x] + h.stamps[p..]
  }

  /** The later history lacks the waiting post at this place and no other. */
  predicate TakenOut(h: History, r: History, k: nat) {
    && k < |h.entries| == |h.stamps|
    && r.entries == h.entries[..k] + h.entries[k + 1..]
    && r.stamps == h.stamps[..k] + h.stamps[k + 1..]
  }

  /** This is the first entry with the id. */
  predicate FirstWith(q: seq<Entry>, id: Word, k: nat) {
    k < |q| && q[k].id == id && forall i | 0 <= i < k :: q[i].id != id
  }

  /** A post to a full table changes nothing; any other adds one entry with the id of its serial number, due its delay
      and at least one tick from now. */
  lemma PostAddsOne(h: History, ticks: Word, now: int, capacity: nat)
    requires Numbered(h)
    ensures var r := Apply(h, Post(ticks, now), capacity);
      var due := if ticks > 1 then now + ticks else now + 1;
      var e, x := Entry(h.serial % IDS + 1, due % WORD), Stamp(due, h.serial);
      && r.log == h.log
      && (|h.entries| >= capacity ==> r == h.(clock := now))
      && (|h.entries| < capacity ==>
            r.serial == h.serial + 1 && r.lastId == e.id && exists p: nat :: PutIn(h, r, p, e, x))
  {
    NextIdFollows(h.serial);
    DueTickIsWrapped(now, ticks);
    if |h.entries| < capacity {
      var due := TrueDue(Post(ticks, now));
      var p := InsertPos(h.entries, due % WORD);
      assert PutIn(h, Apply(h, Post(ticks, now), capacity), p, Entry(IdOf(h.serial), due % WORD), Stamp(due, h.serial));
    }
  }

  /** A removal takes out the first entry with the id and nothing else, and changes nothing if there is none. */
  lemma RemoveTakesFirst(h: History, id: Word, capacity: nat)
    requires Numbered(h)
    ensures var r := Apply(h, Remove(id), capacity);
      && r.log == h.log && r.serial == h.serial
      && ((forall i | 0 <= i < |h.entries| :: h.entries[i].id != id) ==> r == h)
      && (forall k: nat | FirstWith(h.entries, id, k) :: TakenOut(h, r, k))
  {
    var r := Apply(h, Remove(id), capacity);
    forall k: nat | FirstWith(h.entries, id, k) ensures TakenOut(h, r, k) {
      assert h.entries[k].id == IdOf(h.stamps[k].serial);
      assert k == IndexOf(h.entries, id);
    }
  }

  /** What leaves the table by TakeDue goes to the end of the log, in its order, and nothing else does. */
  lemma TakeLogs(h: History, now: int, capacity: nat)
    requires |h.entries| == |h.stamps|
    ensures var r := Apply(h, TakeDue(now), capacity);
      && h.log <= r.log && r.log + r.stamps == h.log + h.stamps && r.serial == h.serial
      && r.entries == h.entries[|h.entries| - |r.entries|..]
  {
    var k := DueCount(h.entries, now % WORD);
    assert (h.log + h.stamps[..k]) + h.stamps[k..] == h.log + h.stamps;
  }

  lemma PutInNumbered(h: History, r: History, p: nat)
    requires Numbered(h) && r.serial == h.serial + 1 && r.lastId == IdOf(h.serial)
    requires exists e, x {:trigger PutIn(h, r, p, e, x)} ::
      PutIn(h, r, p, e, x) && e.id == IdOf(h.serial) && x.serial == h.serial
    ensures Numbered(r)
  {
  }

  lemma StepNumbered(h: History, op: Op, capacity: nat)
    requires Numbered(h)
    ensures Numbered(Apply(h, op, capacity))
  {
    var r := Apply(h, op, capacity);
    match op
    case Post(ticks, now) =>
      if |h.entries| < capacity {
        PostAddsOne(h, ticks, now, capacity);
        var due := if ticks > 1 then now + ticks else now + 1;
        var p: nat :| PutIn(h, r, p, Entry(h.serial % IDS + 1, due % WORD), Stamp(due, h.serial));
        PutInNumbered(h, r, p);
      }
    case Remove(id) =>
      var k := IndexOf(h.entries, id);
      if k < |h.entries| {
        RemoveTakesFirst(h, id, capacity);
        assert FirstWith(h.entries, id, k);
        TakenOutNumbered(h, r, k);
      }
    case TakeDue(now) =>
  }

  lemma TakenOutNumbered(h: History, r: History, k: nat)
    requires Numbered(h) && TakenOut(h, r, k) && r.serial == h.serial && r.lastId == h.lastId
    ensures Numbered(r)
  {
  }

  lemma {:induction false} RunNumbered(h: History, ops: seq<Op>, capacity: nat)
    requires Numbered(h)
    ensures Numbered(Run(h, ops, capacity))
    decreases |ops|
  {
    if ops != [] {
      StepNumbered(h, ops[0], capacity);
      RunNumbered(Apply(h, ops[0], capacity), ops[1..], capacity);
    }
  }

  lemma SameIdExactly(a: nat, b: nat)
    ensures IdOf(a) == IdOf(b) <==> (a - b) % IDS == 0
  {
    var qa, qb := a / IDS, b / IDS;
    assert a - b == IDS * (qa - qb) + (a % IDS - b % IDS);
    ModMultiple(a % IDS - b % IDS, qa - qb);
  }

  lemma ModMultiple(x: int, k: int)
    ensures (IDS * k + x) % IDS == x % IDS
  {
    assert IDS * k + x == IDS * (k + x / IDS) + x % IDS;
  }

  lemma CloseIdsDiffer(a: nat, b: nat)
    requires a < b < a + IDS
    ensures IdOf(a) != IdOf(b)
  {
    SameIdExactly(b, a);
  }

  /** Over every run, whatever the clock does: two waiting tasks have the same id exactly if a multiple of IDS posts lie
      between them, and the latest post was given the id of its serial number. */
  lemma IdsOverRun(now: int, ops: seq<Op>, capacity: nat, i: nat, j: nat)
    requires var h := Run(Fresh(now), ops, capacity); i < j < |h.entries|
    ensures var h := Run(Fresh(now), ops, capacity);
      && h.stamps[i].serial != h.stamps[j].serial
      && (h.entries[i].id == h.entries[j].id <==> (h.stamps[i].serial - h.stamps[j].serial) % IDS == 0)
      && h.lastId == (h.serial - 1) % IDS + 1
  {
    RunNumbered(Fresh(now), ops, capacity);
    var h := Run(Fresh(now), ops, capacity);
    SameIdExactly(h.stamps[i].serial, h.stamps[j].serial);
    assert h.serial > 0;
  }

  /** Of the posts in the table and the given one, no two are IDS posts apart. */
  ghost predicate Recent(h: History, serial: nat) {
    && h.serial <= serial + IDS
    && forall i | 0 <= i < |h.stamps| :: h.serial <= h.stamps[i].serial + IDS
  }

  /** Over every run: RemoveAsyncTask with the id a post returned takes out exactly that post if it still waits, and
      nothing if it does not, unless IDS posts or more lie behind. */
  lemma RemoveTakesThatPost(now: int, ops: seq<Op>, capacity: nat, serial: nat)
    requires var h := Run(Fresh(now), ops, capacity); serial < h.serial && Recent(h, serial)
    ensures var h := Run(Fresh(now), ops, capacity);
      var r := Apply(h, Remove(serial % IDS + 1), capacity);
      && (forall k: nat | k < |h.stamps| && h.stamps[k].serial == serial :: TakenOut(h, r, k))
      && ((forall k | 0 <= k < |h.stamps| :: h.stamps[k].serial != serial) ==> r == h)
  {
    RunNumbered(Fresh(now), ops, capacity);
    var h := Run(Fresh(now), ops, capacity);
    RemoveTakesFirst(h, IdOf(serial), capacity);
    forall k | 0 <= k < |h.stamps| ensures h.entries[k].id == IdOf(serial) <==> h.stamps[k].serial == serial {
      TellsApart(h, serial, k);
    }
    forall k: nat | k < |h.stamps| && h.stamps[k].serial == serial ensures FirstWith(h.entries, IdOf(serial), k) {
    }
  }

  lemma TellsApart(h: History, serial: nat, k: nat)
    requires Numbered(h) && serial < h.serial && Recent(h, serial) && k < |h.stamps|
    ensures h.entries[k].id == IdOf(serial) <==> h.stamps[k].serial == serial
  {
    if h.stamps[k].serial < serial {
      CloseIdsDiffer(h.stamps[k].serial, serial);
    } else if serial < h.stamps[k].serial {
      CloseIdsDiffer(serial, h.stamps[k].serial);
    }
  }

  // ---------------------------------------------------------------- the list and its timer

  /** How many ticks the timer is started for. */
  function ArmTicks(dueTick: Word, now: Word): Word {
    if IsDue(dueTick, now) then 1 else (dueTick - now) % WORD
  }

  /** They reach from now to the true due time, and are at least one. */
  lemma ArmTicksReach(due: int, now: int)
    requires -HALF < due - now < HALF
    ensures ArmTicks(due % WORD, now % WORD) == if due - now > 1 then due - now else 1
  {
    WrappedOrder(due, now);
    WrappedDistance(due, now);
  }

  /** The table as the handler drives it, with the one-shot timer it shares. */
  class Table {
    const capacity: nat
    const freq: Word
    var entries: seq<Entry>
    var lastId: Word
    // The timer: whether it is pending, and the delay in milliseconds it was last started with.
    var pending: bool
    var delayMs: Word

    constructor (capacity: nat, freq: Word)
      ensures entries == [] && lastId == INVALID_ID && !pending && this.capacity == capacity && this.freq == freq
    {
      this.capacity, this.freq := capacity, freq;
      entries, lastId, pending, delayMs := [], INVALID_ID, false, 0;
    }

    /** The timer is set for the earliest entry, at least one tick ahead, or stopped when there is none. */
    ghost predicate Armed(now: Word)
      reads this
    {
      && (pending <==> entries != [])
      && (pending ==> delayMs == TicksToMs(ArmTicks(entries[0].dueTick, now), freq))
    }

    method Arm(now: Word)
      modifies this`pending, this`delayMs
      ensures Armed(now)
    {
      if entries == [] {
        pending := false;
        return;
      }
      var dueTick := entries[0].dueTick;
      var ticks: Word := if IsDue(dueTick, now) then 1 else (dueTick - now) % WORD;
      pending, delayMs := true, TicksToMs(ticks, freq);
    }

    /** The delayed branch of PostAsyncTask; the invalid id stands for a full table. */
    method Post(ticks: Word, now: Word) returns (id: Word)
      modifies this
      ensures old(|entries|) >= capacity ==> id == INVALID_ID && entries == old(entries) && lastId == old(lastId)
      ensures old(|entries|) < capacity ==> id == lastId == NextId(old(lastId))
      ensures old(|entries|) < capacity ==>
          entries == InsertAt(old(entries), InsertPos(old(entries), DueTick(now, ticks)),
                              Entry(id, DueTick(now, ticks)))
      ensures if old(|entries|) < capacity && InsertPos(old(entries), DueTick(now, ticks)) == 0
        then Armed(now) else pending == old(pending) && delayMs == old(delayMs)
    {
      if |entries| >= capacity {
        return INVALID_ID;
      }
      lastId := (lastId + 1) % WORD;
      if lastId == INVALID_ID {
        lastId := (lastId + 1) % WORD;
      }
      var dueTick := DueTick(now, ticks);
      var pos := FindPlace(dueTick);
      entries := entries[..pos] + [Entry(lastId, dueTick)] + entries[pos..];
      if pos == 0 {
        Arm(now);
      }
      return lastId;
    }

    /** The two scans of PostAsyncTask. */
    method FindPlace(dueTick: Word) returns (pos: nat)
      ensures pos == InsertPos(entries, dueTick)
    {
      pos := 0;
      while pos < |entries| && !IsDue(dueTick, entries[pos].dueTick)
        invariant pos <= |entries|
        invariant SkipSooner(entries, dueTick, 0) == SkipSooner(entries, dueTick, pos)
      {
        pos := pos + 1;
      }
      while pos < |entries| && entries[pos].dueTick == dueTick
        invariant pos <= |entries|
        invariant InsertPos(entries, dueTick) == SkipEqual(entries, dueTick, pos)
      {
        pos := pos + 1;
      }
    }

    /** RemoveAsyncTask: takes out the first entry with the id; re-arms when it was the earliest. */
    method Remove(id: Word, now: Word) returns (found: bool)
      modifies this`entries, this`pending, this`delayMs
      ensures found <==> id != INVALID_ID && exists i | 0 <= i < |old(entries)| :: old(entries)[i].id == id
      ensures found ==> exists k | 0 <= k < |old(entries)| ::
        && old(entries)[k].id == id && (forall i | 0 <= i < k :: old(entries)[i].id != id)
        && entries == old(entries)[..k] + old(entries)[k + 1..] == RemoveAt(old(entries), IndexOf(old(entries), id))
        && (if k == 0 then Armed(now) else pending == old(pending) && delayMs == old(delayMs))
      ensures !found ==> entries == old(entries) && pending == old(pending) && delayMs == old(delayMs)
    {
      if id == INVALID_ID {
        return false;
      }
      var it := 0;
      while it < |entries|
        invariant it <= |entries|
        invariant forall i | 0 <= i < it :: entries[i].id != id
      {
        if entries[it].id == id {
          assert it == IndexOf(entries, id);
          entries := entries[..it] + entries[it + 1..];
          if it == 0 {
            Arm(now);
          }
          return true;
        }
        it := it + 1;
      }
      return false;
    }

    /** The locked part of RunDueTasks: splices the due entries off the front, in order, and re-arms. */
    method TakeDue(now: Word) returns (due: seq<Entry>)
      modifies this`entries, this`pending, this`delayMs
      ensures var k := DueCount(old(entries), now);
        due == old(entries)[..k] && entries == old(entries)[k..]
      ensures Armed(now)
    {
      due := [];
      while entries != [] && IsDue(entries[0].dueTick, now)
        invariant due + entries == old(entries)
        invariant |due| + DueCount(entries, now) == DueCount(old(entries), now)
        decreases |entries|
      {
        due, entries := due + [entries[0]], entries[1..];
      }
      Arm(now);
    }
  }

  /** An armed table has the timer running exactly if it has entries, for the time that is left until the first one is
      truly due, in whole ticks and at least one. */
  lemma ArmedForTheFirst(t: Table, due: int, now: int)
    requires t.Armed(now % WORD)
    requires t.entries != [] ==> t.entries[0].dueTick == due % WORD && -HALF < due - now < HALF
    ensures t.pending <==> t.entries != []
    ensures t.pending ==> t.delayMs == TicksToMs(if due - now > 1 then due - now else 1, t.freq)
  {
    if t.entries != [] {
      ArmTicksReach(due, now);
    }
  }
}
