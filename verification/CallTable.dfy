/** The call table of CallObjectManager and the two state views of a call (CallBase, CarrierCall). */
module CallTable {
  import opened Options

  const MAX_CALL_OBJECTS := 5
  const ECC_RESERVED := 1

  /** Other stands for every type CreateNewCallByCallType refuses. */
  datatype CallType = Cs | Ims | Other

  datatype Direction = Incoming | Outgoing

  /** Other stands for unknown, idle and answered, which no handler accepts. */
  datatype Tel = Active | Holding | Dialing | Alerting | Ringing | Waiting | Disconnecting | Disconnected | Other

  datatype Running = Create | Connecting | Outbound | Inbound | Live | Hold | Ending | Ended

  datatype Call = Call(id: int, slot: int, index: int, kind: CallType, ecc: bool, dir: Direction,
                       tel: Tel, running: Running, video: int, resumable: bool)

  // ---------------------------------------------------------------- the two views

  /** The running state that belongs to a telephony state. */
  function Image(tel: Tel): Option<Running> {
    match tel
    case Active => Some(Live)
    case Holding => Some(Hold)
    case Dialing | Alerting => Some(Outbound)
    case Ringing | Waiting => Some(Inbound)
    case Disconnecting => Some(Ending)
    case Disconnected => Some(Ended)
    case Other => None
  }

  /** SetTelCallState. A repeated state is ignored, except on a new call and except DIALING. */
  function Advance(c: Call, next: Tel): (r: Call)
    ensures r.id == c.id && r.slot == c.slot && r.index == c.index && r.ecc == c.ecc && r.dir == c.dir
  {
    if c.running != Create && c.tel == next && next != Dialing then c
    else c.(tel := next, running := if Image(next).Some? then Image(next).value else c.running)
  }

  predicate Agrees(c: Call) {
    Image(c.tel) == Some(c.running)
  }

  lemma AdvanceAgrees(c: Call, next: Tel)
    requires next != Tel.Other && (Agrees(c) || c.running == Create)
    ensures Agrees(Advance(c, next)) && Advance(c, next).tel == next
    ensures Advance(Advance(c, next), next) == Advance(c, next)
  {
  }

  /** What every call in the table is like between two tasks: the views agree, it is not disconnected, and a call
      that has no real index yet is an outgoing call that is dialing. */
  predicate Settled(c: Call) {
    && Agrees(c) && c.tel != Disconnected
    && c.index >= 0 && (c.index == 0 ==> c.tel == Dialing && c.dir == Outgoing)
  }

  // ---------------------------------------------------------------- lookups

  /** The first call with this id, -1 if there is none. */
  function ById(t: seq<Call>, id: int): (r: int)
    ensures -1 <= r < |t|
    ensures r >= 0 ==> t[r].id == id
    ensures forall j | 0 <= j < (if r < 0 then |t| else r) :: t[j].id != id
  {
    if t == [] then -1
    else if t[0].id == id then 0
    else var r := ById(t[1..], id); if r < 0 then -1 else r + 1
  }

  predicate HasKey(c: Call, index: int, slot: int) {
    c.index == index && c.slot == slot
  }

  /** The first call with this index on this slot. */
  function ByKey(t: seq<Call>, index: int, slot: int): (r: int)
    ensures -1 <= r < |t|
    ensures r >= 0 ==> HasKey(t[r], index, slot)
    ensures forall j | 0 <= j < (if r < 0 then |t| else r) :: !HasKey(t[j], index, slot)
  {
    if t == [] then -1
    else if HasKey(t[0], index, slot) then 0
    else var r := ByKey(t[1..], index, slot); if r < 0 then -1 else r + 1
  }

  /** The first call with this index, whatever its slot. */
  function ByIndex(t: seq<Call>, index: int): (r: int)
    ensures -1 <= r < |t|
    ensures r >= 0 ==> t[r].index == index
    ensures forall j | 0 <= j < (if r < 0 then |t| else r) :: t[j].index != index
  {
    if t == [] then -1
    else if t[0].index == index then 0
    else var r := ByIndex(t[1..], index); if r < 0 then -1 else r + 1
  }

  /** The last call in this running state: these lookups go backwards. */
  function LastRunning(t: seq<Call>, running: Running): (r: int)
    ensures -1 <= r < |t|
    ensures r >= 0 ==> t[r].running == running
    ensures forall j | r < j < |t| :: t[j].running != running
  {
    if t == [] then -1
    else if t[|t| - 1].running == running then |t| - 1
    else LastRunning(t[..|t| - 1], running)
  }

  /** The number of calls in this telephony state. */
  function CountTel(t: seq<Call>, tel: Tel): (n: nat)
    ensures n <= |t|
    ensures n == 0 <==> forall j | 0 <= j < |t| :: t[j].tel != tel
  {
    if t == [] then 0 else (if t[0].tel == tel then 1 else 0) + CountTel(t[1..], tel)
  }

  function CountRunning(t: seq<Call>, running: Running): (n: nat)
    ensures n <= |t|
  {
    if t == [] then 0 else (if t[0].running == running then 1 else 0) + CountRunning(t[1..], running)
  }

  function CountNormal(t: seq<Call>): (n: nat)
    ensures n <= |t|
    ensures n == |t| <==> forall j | 0 <= j < |t| :: !t[j].ecc
  {
    if t == [] then 0 else (if t[0].ecc then 0 else 1) + CountNormal(t[1..])
  }

  // ---------------------------------------------------------------- changes

  function Limit(ecc: bool): int {
    if ecc then MAX_CALL_OBJECTS else MAX_CALL_OBJECTS - ECC_RESERVED
  }

  /** The admission check of AddOneCallObject. */
  predicate CanAdd(t: seq<Call>, c: Call) {
    ById(t, c.id) < 0 && |t| < Limit(c.ecc)
  }

  function Add(t: seq<Call>, c: Call): seq<Call> {
    if CanAdd(t, c) then t + [c] else t
  }

  function Delete(t: seq<Call>, id: int): seq<Call> {
    var i := ById(t, id);
    if i < 0 then t else t[..i] + t[i + 1..]
  }

  /** A change to a call object, seen in the table if the object is there. */
  function Put(t: seq<Call>, c: Call): (r: seq<Call>)
    ensures |r| == |t|
  {
    var i := ById(t, c.id);
    if i < 0 then t else t[i := c]
  }

  // ---------------------------------------------------------------- the invariant

  predicate UniqueIds(t: seq<Call>) {
    forall i, j | 0 <= i < j < |t| :: t[i].id != t[j].id
  }

  predicate SameKey(a: Call, b: Call) {
    a.index > 0 && a.index == b.index && a.slot == b.slot
  }

  /** At most one call for each index on a slot, so that "the first match" is the only one. */
  predicate UniqueKeys(t: seq<Call>) {
    forall i, j | 0 <= i < j < |t| :: !SameKey(t[i], t[j])
  }

  /** One place is left for an emergency call: a full table already holds one. */
  predicate Fits(t: seq<Call>) {
    |t| <= MAX_CALL_OBJECTS && (|t| == MAX_CALL_OBJECTS ==> exists i | 0 <= i < |t| :: t[i].ecc)
  }

  predicate CallOk(c: Call, lastId: int, dialEcc: bool) {
    && 0 < c.id <= lastId && Settled(c)
    && (c.ecc ==> dialEcc && c.dir == Outgoing)
  }

  predicate TableOk(t: seq<Call>, lastId: int, dialEcc: bool) {
    && UniqueIds(t) && UniqueKeys(t) && Fits(t)
    && forall i | 0 <= i < |t| :: CallOk(t[i], lastId, dialEcc)
  }

  /** The call exists and the stack has not named it yet. */
  predicate Unnamed(t: seq<Call>, id: int) {
    exists i | 0 <= i < |t| :: t[i].id == id && t[i].index == 0
  }

  lemma FoundById(t: seq<Call>, i: int)
    requires UniqueIds(t) && 0 <= i < |t|
    ensures ById(t, t[i].id) == i
  {
  }

  lemma FoundByKey(t: seq<Call>, i: int)
    requires UniqueKeys(t) && 0 <= i < |t| && t[i].index > 0
    ensures ByKey(t, t[i].index, t[i].slot) == i
  {
    var k := ByKey(t, t[i].index, t[i].slot);
    if 0 <= k < i {
      assert SameKey(t[k], t[i]);
    }
  }

  lemma DeleteKeeps(t: seq<Call>, id: int, i: int)
    requires UniqueIds(t) && 0 <= i < |t| && t[i].id != id
    ensures t[i] in Delete(t, id)
  {
    var k := ById(t, id);
    if 0 <= k < i {
      assert Delete(t, id)[i - 1] == t[i];
    } else {
      assert Delete(t, id)[i] == t[i];
    }
  }

  /** Every call of the shorter table is at a place of the longer one, in the same order. */
  function Place(t: seq<Call>, id: int, j: int): int {
    if 0 <= ById(t, id) <= j then j + 1 else j
  }

  lemma DeletePlaces(t: seq<Call>, id: int)
    ensures forall j | 0 <= j < |Delete(t, id)| :: 0 <= Place(t, id, j) < |t| && Delete(t, id)[j] == t[Place(t, id, j)]
  {
  }

  lemma DeleteGone(t: seq<Call>, id: int)
    requires UniqueIds(t)
    ensures ById(Delete(t, id), id) < 0
    ensures |Delete(t, id)| == if ById(t, id) < 0 then |t| else |t| - 1
  {
    DeletePlaces(t, id);
  }

  lemma PutLast(t: seq<Call>, c: Call, c': Call)
    requires ById(t, c.id) < 0 && c'.id == c.id
    ensures Put(t + [c], c') == t + [c']
  {
    assert (t + [c])[|t|] == c;
    assert ById(t + [c], c.id) == |t|;
  }

  lemma DeleteOk(t: seq<Call>, id: int, lastId: int, dialEcc: bool)
    requires TableOk(t, lastId, dialEcc)
    ensures TableOk(Delete(t, id), lastId, dialEcc)
  {
    DeletePlaces(t, id);
    DeleteGone(t, id);
  }

  lemma AppendOk(t: seq<Call>, c: Call, lastId: int, dialEcc: bool)
    requires TableOk(t, lastId, dialEcc) && CanAdd(t, c) && CallOk(c, lastId, dialEcc)
    requires c.index > 0 ==> ByKey(t, c.index, c.slot) < 0
    ensures TableOk(t + [c], lastId, dialEcc)
  {
    var r := t + [c];
    forall i, j | 0 <= i < j < |r| ensures !SameKey(r[i], r[j]) {
      assert r[i] == t[i];
      if j < |t| {
        assert !SameKey(t[i], t[j]);
      } else {
        assert c.index > 0 ==> !HasKey(t[i], c.index, c.slot);
      }
    }
    if |r| == MAX_CALL_OBJECTS {
      assert r[|t|].ecc;
    }
  }

  lemma PutOk(t: seq<Call>, c: Call, lastId: int, dialEcc: bool)
    requires TableOk(t, lastId, dialEcc) && CallOk(c, lastId, dialEcc)
    requires var i := ById(t, c.id);
      i >= 0 ==> t[i].ecc == c.ecc && (c.index > 0 ==> HasKey(t[i], c.index, c.slot) || ByKey(t, c.index, c.slot) < 0)
    ensures TableOk(Put(t, c), lastId, dialEcc)
  {
    var k := ById(t, c.id);
    if k >= 0 {
      var r := Put(t, c);
      forall i, j | 0 <= i < j < |r| ensures !SameKey(r[i], r[j]) {
        assert !SameKey(t[i], t[j]);
        if i == k || j == k {
          var o := if i == k then j else i;
          if c.index > 0 && !HasKey(t[k], c.index, c.slot) {
            assert !HasKey(t[o], c.index, c.slot);
          }
        }
      }
      if |r| == MAX_CALL_OBJECTS {
        var e :| 0 <= e < |t| && t[e].ecc;
        assert r[e].ecc;
      }
    }
  }

  // ---------------------------------------------------------------- what admission promises

  /** Calls that are not emergency calls never take the reserved place. */
  lemma ReservedPlace(t: seq<Call>)
    requires Fits(t)
    ensures CountNormal(t) <= MAX_CALL_OBJECTS - ECC_RESERVED
  {
  }

  /** An emergency call with a new id is turned away only if the table holds an emergency call already. */
  lemma EccRefusedOnlyForEcc(t: seq<Call>, c: Call)
    requires Fits(t) && c.ecc && ById(t, c.id) < 0 && !CanAdd(t, c)
    ensures exists i | 0 <= i < |t| :: t[i].ecc
  {
  }

  /** Neither ringing nor connected calls can reach the 30 at which an incoming call would be hung up. */
  lemma LimitsAreOutOfReach(t: seq<Call>, running: Running)
    requires Fits(t)
    ensures CountRunning(t, running) < 30
  {
  }
}
