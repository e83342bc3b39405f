/** Call objects and the list that holds them, as CallBase, CarrierCall, CallObjectManager and CallStatusManager
    update them in place. */
module CallObjects {
  import opened Options
  import opened CallTable
  import opened CallHandlers
  import opened CallSafety
  import opened CallOutcomes
  import opened CallPresence
  import H = CallHandlers
  import R = CallReference
  import C = CallCommands

  class CallBase {
    var callId: int
    var slot: int
    var index: int
    var callType: CallType
    const ecc: bool
    const dir: Direction
    var callState: Tel
    var runningState: Running
    var video: int
    var canUnHold: bool

    ghost function View(): Call
      reads this
    {
      Call(callId, slot, index, callType, ecc, dir, callState, runningState, video, canUnHold)
    }

    constructor (r: Report, dir: Direction, id: int, ecc: bool)
      ensures View() == NewCall(r, dir, id, ecc)
    {
      callId, slot, index, callType := id, r.slot, r.index, r.kind;
      this.ecc, this.dir := ecc, dir;
      callState, runningState, video, canUnHold := r.tel, Create, r.video, true;
    }

    method SetTelCallState(next: Tel)
      modifies this`callState, this`runningState
      ensures View() == Advance(old(View()), next)
    {
      if runningState != Create && callState == next && next != Dialing {
        return;
      }
      callState := next;
      match next
      case Dialing => runningState := Outbound;
      case Ringing => runningState := Inbound;
      case Waiting => runningState := Inbound;
      case Active => runningState := Live;
      case Holding => runningState := Hold;
      case Disconnected => runningState := Ended;
      case Disconnecting => runningState := Ending;
      case Alerting => runningState := Outbound;
      case Other =>
    }
  }

  /** What the objects of a list look like now. */
  ghost function Views(t: seq<CallBase>): (r: seq<Call>)
    reads t
    ensures |r| == |t| && forall i | 0 <= i < |t| :: r[i] == t[i].View()
  {
    seq(|t|, i requires 0 <= i < |t| reads t => t[i].View())
  }

  lemma ViewsAppend(t: seq<CallBase>, c: CallBase)
    ensures Views(t + [c]) == Views(t) + [c.View()]
  {
    forall i | 0 <= i < |t| + 1 ensures Views(t + [c])[i] == (Views(t) + [c.View()])[i] {
      assert (t + [c])[i] == if i < |t| then t[i] else c;
    }
  }

  lemma ViewsWithout(t: seq<CallBase>, k: nat)
    requires k < |t|
    ensures Views(t[..k] + t[k + 1..]) == Views(t)[..k] + Views(t)[k + 1..]
  {
    var u, v := t[..k] + t[k + 1..], Views(t)[..k] + Views(t)[k + 1..];
    forall i | 0 <= i < |u| ensures Views(u)[i] == v[i] {
      if i < k {
        assert u[i] == t[i] && v[i] == Views(t)[i];
      } else {
        assert u[i] == t[i + 1] && v[i] == Views(t)[i + 1];
      }
    }
  }

  lemma AddUnique(t: seq<Call>, c: Call)
    requires UniqueIds(t)
    ensures UniqueIds(Add(t, c))
  {
  }

  lemma DeleteUnique(t: seq<Call>, id: int)
    requires UniqueIds(t)
    ensures UniqueIds(Delete(t, id))
  {
    DeletePlaces(t, id);
  }

  /** A list in which only the entry with this id changed. */
  lemma PutByChange(t: seq<Call>, t': seq<Call>, c: Call)
    requires UniqueIds(t) && |t'| == |t|
    requires forall j | 0 <= j < |t| :: t'[j] == if t[j].id == c.id then c else t[j]
    ensures t' == Put(t, c) && UniqueIds(t') && ById(t', c.id) == ById(t, c.id)
  {
    var k := ById(t, c.id);
    forall j | 0 <= j < |t| ensures t'[j] == Put(t, c)[j] {
      assert j != k && k >= 0 ==> t[j].id != t[k].id;
    }
    forall i, j | 0 <= i < j < |t'| ensures t'[i].id != t'[j].id {
      assert t[i].id != t[j].id;
    }
  }

  /** An object of a list, or one whose id the list does not have, changed in place but for its id. */
  lemma ObjectChanged(t: seq<CallBase>, c: CallBase, before: seq<Call>)
    requires UniqueIds(before) && |before| == |t|
    requires forall j | 0 <= j < |t| :: if t[j] == c then before[j].id == c.callId else t[j].View() == before[j]
    requires c in t || ById(before, c.callId) < 0
    ensures Views(t) == Put(before, c.View()) && UniqueIds(Views(t))
    ensures c in t || ById(Views(t), c.callId) < 0
  {
    if c in t {
      var i :| 0 <= i < |t| && t[i] == c;
      forall j | 0 <= j < |t| ensures before[j].id == c.callId <==> j == i {
        assert before[i].id == c.callId;
      }
    }
    PutByChange(before, Views(t), c.View());
  }

  /** What Replace leaves behind for a call c and a new object that asks for its place. */
  predicate Replaced(t: seq<Call>, c: Call, asked: Call, t': seq<Call>, d: Call) {
    var rest, made := Delete(t, c.id), Advance(asked.(running := c.running), c.tel);
    if CanAdd(rest, asked) then t' == rest + [made] && d == made else t' == Add(rest, c) && d == c
  }

  lemma RefreshOther(s: State, c: Call, r: Report)
    requires r.kind == CallType.Other
    ensures Refresh(s, c, r) == Held(s.(lastId := s.lastId + 1), c)
  {
  }

  lemma ReplacedIsRefresh(s: State, c: Call, r: Report, t': seq<Call>, d: Call)
    requires r.kind != CallType.Other
    requires Replaced(s.table, c, NewCall(r, c.dir, c.id, NewEcc(s, c.dir)), t', d)
    ensures Refresh(s, c, r) == Held(s.(lastId := s.lastId + 1, table := t'), d)
  {
  }

  /** The call manager. Each method is one of the source's (or a part of one), and its
      contract says that the new state is the one the function of CallHandlers gives. */
  class CallManager {
    var table: seq<CallBase>
    var lastId: int
    var mo: Option<int>
    var hang: Option<int>
    var protect: Option<int>
    var dialing: bool
    var restore: bool
    var dialEcc: bool
    var log: seq<Command>
    ghost var calls: seq<Call>
    ghost var objects: set<CallBase>

    /** The state as a value. */
    ghost function Now(): State
      reads this
    {
      State(calls, lastId, mo, hang, protect, dialing, restore, dialEcc, log)
    }

    /** calls: what the objects of the table look like. objects: every call object the manager has made. */
    ghost predicate Valid()
      reads this, table
    {
      && calls == Views(table) && UniqueIds(calls)
      && forall i | 0 <= i < |table| :: table[i] in objects
    }

    /** The object is the table's, or no object of the table has its id. */
    ghost predicate Has(c: CallBase)
      reads this, c
    {
      c in objects && (c in table || ById(calls, c.callId) < 0)
    }

    constructor ()
      ensures Valid() && objects == {} && Now() == State([], 0, None, None, None, false, false, false, [])
    {
      table, lastId, mo, hang, protect := [], 0, None, None, None;
      dialing, restore, dialEcc, log := false, false, false, [];
      calls, objects := [], {};
    }

    // -------------------------------------------------------------- CallObjectManager

    method GetOneCallObject(id: int) returns (k: int)
      requires Valid()
      ensures k == ById(calls, id)
      ensures k >= 0 ==> Has(table[k]) && table[k].View() == calls[k]
    {
      k := 0;
      while k < |table|
        invariant 0 <= k <= |table| && forall j | 0 <= j < k :: table[j].callId != id
      {
        if table[k].callId == id {
          return;
        }
        k := k + 1;
      }
      k := -1;
    }

    method GetOneCallObjectByIndexAndSlot(index: int, slot: int) returns (k: int)
      requires Valid()
      ensures k == ByKey(calls, index, slot)
      ensures k >= 0 ==> Has(table[k]) && table[k].View() == calls[k]
    {
      k := 0;
      while k < |table|
        invariant 0 <= k <= |table| && forall j | 0 <= j < k :: !HasKey(table[j].View(), index, slot)
      {
        if table[k].index == index && table[k].slot == slot {
          return;
        }
        k := k + 1;
      }
      k := -1;
    }

    method GetOneCallObjectByIndex(index: int) returns (k: int)
      requires Valid()
      ensures k == ByIndex(calls, index)
      ensures k >= 0 ==> Has(table[k]) && table[k].View() == calls[k]
    {
      k := 0;
      while k < |table|
        invariant 0 <= k <= |table| && forall j | 0 <= j < k :: table[j].index != index
      {
        if table[k].index == index {
          return;
        }
        k := k + 1;
      }
      k := -1;
    }

    method GetOneCallObjectByRunningState(running: Running) returns (k: int)
      requires Valid()
      ensures k == LastRunning(calls, running)
      ensures k >= 0 ==> Has(table[k]) && table[k].View() == calls[k]
    {
      k := |table| - 1;
      while k >= 0
        invariant -1 <= k < |table| && forall j | k < j < |table| :: table[j].runningState != running
      {
        if table[k].runningState == running {
          return;
        }
        k := k - 1;
      }
    }

    method GetCallNum(tel: Tel) returns (n: nat)
      requires Valid()
      ensures n == CountTel(calls, tel)
    {
      n := 0;
      for i := 0 to |table|
        invariant n == CountTel(calls[..i], tel)
      {
        CountTelNext(calls, tel, i);
        if table[i].callState == tel {
          n := n + 1;
        }
      }
      assert calls[..|table|] == calls;
    }

    method GetCallNumByRunningState(running: Running) returns (n: nat)
      requires Valid()
      ensures n == CountRunning(calls, running)
    {
      n := 0;
      for i := 0 to |table|
        invariant n == CountRunning(calls[..i], running)
      {
        CountRunningNext(calls, running, i);
        if table[i].runningState == running {
          n := n + 1;
        }
      }
      assert calls[..|table|] == calls;
    }

    method AddOneCallObject(c: CallBase) returns (ok: bool)
      requires Valid() && c in objects
      modifies this`table, this`calls
      ensures Valid() && ok == CanAdd(old(calls), c.View())
      ensures calls == Add(old(calls), c.View())
      ensures table == if ok then old(table) + [c] else old(table)
    {
      var k := GetOneCallObject(c.callId);
      var limit := if c.ecc then MAX_CALL_OBJECTS else MAX_CALL_OBJECTS - ECC_RESERVED;
      ok := k < 0 && |table| < limit;
      assert ok == CanAdd(calls, c.View());
      if ok {
        ViewsAppend(table, c);
        AddUnique(calls, c.View());
        table := table + [c];
        calls := calls + [c.View()];
      }
    }

    method DeleteOneCallObject(id: int)
      requires Valid()
      modifies this`table, this`calls
      ensures Valid() && calls == Delete(old(calls), id)
      ensures forall c | c in table :: c in old(table)
    {
      hide ById, UniqueIds;
      var k := GetOneCallObject(id);
      if k >= 0 {
        ViewsWithout(table, k);
        DeleteUnique(calls, id);
        table := table[..k] + table[k + 1..];
        calls := Views(table);
      }
    }

    // -------------------------------------------------------------- changes to one object

    /** The call object changes state; then the table's object with its id does, which is the same one. */
    method UpdateCallState(c: CallBase, next: Tel)
      requires Valid() && Has(c)
      modifies this`calls, c
      ensures Valid() && Has(c)
      ensures c.View() == Advance(old(c.View()), next) && calls == Put(old(calls), c.View())
    {
      c.SetTelCallState(next);
      ObjectChanged(table, c, calls);
      calls := Views(table);
    }

    method FollowVideo(c: CallBase, video: int)
      requires Valid() && Has(c)
      modifies this`calls, c
      ensures Valid() && Has(c) && c.View() == WithVideo(old(c.View()), video)
      ensures calls == Put(old(calls), c.View())
    {
      if c.callType == Ims && c.video != video {
        c.video := video;
      }
      ObjectChanged(table, c, calls);
      calls := Views(table);
    }

    method SetBound(c: CallBase, r: Report)
      requires Valid() && Has(c)
      modifies this`calls, c
      ensures Valid() && Has(c) && c.View() == Bound(old(c.View()), r)
      ensures calls == Put(old(calls), c.View())
    {
      c.index := r.index;
      c.slot := r.slot;
      c.SetTelCallState(r.tel);
      c.video := r.video;
      c.callType := r.kind;
      ObjectChanged(table, c, calls);
      calls := Views(table);
    }

    /** DialCallBase and IncomingCallBase. */
    method SetRunningState(c: CallBase, running: Running)
      requires Valid() && Has(c)
      modifies this`calls, c
      ensures Valid() && Has(c) && c.View() == old(c.View()).(running := running)
      ensures calls == Put(old(calls), c.View())
    {
      c.runningState := running;
      ObjectChanged(table, c, calls);
      calls := Views(table);
    }

    method CopyStates(c: CallBase, made: CallBase)
      requires Valid() && Has(made) && made != c
      modifies this`calls, made
      ensures Valid() && Has(made)
      ensures made.View() == Advance(old(made.View()).(running := c.runningState), c.callState)
      ensures calls == Put(old(calls), made.View())
    {
      made.runningState := c.runningState;
      made.SetTelCallState(c.callState);
      ObjectChanged(table, made, calls);
      calls := Views(table);
    }

    // -------------------------------------------------------------- replacing a call

    /** CreateNewCall: an id is used up even if the type is refused. */
    method CreateNewCall(r: Report, dir: Direction) returns (c: CallBase?)
      requires Valid()
      modifies this`lastId, this`objects
      ensures Valid() && Now() == old(Now()).(lastId := old(lastId) + 1)
      ensures c == null <==> r.kind == CallType.Other
      ensures c == null ==> objects == old(objects)
      ensures c != null ==> fresh(c) && c !in table && objects == old(objects) + {c}
      ensures c != null ==> c.View() == NewCall(r, dir, lastId, NewEcc(old(Now()), dir))
    {
      lastId := lastId + 1;
      if r.kind == CallType.Other {
        return null;
      }
      c := new CallBase(r, dir, lastId, dir == Outgoing && dialEcc);
      objects := objects + {c};
    }

    /** The new object takes over the id and the place of the old one; if it is refused, the old one is offered
        again. */
    method TakeOver(c: CallBase, made: CallBase) returns (ok: bool)
      requires Valid() && Has(c) && made in objects && made !in table && made != c
      modifies this`table, this`calls, made`callId
      ensures Valid() && made.View() == old(made.View()).(id := c.callId)
      ensures var rest := Delete(old(calls), c.callId);
        && ok == CanAdd(rest, made.View())
        && calls == Add(rest, if ok then made.View() else c.View())
      ensures if ok then Has(made) else Has(c)
    {
      hide Delete, UniqueIds;
      DeleteGone(calls, c.callId);
      DeleteOneCallObject(c.callId);
      made.callId := c.callId;
      ok := AddOneCallObject(made);
      if !ok {
        var back := AddOneCallObject(c);
      }
    }

    method Replace(c: CallBase, made: CallBase) returns (d: CallBase)
      requires Valid() && Has(c) && made in objects && made !in table && made != c
      modifies this`table, this`calls, made
      ensures Valid() && Has(d)
      ensures Replaced(old(calls), c.View(), old(made.View()).(id := c.callId), calls, d.View())
    {
      ghost var rest, asked := Delete(calls, c.callId), made.View().(id := c.callId);
      var ok := TakeOver(c, made);
      if !ok {
        return c;
      }
      CopyStates(c, made);
      PutLast(rest, asked, made.View());
      return made;
    }

    /** RefreshCall once the new object exists; s is the state before. */
    method Install(c: CallBase, made: CallBase, r: Report, ghost s: State) returns (d: CallBase)
      requires Valid() && Has(c) && made in objects && made !in table && made != c
      requires Now() == s.(lastId := s.lastId + 1) && r.kind != CallType.Other
      requires made.View() == NewCall(r, c.dir, lastId, NewEcc(s, c.dir))
      modifies this`table, this`calls, made
      ensures Valid() && Has(d)
      ensures Held(Now(), d.View()) == Refresh(s, c.View(), r)
    {
      hide Refresh, Replaced, UniqueIds;
      d := Replace(c, made);
      ReplacedIsRefresh(s, c.View(), r, calls, d.View());
    }

    method RefreshCall(c: CallBase, r: Report) returns (d: CallBase)
      requires Valid() && Has(c)
      modifies this`table, this`lastId, this`calls, this`objects
      ensures Valid() && Has(d) && fresh(objects - old(objects))
      ensures Held(Now(), d.View()) == Refresh(old(Now()), c.View(), r)
    {
      hide Refresh;
      ghost var s := Now();
      var made := CreateNewCall(r, c.dir);
      if made == null {
        RefreshOther(s, c.View(), r);
        return c;
      }
      d := Install(c, made, r, s);
    }

    method RefreshCallIfNecessary(c: CallBase, r: Report) returns (d: CallBase)
      requires Valid() && Has(c)
      modifies this`table, this`lastId, this`calls, this`objects, c
      ensures Valid() && Has(d) && fresh(objects - old(objects))
      ensures Now() == RefreshIfNecessary(old(Now()), old(c.View()), r).s
      ensures d.View() == RefreshIfNecessary(old(Now()), old(c.View()), r).c
    {
      FollowVideo(c, r.video);
      if c.callType == r.kind {
        return c;
      }
      d := RefreshCall(c, r);
    }

    method Move(k: int, r: Report, next: Tel)
      requires Valid() && 0 <= k < |table|
      modifies this, objects
      ensures Valid() && fresh(objects - old(objects)) && Now() == Moved(old(Now()), k, r, next)
    {
      var d := RefreshCallIfNecessary(table[k], r);
      UpdateCallState(d, next);
    }

    method ClearPendingState(c: CallBase)
      requires Valid()
      modifies this`mo, this`hang, this`protect, this`log
      ensures Valid() && Now() == ClearPending(old(Now()), c.View())
    {
      if mo == Some(c.callId) {
        mo := None;
      }
      if hang == Some(c.callId) {
        if c.runningState != Ended {
          log := log + [Deferred(c.callId, c.slot, c.index)];
        }
        hang := None;
        protect := None;
      }
    }

    method SendToStack(cmd: Command)
      requires Valid()
      modifies this`log
      ensures Valid() && Now() == Sent(old(Now()), cmd)
    {
      log := log + [cmd];
    }

    // -------------------------------------------------------------- dialing reports

    method UpdateDialingCallInfo(r: Report)
      requires Valid()
      modifies this, objects
      ensures Valid() && fresh(objects - old(objects)) && Now() == BindDialing(old(Now()), r)
    {
      var k := GetOneCallObjectByIndexAndSlot(r.index, r.slot);
      if k >= 0 {
        var same := RefreshCallIfNecessary(table[k], r);
        return;
      }
      var z := GetOneCallObjectByIndex(0);
      if z < 0 {
        return;
      }
      BindUnnamed(z, r);
    }

    method BindUnnamed(z: int, r: Report)
      requires Valid() && 0 <= z < |table|
      modifies this, objects
      ensures Valid() && fresh(objects - old(objects))
      ensures Now() == BoundInto(RefreshIfNecessary(old(Now()), old(calls[z]), r), r)
    {
      ghost var h := RefreshIfNecessary(Now(), calls[z], r);
      var d := RefreshCallIfNecessary(table[z], r);
      assert Held(Now(), d.View()) == h;
      BindObject(d, r);
    }

    method BindObject(d: CallBase, r: Report)
      requires Valid() && Has(d)
      modifies this`calls, this`mo, this`hang, this`protect, this`log, d
      ensures Valid() && Now() == BoundInto(Held(old(Now()), old(d.View())), r)
    {
      SetBound(d, r);
      ClearPendingState(d);
    }

    method SetDialed(pending: Option<int>)
      requires Valid()
      modifies this`mo, this`dialing, this`restore
      ensures Valid()
      ensures Now() == old(Now()).(mo := if pending.Some? then pending else old(mo), dialing := false, restore := false)
    {
      if pending.Some? {
        mo := pending;
      }
      dialing := false;
      restore := false;
    }

    /** A new dialing call is offered to the table. */
    method OfferDialing(c: CallBase, index: int) returns (ok: bool)
      requires Valid() && c in objects && c !in table
      modifies this`table, this`calls, this`mo, this`dialing, this`restore, c
      ensures Valid() && Outcome(Now(), ok) == H.OfferDialing(old(Now()), old(c.View()), index)
    {
      ok := AddOneCallObject(c);
      if ok {
        BeginDialing(c, index);
      }
    }

    method CreateDialingCall(r: Report) returns (ok: bool)
      requires Valid()
      modifies this
      ensures Valid() && fresh(objects - old(objects)) && Outcome(Now(), ok) == CreateDialing(old(Now()), r)
    {
      ghost var s := Now();
      var c := CreateNewCall(r, Outgoing);
      if c == null {
        return false;
      }
      assert Now() == s.(lastId := s.lastId + 1);
      DialingIsOffered(s, r);
      ok := OfferDialing(c, r.index);
    }

    /** What follows the admission of a dialing call. */
    method BeginDialing(c: CallBase, index: int)
      requires Valid() && Has(c)
      modifies this`mo, this`dialing, this`restore, this`calls, c
      ensures Valid()
      ensures Now() == H.BeginDialing(old(Now()), old(c.View()), index)
    {
      SetDialed(if index == 0 then Some(c.callId) else None);
      DialingProcess(c);
    }

    method DialingProcess(c: CallBase)
      requires Valid() && Has(c)
      modifies this`calls, c
      ensures Valid()
      ensures var c1 := old(c.View()).(running := Connecting); var s := old(Now());
        Now() == UpdateState(s.(table := Put(s.table, c1)), c1, Dialing).s
    {
      ghost var s, c1 := Now(), c.View().(running := Connecting);
      SetRunningState(c, Connecting);
      ghost var s1 := Now();
      assert s1 == s.(table := Put(s.table, c1)) && c.View() == c1;
      UpdateCallState(c, Dialing);
      assert Now() == UpdateState(s1, c1, Dialing).s;
    }

    method DialingHandle(r: Report) returns (ok: bool)
      requires Valid()
      modifies this, objects
      ensures Valid() && fresh(objects - old(objects)) && Outcome(Now(), ok) == H.DialingHandle(old(Now()), r)
    {
      if r.index > 0 {
        var k := GetOneCallObjectByIndexAndSlot(0, r.slot);
        if k < 0 {
          k := GetOneCallObjectByIndexAndSlot(r.index, r.slot);
        }
        if k >= 0 {
          UpdateDialingCallInfo(r);
          return true;
        }
      }
      ok := CreateDialingCall(r);
    }

    /** Finds the call of the report, after RefreshDialingStateByOtherState where it was not there. */
    method Find(r: Report) returns (k: int)
      requires Valid()
      modifies this, objects
      ensures Valid() && fresh(objects - old(objects)) && Now() == Locate(old(Now()), r)
      ensures k == ByKey(calls, r.index, r.slot)
      ensures k >= 0 ==> Has(table[k]) && table[k].View() == calls[k]
    {
      k := GetOneCallObjectByIndexAndSlot(r.index, r.slot);
      if k >= 0 {
        return;
      }
      var z := GetOneCallObjectByIndex(0);
      if z < 0 {
        return;
      }
      var ok := DialingHandle(r.(tel := Dialing));
      k := GetOneCallObjectByIndexAndSlot(r.index, r.slot);
    }

    // -------------------------------------------------------------- the other reports

    method ActiveHandle(r: Report)
      requires Valid()
      modifies this, objects
      ensures Valid() && fresh(objects - old(objects)) && Now() == H.ActiveHandle(old(Now()), r)
    {
      var k := Find(r);
      if k >= 0 {
        ClearPendingState(table[k]);
        Move(k, r, Active);
      }
    }

    method HoldingHandle(r: Report)
      requires Valid()
      modifies this, objects
      ensures Valid() && fresh(objects - old(objects)) && Now() == H.HoldingHandle(old(Now()), r)
    {
      var k := GetOneCallObjectByIndexAndSlot(r.index, r.slot);
      if k >= 0 {
        Move(k, r, Holding);
      }
    }

    method AlertHandle(r: Report)
      requires Valid()
      modifies this, objects
      ensures Valid() && fresh(objects - old(objects)) && Now() == H.AlertHandle(old(Now()), r)
    {
      var k := Find(r);
      if k >= 0 {
        ClearPendingState(table[k]);
        if table[k].callState != Disconnecting {
          Move(k, r, Alerting);
        }
      }
    }

    method DisconnectingHandle(r: Report)
      requires Valid()
      modifies this, objects
      ensures Valid() && fresh(objects - old(objects)) && Now() == H.DisconnectingHandle(old(Now()), r)
    {
      var k := GetOneCallObjectByIndexAndSlot(r.index, r.slot);
      if k >= 0 {
        Move(k, r, Disconnecting);
      }
    }

    method IsCanUnHold() returns (can: bool)
      requires Valid()
      ensures can == CanUnHold(calls)
    {
      var active := GetCallNum(Active);
      var waiting := GetCallNum(Waiting);
      var incoming := GetCallNum(Ringing);
      var alerting := GetCallNum(Alerting);
      can := active == 0 && waiting == 0 && incoming == 0 && alerting == 0;
    }

    /** The held call that may be resumed by itself now that c has ended, -1 if none may. */
    method HeldToResume(c: CallBase, previous: Running, prior: Tel) returns (k: int)
      requires Valid()
      ensures k == Resumed(calls, c.View(), previous, prior)
      ensures k >= 0 ==> table[k].View() == calls[k]
    {
      var can := IsCanUnHold();
      k := GetOneCallObjectByRunningState(Hold);
      if previous != Hold && previous != Live && prior == Disconnecting {
        if k >= 0 && can && table[k].canUnHold {
          if table[k].slot == c.slot {
            return;
          }
        }
      }
      k := -1;
    }

    /** HandleHoldCallOrAutoAnswerCall, up to the deletion. */
    method ResumeHeldCall(c: CallBase, previous: Running, prior: Tel)
      requires Valid()
      modifies this`log
      ensures Valid() && Now() == Resume(old(Now()), c.View(), previous, prior)
    {
      var k := HeldToResume(c, previous, prior);
      if k >= 0 {
        SendToStack(UnHold(table[k].callId));
      }
    }

    method Disconnect(c: CallBase)
      requires Valid() && Has(c)
      modifies this`calls, this`mo, this`hang, this`protect, this`log, c
      ensures Valid()
      ensures var h := UpdateState(ClearPending(old(Now()), old(c.View())), old(c.View()), Disconnected);
        Now() == h.s && c.View() == h.c
    {
      ClearPendingState(c);
      UpdateCallState(c, Disconnected);
    }

    method ResumeAndDelete(c: CallBase, previous: Running, prior: Tel)
      requires Valid()
      modifies this`table, this`calls, this`log
      ensures Valid()
      ensures var s := Resume(old(Now()), c.View(), previous, prior); Now() == s.(table := Delete(s.table, c.callId))
    {
      ResumeHeldCall(c, previous, prior);
      DeleteOneCallObject(c.callId);
    }

    method Conclude(c: CallBase)
      requires Valid() && Has(c)
      modifies this`table, this`calls, this`mo, this`hang, this`protect, this`log, c
      ensures Valid() && Now() == Concluded(Held(old(Now()), old(c.View())))
    {
      var previous, prior := c.runningState, c.callState;
      Disconnect(c);
      ResumeAndDelete(c, previous, prior);
    }

    method EndCall(k: int, r: Report)
      requires Valid() && 0 <= k < |table|
      modifies this, objects
      ensures Valid() && fresh(objects - old(objects))
      ensures Now() == Concluded(RefreshIfNecessary(old(Now()), old(calls[k]), r))
    {
      ghost var h := RefreshIfNecessary(Now(), calls[k], r);
      var d := RefreshCallIfNecessary(table[k], r);
      assert Held(Now(), d.View()) == h;
      Conclude(d);
    }

    method DisconnectedHandle(r: Report)
      requires Valid()
      modifies this, objects
      ensures Valid() && fresh(objects - old(objects)) && Now() == H.DisconnectedHandle(old(Now()), r)
    {
      var k := Find(r);
      if k >= 0 {
        EndCall(k, r);
      }
    }

    method ReportCallDisconnected(c: CallBase)
      requires Valid()
      modifies this, objects
      ensures Valid() && fresh(objects - old(objects)) && Now() == DealFailDial(old(Now()), old(c.View()))
    {
      DisconnectedHandle(Report(c.slot, c.index, Disconnected, c.callType, c.video, 0));
    }

    method FailUnnamedCall()
      requires Valid()
      modifies this, objects
      ensures Valid() && fresh(objects - old(objects)) && Now() == FailUnnamed(old(Now()))
    {
      var z := GetOneCallObjectByIndex(0);
      if z >= 0 {
        ReportCallDisconnected(table[z]);
      }
    }

    method RefreshOldCall(r: Report) returns (existed: bool)
      requires Valid()
      modifies this, objects
      ensures Valid() && fresh(objects - old(objects)) && existed == Found(old(Now()), r)
      ensures Now() == if existed then RefreshOld(old(Now()), r) else old(Now())
    {
      var k := GetOneCallObjectByIndexAndSlot(r.index, r.slot);
      if k < 0 {
        return false;
      }
      var kind, video := table[k].callType, table[k].video;
      if kind != r.kind || video != r.video {
        Move(k, r, r.tel);
      } else if table[k].callState != r.tel {
        var same := RefreshCallIfNecessary(table[k], r);
      }
      return true;
    }

    method FilterResultsDispose(c: CallBase)
      requires Valid() && Has(c)
      modifies this`log, this`calls, c
      ensures Valid() && Now() == Admit(old(Now()), old(c.View()))
    {
      var ringing := GetCallNumByRunningState(Inbound);
      var live := GetCallNumByRunningState(Live);
      if ringing >= 30 || live >= 30 {
        SendToStack(HangUp(c.callId, c.slot, c.index));
        return;
      }
      SetRunningState(c, Inbound);
    }

    method OfferIncoming(c: CallBase, next: Tel)
      requires Valid() && c in objects && c !in table
      modifies this`table, this`calls, this`log, c
      ensures Valid() && Now() == H.OfferIncoming(old(Now()), old(c.View()), next)
    {
      var ok := AddOneCallObject(c);
      if ok {
        FinalizeIncomingState(c, next);
      } else {
        SendToStack(HangUp(c.callId, c.slot, c.index));
      }
    }

    method CreateIncomingCall(r: Report)
      requires Valid()
      modifies this
      ensures Valid() && fresh(objects - old(objects)) && Now() == CreateIncoming(old(Now()), r)
    {
      ghost var s := Now();
      var c := CreateNewCall(r, Incoming);
      IncomingIsOffered(s, r);
      if c != null {
        assert Now() == s.(lastId := s.lastId + 1);
        OfferIncoming(c, r.tel);
      }
    }

    method FinalizeIncomingState(c: CallBase, next: Tel)
      requires Valid() && Has(c)
      modifies this`log, this`calls, c
      ensures Valid()
      ensures Now() == Arrive(old(Now()), old(c.View()), next)
    {
      UpdateCallState(c, next);
      FilterResultsDispose(c);
    }

    method IncomingHandle(r: Report)
      requires Valid()
      modifies this, objects
      ensures Valid() && fresh(objects - old(objects)) && Now() == H.IncomingHandle(old(Now()), r)
    {
      FailUnnamedCall();
      var existed := RefreshOldCall(r);
      if !existed {
        CreateIncomingCall(r);
      }
    }

    method HandleCallReportInfo(r: Report)
      requires Valid()
      modifies this, objects
      ensures Valid() && fresh(objects - old(objects)) && Now() == Handle(old(Now()), r)
      ensures Inv(old(Now())) && r.index > 0 ==>
        Inv(Now()) && Sends(old(Now()), Now(), C.Due(old(Now()), r)) && (Found(Now(), r) <==> Present(old(Now()), r))
      ensures Inv(old(Now())) && r.index > 0 ==>
        && Now().table == R.TableAfter(old(Now()), r)
        && C.Rest(old(Now()), Now(), C.Freed(old(Now()), r),
                  C.Waited(old(Now()), r) + C.Woken(old(Now()), r) + C.Rejected(old(Now()), r))
    {
      hide R.TableAfter, C.Due, C.Rest, C.Freed, C.Waited, C.Woken, C.Rejected;
      if Inv(Now()) && r.index > 0 {
        HandleOk(Now(), r);
        C.DeferredHangUpIsSent(Now(), r);
        CallIsPresent(Now(), r);
        R.ReportedTable(Now(), r);
        C.ReportedRest(Now(), r);
      }
      match r.tel
      case Active => ActiveHandle(r);
      case Holding => HoldingHandle(r);
      case Dialing => var ok := DialingHandle(r);
      case Alerting => AlertHandle(r);
      case Ringing => IncomingHandle(r);
      case Waiting => IncomingHandle(r);
      case Disconnecting => DisconnectingHandle(r);
      case Disconnected => DisconnectedHandle(r);
      case Other =>
    }
  }

  lemma {:induction false} CountTelNext(t: seq<Call>, tel: Tel, i: nat)
    requires i < |t|
    ensures CountTel(t[..i + 1], tel) == CountTel(t[..i], tel) + if t[i].tel == tel then 1 else 0
  {
    if i > 0 {
      CountTelNext(t[1..], tel, i - 1);
      assert t[..i + 1][1..] == t[1..][..i] && t[..i][1..] == t[1..][..i - 1];
    }
  }

  lemma {:induction false} CountRunningNext(t: seq<Call>, running: Running, i: nat)
    requires i < |t|
    ensures CountRunning(t[..i + 1], running)
         == CountRunning(t[..i], running) + if t[i].running == running then 1 else 0
  {
    if i > 0 {
      CountRunningNext(t[1..], running, i - 1);
      assert t[..i + 1][1..] == t[1..][..i] && t[..i][1..] == t[1..][..i - 1];
    }
  }
}
