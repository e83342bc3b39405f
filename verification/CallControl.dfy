/** Requests and whole reports on the call manager's objects: the loops of CallControlManager, CallRequestProcess and
    HandleCallsReportInfo. */
module CallControl {
  import opened Options
  import opened CallTable
  import opened CallHandlers
  import opened CallSafety
  import opened CallRequests
  import opened CallObjects
  import opened CallReports
  import opened CallTracking
  import H = CallHandlers
  import R = CallRuns

  // ---------------------------------------------------------------- hanging up

  method ForegroundCall(m: CallManager) returns (id: int)
    requires m.Valid()
    ensures id == Foreground(m.calls)
  {
    hide LastRunning, UniqueIds;
    var states := [Live, Outbound, Connecting, Hold];
    var k := m.GetOneCallObjectByRunningState(states[0]);
    if k < 0 {
      k := m.GetOneCallObjectByRunningState(states[1]);
    }
    if k < 0 {
      k := m.GetOneCallObjectByRunningState(states[2]);
    }
    if k < 0 {
      k := m.GetOneCallObjectByRunningState(states[3]);
    }
    id := if k < 0 then 0 else m.table[k].callId;
  }

  /** HangUpCall from the policy check on. A call that is not deferred is left to a request that is posted. */
  method HangUpChosen(m: CallManager, id: int, posted: bool) returns (request: Option<int>)
    requires m.Valid()
    modifies m`mo, m`hang, m`protect
    ensures m.Valid() && m.Now() == HangUpById(old(m.Now()), id, posted)
    ensures request == RequestedById(old(m.Now()), id)
  {
    hide ById, UniqueIds;
    var k := m.GetOneCallObject(id);
    if k < 0 {
      return None;
    }
    var tel := m.table[k].callState;
    if tel == Disconnecting || tel == Disconnected {
      return None;
    }
    if m.mo == Some(id) {
      m.mo := None;
      m.hang := Some(id);
      if m.protect.None? && posted {
        m.protect := Some(id);
      }
      return None;
    }
    return Some(id);
  }

  method HangUpCall(m: CallManager, callId: int, posted: bool) returns (request: Option<int>)
    requires m.Valid()
    modifies m`mo, m`hang, m`protect
    ensures m.Valid() && m.Now() == H.HangUpCall(old(m.Now()), callId, posted)
    ensures request == Requested(old(m.Now()), callId)
    ensures Inv(old(m.Now())) ==> Inv(m.Now())
  {
    if Inv(m.Now()) {
      HangUpCallOk(m.Now(), callId, posted);
    }
    var id := callId;
    if callId == 0 {
      id := ForegroundCall(m);
    }
    request := HangUpChosen(m, id, posted);
  }

  method ProtectFires(m: CallManager)
    requires m.Valid()
    modifies m, m.objects
    ensures m.Valid() && fresh(m.objects - old(m.objects)) && m.Now() == H.ProtectFires(old(m.Now()))
    ensures Inv(old(m.Now())) ==> Inv(m.Now())
  {
    if Inv(m.Now()) {
      ProtectFiresOk(m.Now());
    }
    if m.protect.None? {
      return;
    }
    var id := m.protect.value;
    m.protect := None;
    if m.hang == Some(id) {
      FailPending(m, id);
    }
  }

  method FailPending(m: CallManager, id: int)
    requires m.Valid()
    modifies m, m.objects
    ensures m.Valid() && fresh(m.objects - old(m.objects)) && m.Now() == FailDeferred(old(m.Now()), id)
  {
    FailById(m, id);
    m.hang := None;
  }

  method FailById(m: CallManager, id: int)
    requires m.Valid()
    modifies m, m.objects
    ensures m.Valid() && fresh(m.objects - old(m.objects))
    ensures var s := old(m.Now()); var k := ById(s.table, id);
      m.Now() == if k < 0 then s else DealFailDial(s, s.table[k])
  {
    var k := m.GetOneCallObject(id);
    if k >= 0 {
      m.ReportCallDisconnected(m.table[k]);
    }
  }

  method RequestFailed(m: CallManager)
    requires m.Valid()
    modifies m, m.objects
    ensures m.Valid() && fresh(m.objects - old(m.objects)) && m.Now() == H.RequestFailed(old(m.Now()))
  {
    var k := m.GetOneCallObjectByRunningState(Outbound);
    if k >= 0 {
      m.ReportCallDisconnected(m.table[k]);
    }
  }

  // ---------------------------------------------------------------- dialing

  method HasEmergencyCall(m: CallManager) returns (has: bool)
    requires m.Valid()
    ensures has == HasEcc(m.calls)
  {
    has := false;
    for i := 0 to |m.table|
      invariant has <==> exists j | 0 <= j < i :: m.calls[j].ecc
    {
      if m.table[i].ecc {
        has := true;
      }
    }
  }

  method HasNewCall(m: CallManager) returns (busy: bool)
    requires m.Valid()
    ensures busy == NewCallBusy(m.calls)
  {
    for i := 0 to |m.table|
      invariant forall j | 0 <= j < i :: m.calls[j].running !in {Create, Connecting, Outbound}
    {
      if m.table[i].runningState in {Create, Connecting, Outbound} {
        assert m.calls[i].running in {Create, Connecting, Outbound};
        return true;
      }
    }
    return false;
  }

  method IsNewCallAllowedCreate(m: CallManager) returns (allowed: bool)
    requires m.Valid()
    ensures allowed == NewCallAllowed(m.calls)
  {
    for i := 0 to |m.table|
      invariant forall j | 0 <= j < i :: m.calls[j].running !in {Create, Connecting, Outbound, Inbound}
    {
      if m.table[i].runningState in {Create, Connecting, Outbound, Inbound} {
        assert m.calls[i].running in {Create, Connecting, Outbound, Inbound};
        return false;
      }
    }
    var count := 0;
    for i := 0 to |m.table|
      invariant count == CountCarrier(m.calls[..i])
    {
      CountCarrierNext(m.calls, i);
      if m.table[i].callType != CallType.Other {
        count := count + 1;
      }
    }
    assert m.calls[..|m.table|] == m.calls;
    return count < 2;
  }

  lemma {:induction false} CountCarrierNext(t: seq<Call>, i: nat)
    requires i < |t|
    ensures CountCarrier(t[..i + 1]) == CountCarrier(t[..i]) + if Carrier(t[i]) then 1 else 0
  {
    if i > 0 {
      CountCarrierNext(t[1..], i - 1);
      assert t[..i + 1][1..] == t[1..][..i] && t[..i][1..] == t[1..][..i - 1];
    }
  }

  predicate Ends(c: Call, rejecting: bool) {
    Carrier(c) && if rejecting then c.running == Inbound else c.running in {Create, Connecting, Outbound, Live, Hold}
  }

  lemma {:induction false} HangUpAllNext(t: seq<Call>, rejecting: bool, i: nat)
    requires i < |t|
    ensures HangUpAll(t[..i + 1], rejecting) ==
      HangUpAll(t[..i], rejecting) + if Ends(t[i], rejecting) then [HangUp(t[i].id, t[i].slot, t[i].index)] else []
  {
    if i > 0 {
      HangUpAllNext(t[1..], rejecting, i - 1);
      assert t[..i + 1][1..] == t[1..][..i] && t[..i][1..] == t[1..][..i - 1];
    }
  }

  /** Refuses if an emergency call is being dialed; otherwise every other call is hung up or rejected. */
  method EccDialPolicy(m: CallManager) returns (ok: bool)
    requires m.Valid()
    modifies m`log
    ensures m.Valid() && ok == !EccRefused(m.calls)
    ensures m.Now() == if ok then ClearTheLine(old(m.Now())) else old(m.Now())
  {
    var hangups, rejects: seq<Command> := [], [];
    for i := 0 to |m.table|
      invariant m.log == old(m.log)
      invariant hangups == HangUpAll(m.calls[..i], false) && rejects == HangUpAll(m.calls[..i], true)
      invariant forall j | 0 <= j < i :: !(Carrier(m.calls[j]) && m.calls[j].running in {Create, Connecting, Outbound}
                                           && m.calls[j].ecc)
    {
      HangUpAllNext(m.calls, false, i);
      HangUpAllNext(m.calls, true, i);
      var c := m.table[i];
      assert c.View() == m.calls[i];
      if c.callType == CallType.Other {
        continue;
      }
      var command := HangUp(c.callId, c.slot, c.index);
      if c.runningState in {Create, Connecting, Outbound} {
        if c.ecc {
          return false;
        }
        hangups := hangups + [command];
      } else if c.runningState == Inbound {
        rejects := rejects + [command];
      } else if c.runningState == Live || c.runningState == Hold {
        hangups := hangups + [command];
      }
    }
    assert m.calls[..|m.table|] == m.calls;
    m.log := m.log + hangups + rejects;
    return true;
  }

  method GetDialingCall(m: CallManager) returns (k: int)
    requires m.Valid()
    ensures k == DialingCall(m.calls)
    ensures k >= 0 ==> m.Has(m.table[k]) && m.table[k].View() == m.calls[k]
  {
    k := m.GetOneCallObjectByRunningState(Create);
    if k >= 0 {
      return;
    }
    k := m.GetOneCallObjectByRunningState(Connecting);
    if k >= 0 {
      return;
    }
    k := m.GetOneCallObjectByRunningState(Outbound);
  }

  /** HandleStartDial: the stack's Dial, and what follows when it fails. */
  method StartDial(m: CallManager, slot: int, accepted: bool)
    requires m.Valid()
    modifies m, m.objects
    ensures m.Valid() && fresh(m.objects - old(m.objects))
    ensures var s := Sent(old(m.Now()), StackDial(slot)); m.Now() == if accepted then s else HandleDialFail(s).s
  {
    m.SendToStack(StackDial(slot));
    if !accepted {
      var k := GetDialingCall(m);
      if k >= 0 {
        m.ReportCallDisconnected(m.table[k]);
      }
    }
  }

  /** HandleDialingInfo: the admission checks of a dial. */
  method Admission(m: CallManager, ecc: bool) returns (ok: bool)
    requires m.Valid()
    modifies m`log
    ensures m.Valid() && ok == if ecc then !EccRefused(m.calls) else NewCallAllowed(m.calls)
    ensures m.Now() == if ok && ecc then ClearTheLine(old(m.Now())) else old(m.Now())
  {
    if ecc {
      ok := EccDialPolicy(m);
    } else {
      ok := IsNewCallAllowedCreate(m);
    }
  }

  /** The second half of CarrierDialProcess: the local report, then the stack. */
  method ReportDialing(m: CallManager, r: Report, accepted: bool) returns (ok: bool)
    requires m.Valid()
    modifies m, m.objects
    ensures m.Valid() && fresh(m.objects - old(m.objects))
    ensures Outcome(m.Now(), ok) == StartReported(old(m.Now()), r, accepted)
  {
    ok := m.DialingHandle(r);
    if !ok {
      m.dialing := false;
      m.restore := false;
      return false;
    }
    StartDial(m, r.slot, accepted);
    return accepted;
  }

  method CarrierDialProcess(m: CallManager, r: Report, ecc: bool, posted: bool, accepted: bool) returns (ok: bool)
    requires m.Valid()
    modifies m, m.objects
    ensures m.Valid() && fresh(m.objects - old(m.objects))
    ensures Outcome(m.Now(), ok) == CarrierDial(old(m.Now()), r, ecc, posted, accepted)
  {
    if m.dialing {
      return false;
    }
    m.dialing := true;
    m.restore := posted;
    ok := Admission(m, ecc);
    if !ok {
      m.dialing := false;
      m.restore := false;
      return false;
    }
    ok := ReportDialing(m, r, accepted);
  }

  /** A dial keeps the invariant, and a normal one that is refused leaves the calls as they were. */
  predicate DialKept(s: State, s': State, r: Report, ecc: bool, ok: bool) {
    Inv(s) && Local(r) ==> Inv(s') && (ok || ecc || s'.table == s.table)
  }

  lemma DialKeeps(s: State, r: Report, allowed: bool, ecc: bool, posted: bool, accepted: bool)
    ensures var o := H.DialCall(s, r, allowed, ecc, posted, accepted); DialKept(s, o.s, r, ecc, o.ok)
  {
    if Inv(s) && Local(r) {
      DialCallOk(s, r, allowed, ecc, posted, accepted);
      if !ecc && !H.DialCall(s, r, allowed, ecc, posted, accepted).ok {
        RefusedDialIsUndone(s, r, allowed, posted, accepted);
      }
    }
  }

  method DialCall(m: CallManager, r: Report, allowed: bool, ecc: bool, posted: bool, accepted: bool)
    returns (ok: bool)
    requires m.Valid()
    modifies m, m.objects
    ensures m.Valid() && fresh(m.objects - old(m.objects))
    ensures Outcome(m.Now(), ok) == H.DialCall(old(m.Now()), r, allowed, ecc, posted, accepted)
    ensures DialKept(old(m.Now()), m.Now(), r, ecc, ok)
  {
    DialKeeps(m.Now(), r, allowed, ecc, posted, accepted);
    if !allowed {
      return false;
    }
    if !ecc {
      var has := HasEmergencyCall(m);
      if has {
        return false;
      }
      var busy := HasNewCall(m);
      if busy {
        return false;
      }
    }
    m.dialEcc := ecc;
    ok := CarrierDialProcess(m, r, ecc, posted, accepted);
  }

  // ---------------------------------------------------------------- a report of all calls of a slot

  lemma KeptNext(news: seq<Report>, i: nat)
    requires i < |news|
    ensures Kept(news[i..]) == (if news[i].tel == Disconnected then [] else [news[i]]) + Kept(news[i + 1..])
  {
    assert news[i..][0] == news[i] && news[i..][1..] == news[i + 1..];
  }

  lemma Regroup<T>(a: seq<T>, x: T, b: seq<T>)
    ensures a + ([x] + b) == (a + [x]) + b
  {
  }

  lemma ArrivalsNext(past: seq<Report>, news: seq<Report>, i: nat)
    requires i < |news|
    ensures Arrivals(past, news[i..]) ==
      (if Changed(past, news[i]) then [news[i]] else []) + Arrivals(past, news[i + 1..])
  {
    assert news[i..][0] == news[i] && news[i..][1..] == news[i + 1..];
  }

  lemma DeparturesNext(past: seq<Report>, news: seq<Report>, i: nat)
    requires i < |past|
    ensures Departures(past[i..], news) ==
      (if EntryAt(news, past[i].index) < 0 then [Gone(past[i])] else []) + Departures(past[i + 1..], news)
  {
    assert past[i..][0] == past[i] && past[i..][1..] == past[i + 1..];
  }

  lemma HandleNone(s: State, fs: seq<Report>)
    ensures HandleAll(s, [] + fs) == HandleAll(s, fs)
  {
    assert [] + fs == fs;
  }

  lemma HandleOne<S, E>(f: (S, E) -> S, s: S, e: E, fs: seq<E>)
    ensures Fold(f, s, [e] + fs) == Fold(f, f(s, e), fs)
  {
    assert ([e] + fs)[1..] == fs;
  }

  /** callDetailsInfo_: the last report of each slot. */
  lemma BatchIs(w: R.World, slot: int, news: seq<Report>)
    requires |w.snapshots| == R.SLOT_COUNT
    ensures R.HandleCallsReport(w, slot, news)
      == if !(0 <= slot < R.SLOT_COUNT) then w
         else
           var past := w.snapshots[slot];
           R.World(Fold(Handle, Fold(Handle, w.s, Arrivals(past, news)), Departures(past, news)),
                   w.snapshots[slot := Kept(news)])
  {
    hide Handle;
    if 0 <= slot < R.SLOT_COUNT {
      FoldAppend(Handle, w.s, Arrivals(w.snapshots[slot], news), Departures(w.snapshots[slot], news));
    }
  }

  lemma BatchKeeps(w: R.World, slot: int, news: seq<Report>)
    requires |w.snapshots| == R.SLOT_COUNT
    ensures R.WorldOk(w) && Named(news, slot) && Distinct(news) ==> R.WorldOk(R.HandleCallsReport(w, slot, news))
  {
    hide R.WorldOk, R.HandleCallsReport;
    if R.WorldOk(w) && Named(news, slot) && Distinct(news) {
      R.StepOk(w, R.CallsReport(slot, news));
    }
  }

  class Snapshots {
    var slots: seq<seq<Report>>

    constructor ()
      ensures slots == [[], []]
    {
      slots := [[], []];
    }

    /** The search of the first loop: is the entry in the old report, and has it changed? */
    method Compare(past: seq<Report>, it: Report) returns (flag: bool, differs: bool)
      ensures flag == (EntryAt(past, it.index) >= 0)
      ensures differs == (flag && Changed(past, it))
    {
      flag, differs := false, false;
      for j := 0 to |past|
        invariant !flag && !differs && forall n | 0 <= n < j :: past[n].index != it.index
      {
        if past[j].index == it.index {
          differs := it.tel != past[j].tel || it.mpty != past[j].mpty || it.tel == Alerting
            || it.video != past[j].video || it.kind != past[j].kind;
          flag := true;
          return;
        }
      }
    }

    /** One round of the first loop: an entry is handled if it is new, changed or alerting. */
    method HandleEntry(m: CallManager, past: seq<Report>, it: Report)
      requires m.Valid()
      modifies m, m.objects
      ensures m.Valid() && fresh(m.objects - old(m.objects))
      ensures m.Now() == if Changed(past, it) then Handle(old(m.Now()), it) else old(m.Now())
    {
      var flag, differs := Compare(past, it);
      if differs || !flag || past == [] {
        m.HandleCallReportInfo(it);
      }
    }

    method HandleArrivals(m: CallManager, past: seq<Report>, news: seq<Report>)
      requires m.Valid()
      modifies m, m.objects
      ensures m.Valid() && fresh(m.objects - old(m.objects))
      ensures m.Now() == HandleAll(old(m.Now()), Arrivals(past, news))
    {
      for i := 0 to |news|
        invariant m.Valid() && fresh(m.objects - old(m.objects))
        invariant HandleAll(m.Now(), Arrivals(past, news[i..])) == HandleAll(old(m.Now()), Arrivals(past, news))
      {
        ghost var s, rest := m.Now(), Arrivals(past, news[i + 1..]);
        ArrivalsNext(past, news, i);
        HandleNone(s, rest);
        HandleOne(Handle, s, news[i], rest);
        HandleEntry(m, past, news[i]);
      }
    }

    /** One round of the second loop: an entry the report no longer lists is handled as disconnected. */
    method HandleMissing(m: CallManager, it: Report, news: seq<Report>)
      requires m.Valid()
      modifies m, m.objects
      ensures m.Valid() && fresh(m.objects - old(m.objects))
      ensures m.Now() == if EntryAt(news, it.index) < 0 then Handle(old(m.Now()), Gone(it)) else old(m.Now())
    {
      var flag := false;
      for j := 0 to |news|
        invariant !flag && forall n | 0 <= n < j :: news[n].index != it.index
      {
        if it.index == news[j].index {
          flag := true;
          break;
        }
      }
      if !flag {
        m.HandleCallReportInfo(it.(tel := Disconnected));
      }
    }

    method HandleDepartures(m: CallManager, past: seq<Report>, news: seq<Report>)
      requires m.Valid()
      modifies m, m.objects
      ensures m.Valid() && fresh(m.objects - old(m.objects))
      ensures m.Now() == HandleAll(old(m.Now()), Departures(past, news))
    {
      for i := 0 to |past|
        invariant m.Valid() && fresh(m.objects - old(m.objects))
        invariant HandleAll(m.Now(), Departures(past[i..], news)) == HandleAll(old(m.Now()), Departures(past, news))
      {
        ghost var s, rest := m.Now(), Departures(past[i + 1..], news);
        DeparturesNext(past, news, i);
        HandleNone(s, rest);
        HandleOne(Handle, s, Gone(past[i]), rest);
        HandleMissing(m, past[i], news);
      }
    }

    /** UpdateCallDetailsInfo: the report without its disconnected entries. */
    method WithoutDisconnected(news: seq<Report>) returns (kept: seq<Report>)
      ensures kept == Kept(news)
    {
      kept := [];
      ghost var rest := Kept(news);
      assert news[0..] == news;
      for i := 0 to |news|
        invariant rest == Kept(news[i..]) && kept + rest == Kept(news)
      {
        KeptNext(news, i);
        ghost var later := Kept(news[i + 1..]);
        if news[i].tel != Disconnected {
          Regroup(kept, news[i], later);
          kept := kept + [news[i]];
        } else {
          assert [] + later == later;
        }
        rest := later;
      }
    }

    method HandleCallsReportInfo(m: CallManager, slot: int, news: seq<Report>)
      requires m.Valid() && |slots| == R.SLOT_COUNT
      modifies this, m, m.objects
      ensures m.Valid() && fresh(m.objects - old(m.objects)) && |slots| == R.SLOT_COUNT
      ensures R.World(m.Now(), slots) == R.HandleCallsReport(R.World(old(m.Now()), old(slots)), slot, news)
      ensures R.WorldOk(R.World(old(m.Now()), old(slots))) && Named(news, slot) && Distinct(news) ==>
        R.WorldOk(R.World(m.Now(), slots))
    {
      hide R.WorldOk, R.HandleCallsReport, Handle;
      BatchIs(R.World(m.Now(), slots), slot, news);
      BatchKeeps(R.World(m.Now(), slots), slot, news);
      if !(0 <= slot < R.SLOT_COUNT) {
        return;
      }
      var past := slots[slot];
      HandleArrivals(m, past, news);
      HandleDepartures(m, past, news);
      var kept := WithoutDisconnected(news);
      slots := slots[slot := kept];
    }
  }
}
