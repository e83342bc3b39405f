/** A deferred hang-up is sent once: over a whole run no call gets a second one. */
module CallOnce {
  import opened Options
  import opened CallTable
  import opened CallHandlers

  predicate Flags(s: State, id: int) {
    s.mo == Some(id) || s.hang == Some(id)
  }

  /** Each deferred hang-up in the log is about another call, and no flag names that call any more. Neither is anything
      pending or sent for the calls that are gone. */
  predicate Once(s: State, gone: set<int>) {
    && (s.mo.Some? ==> s.mo != s.hang && s.mo.value <= s.lastId)
    && (s.hang.Some? ==> s.hang.value <= s.lastId)
    && (forall i | 0 <= i < |s.log| && s.log[i].Deferred? ::
          s.log[i].id <= s.lastId && !Flags(s, s.log[i].id) && s.log[i].id !in gone)
    && (forall i, j | 0 <= i < j < |s.log| && s.log[i].Deferred? && s.log[j].Deferred? :: s.log[i].id != s.log[j].id)
    && (forall id | id in gone :: id <= s.lastId && !Flags(s, id))
  }

  /** Neither the flags nor the log changed. */
  predicate Silent(s: State, s': State) {
    s'.mo == s.mo && s'.hang == s.hang && s'.log == s.log && s'.lastId >= s.lastId
  }

  lemma SilentOnce(s: State, s': State, gone: set<int>)
    requires Once(s, gone) && Silent(s, s')
    ensures Once(s', gone)
  {
  }

  lemma SentOnce(s: State, cmd: Command, gone: set<int>)
    requires Once(s, gone) && !cmd.Deferred?
    ensures Once(Sent(s, cmd), gone)
  {
  }

  lemma ClearOnce(s: State, c: Call, gone: set<int>)
    requires Once(s, gone)
    ensures Once(ClearPending(s, c), gone)
  {
  }

  lemma CreateFlags(s: State, r: Report)
    ensures var s' := CreateDialing(s, r).s;
      && (s'.mo == s.mo || s'.mo == Some(s.lastId + 1)) && s'.hang == s.hang && s'.log == s.log
      && s'.lastId == s.lastId + 1
  {
  }

  /** A new call is nobody's. */
  lemma NewOnce(s: State, s': State, gone: set<int>)
    requires Once(s, gone) && (s'.mo == s.mo || s'.mo == Some(s.lastId + 1)) && s'.hang == s.hang && s'.log == s.log
    requires s'.lastId == s.lastId + 1
    ensures Once(s', gone)
  {
  }

  lemma CreateOnce(s: State, r: Report, gone: set<int>)
    requires Once(s, gone)
    ensures Once(CreateDialing(s, r).s, gone)
  {
    CreateFlags(s, r);
    NewOnce(s, CreateDialing(s, r).s, gone);
  }

  lemma RefreshSilent(s: State, c: Call, r: Report)
    ensures Silent(s, RefreshIfNecessary(s, c, r).s)
  {
  }

  lemma MovedOnce(s: State, k: int, r: Report, next: Tel, gone: set<int>)
    requires Once(s, gone) && 0 <= k < |s.table|
    ensures Once(Moved(s, k, r, next), gone)
  {
    RefreshSilent(s, s.table[k], r);
    SilentOnce(s, Moved(s, k, r, next), gone);
  }

  lemma DialingOnce(s: State, r: Report, gone: set<int>)
    requires Once(s, gone)
    ensures Once(DialingHandle(s, r).s, gone)
  {
    CreateOnce(s, r, gone);
    var k, z := ByKey(s.table, r.index, r.slot), ByIndex(s.table, 0);
    if k >= 0 {
      RefreshSilent(s, s.table[k], r);
      SilentOnce(s, RefreshIfNecessary(s, s.table[k], r).s, gone);
    } else if z >= 0 {
      var h := RefreshIfNecessary(s, s.table[z], r);
      var s2 := h.s.(table := Put(h.s.table, Bound(h.c, r)));
      RefreshSilent(s, s.table[z], r);
      SilentOnce(s, s2, gone);
      ClearOnce(s2, Bound(h.c, r), gone);
    }
  }

  lemma LocateOnce(s: State, r: Report, gone: set<int>)
    requires Once(s, gone)
    ensures Once(Locate(s, r), gone)
  {
    DialingOnce(s, r.(tel := Dialing), gone);
  }

  lemma ResumeOnce(s: State, c: Call, previous: Running, prior: Tel, gone: set<int>)
    requires Once(s, gone)
    ensures Once(Resume(s, c, previous, prior), gone)
  {
    var k := Resumed(s.table, c, previous, prior);
    if k >= 0 {
      SentOnce(s, UnHold(s.table[k].id), gone);
    }
  }

  lemma ConcludedOnce(h: Held, gone: set<int>)
    requires Once(h.s, gone)
    ensures Once(Concluded(h), gone)
  {
    ClearOnce(h.s, h.c, gone);
    var h' := UpdateState(ClearPending(h.s, h.c), h.c, Disconnected);
    SilentOnce(ClearPending(h.s, h.c), h'.s, gone);
    ResumeOnce(h'.s, h'.c, h.c.running, h.c.tel, gone);
    SilentOnce(Resume(h'.s, h'.c, h.c.running, h.c.tel), Concluded(h), gone);
  }

  lemma DisconnectedOnce(s: State, r: Report, gone: set<int>)
    requires Once(s, gone)
    ensures Once(DisconnectedHandle(s, r), gone)
  {
    var s1 := Locate(s, r);
    LocateOnce(s, r, gone);
    if Found(s1, r) {
      var k := ByKey(s1.table, r.index, r.slot);
      RefreshSilent(s1, s1.table[k], r);
      SilentOnce(s1, RefreshIfNecessary(s1, s1.table[k], r).s, gone);
      ConcludedOnce(RefreshIfNecessary(s1, s1.table[k], r), gone);
    }
  }

  lemma ActiveOnce(s: State, r: Report, gone: set<int>)
    requires Once(s, gone)
    ensures Once(ActiveHandle(s, r), gone)
  {
    hide Once, Locate, Moved;
    var s1 := Locate(s, r);
    LocateOnce(s, r, gone);
    if Found(s1, r) {
      var k := ByKey(s1.table, r.index, r.slot);
      ClearOnce(s1, s1.table[k], gone);
      MovedOnce(ClearPending(s1, s1.table[k]), k, r, Active, gone);
    }
  }

  lemma AlertOnce(s: State, r: Report, gone: set<int>)
    requires Once(s, gone)
    ensures Once(AlertHandle(s, r), gone)
  {
    hide Once, Locate, Moved;
    var s1 := Locate(s, r);
    LocateOnce(s, r, gone);
    if Found(s1, r) {
      var k := ByKey(s1.table, r.index, r.slot);
      ClearOnce(s1, s1.table[k], gone);
      MovedOnce(ClearPending(s1, s1.table[k]), k, r, Alerting, gone);
    }
  }

  lemma IncomingOnce(s: State, r: Report, gone: set<int>)
    requires Once(s, gone)
    ensures Once(IncomingHandle(s, r), gone)
  {
    var z := ByIndex(s.table, 0);
    if z >= 0 {
      DisconnectedOnce(s, FailReport(s.table[z]), gone);
    }
    var s1 := FailUnnamed(s);
    if Found(s1, r) {
      var k := ByKey(s1.table, r.index, r.slot);
      MovedOnce(s1, k, r, r.tel, gone);
      RefreshSilent(s1, s1.table[k], r);
      SilentOnce(s1, RefreshIfNecessary(s1, s1.table[k], r).s, gone);
    } else {
      CreateIncomingOnce(s1, r, gone);
    }
  }

  lemma AdmitOnce(s: State, c: Call, gone: set<int>)
    requires Once(s, gone)
    ensures Once(Admit(s, c), gone)
  {
    SentOnce(s, HangUp(c.id, c.slot, c.index), gone);
    SilentOnce(s, s.(table := Put(s.table, c.(running := Inbound))), gone);
  }

  lemma ArriveOnce(s: State, c: Call, next: Tel, gone: set<int>)
    requires Once(s, gone)
    ensures Once(Arrive(s, c, next), gone)
  {
    var h := UpdateState(s, c, next);
    SilentOnce(s, h.s, gone);
    AdmitOnce(h.s, h.c, gone);
  }

  lemma OfferOnce(s: State, c: Call, next: Tel, gone: set<int>)
    requires Once(s, gone)
    ensures Once(OfferIncoming(s, c, next), gone)
  {
    if CanAdd(s.table, c) {
      SilentOnce(s, s.(table := s.table + [c]), gone);
      ArriveOnce(s.(table := s.table + [c]), c, next, gone);
    } else {
      SentOnce(s, HangUp(c.id, c.slot, c.index), gone);
    }
  }

  lemma CreateIncomingOnce(s: State, r: Report, gone: set<int>)
    requires Once(s, gone)
    ensures Once(CreateIncoming(s, r), gone)
  {
    var s1, c := s.(lastId := s.lastId + 1), NewCall(r, Incoming, s.lastId + 1, false);
    SilentOnce(s, s1, gone);
    OfferOnce(s1, c, r.tel, gone);
    IncomingIsOffered(s, r);
  }

  lemma HandleOnce(s: State, r: Report, gone: set<int>)
    requires Once(s, gone)
    ensures Once(Handle(s, r), gone)
  {
    hide Once, ActiveHandle, AlertHandle, DialingHandle, IncomingHandle, DisconnectedHandle, Moved;
    match r.tel
    case Active => ActiveOnce(s, r, gone);
    case Alerting => AlertOnce(s, r, gone);
    case Holding | Disconnecting =>
      if Found(s, r) {
        MovedOnce(s, ByKey(s.table, r.index, r.slot), r, r.tel, gone);
      }
    case Dialing => DialingOnce(s, r, gone);
    case Ringing | Waiting => IncomingOnce(s, r, gone);
    case Disconnected => DisconnectedOnce(s, r, gone);
    case Other =>
  }

  lemma HangUpCallOnce(s: State, callId: int, posted: bool, gone: set<int>)
    requires Once(s, gone)
    ensures Once(HangUpCall(s, callId, posted), gone)
  {
  }

  lemma TasksOnce(s: State, id: int, sent: bool, gone: set<int>)
    requires Once(s, gone)
    ensures Once(HangUpTask(s, id), gone) && Once(RejectTask(s, id, sent), gone) && Once(UnHoldTask(s, id), gone)
  {
    var k := ById(s.table, id);
    if k >= 0 {
      SentOnce(s, HangUp(id, s.table[k].slot, s.table[k].index), gone);
      SilentOnce(HangUpTask(s, id), RejectTask(s, id, sent), gone);
      var s1 := s.(table := Put(s.table, s.table[k].(resumable := true)));
      SilentOnce(s, s1, gone);
      SentOnce(s1, UnHold(id), gone);
    }
  }

  lemma FailOnce(s: State, k: int, gone: set<int>)
    requires Once(s, gone) && 0 <= k < |s.table|
    ensures Once(DealFailDial(s, s.table[k]), gone)
  {
    DisconnectedOnce(s, FailReport(s.table[k]), gone);
  }

  lemma ProtectOnce(s: State, gone: set<int>)
    requires Once(s, gone)
    ensures Once(ProtectFires(s), gone)
  {
    if s.protect.Some? {
      var s1 := s.(protect := None);
      SilentOnce(s, s1, gone);
      var k := ById(s1.table, s.protect.value);
      if k >= 0 {
        FailOnce(s1, k, gone);
      }
    }
  }

  lemma RequestFailedOnce(s: State, gone: set<int>)
    requires Once(s, gone)
    ensures Once(RequestFailed(s), gone)
  {
    if LastRunning(s.table, Outbound) >= 0 {
      FailOnce(s, LastRunning(s.table, Outbound), gone);
    }
  }

  lemma {:induction false} NoneDeferred(t: seq<Call>, rejecting: bool)
    ensures forall i | 0 <= i < |HangUpAll(t, rejecting)| :: HangUpAll(t, rejecting)[i].HangUp?
  {
    if t != [] {
      NoneDeferred(t[1..], rejecting);
    }
  }

  lemma ClearTheLineOnce(s: State, gone: set<int>)
    requires Once(s, gone)
    ensures Once(ClearTheLine(s), gone)
  {
    NoneDeferred(s.table, false);
    NoneDeferred(s.table, true);
  }

  lemma DialFailOnce(s: State, gone: set<int>)
    requires Once(s, gone)
    ensures Once(HandleDialFail(s).s, gone)
  {
    if DialingCall(s.table) >= 0 {
      FailOnce(s, DialingCall(s.table), gone);
    }
  }

  lemma StartReportedOnce(s: State, r: Report, accepted: bool, gone: set<int>)
    requires Once(s, gone)
    ensures Once(StartReported(s, r, accepted).s, gone)
  {
    DialingOnce(s, r, gone);
    var o := DialingHandle(s, r);
    SilentOnce(o.s, FlagCleared(o.s), gone);
    SentOnce(o.s, StackDial(r.slot), gone);
    DialFailOnce(Sent(o.s, StackDial(r.slot)), gone);
  }

  lemma CarrierDialOnce(s: State, r: Report, ecc: bool, posted: bool, accepted: bool, gone: set<int>)
    requires Once(s, gone)
    ensures Once(CarrierDial(s, r, ecc, posted, accepted).s, gone)
  {
    var s1 := s.(dialing := true, restore := posted);
    SilentOnce(s, s1, gone);
    SilentOnce(s, FlagCleared(s1), gone);
    ClearTheLineOnce(s1, gone);
    StartReportedOnce(if ecc then ClearTheLine(s1) else s1, r, accepted, gone);
  }

  lemma DialCallOnce(s: State, r: Report, allowed: bool, ecc: bool, posted: bool, accepted: bool, gone: set<int>)
    requires Once(s, gone)
    ensures Once(DialCall(s, r, allowed, ecc, posted, accepted).s, gone)
  {
    SilentOnce(s, s.(dialEcc := ecc), gone);
    CarrierDialOnce(s.(dialEcc := ecc), r, ecc, posted, accepted, gone);
  }
}
