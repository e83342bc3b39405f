/** The strong and weak counts of one RefBase object and its RefCounter, under every interleaving of copies,
    releases, weak copies and promotions; one step is one atomic operation on a counter. Each sptr, wptr or
    call in progress is a holder. An assignment is a copy followed by the release of the old value, a move
    hands a holder over without a step. */
module RefCount {
  type Id = nat

  datatype Pc =
    | CopyBegin          // IncStrongRef: the weak count goes up next
    | CopyCounted        // the strong count goes up next
    | Strong             // an sptr, or the count promote has won
    | Weak               // a wptr
    | PromoteLoad        // AttemptIncStrong reads the strong count next
    | PromoteTry(current: int)   // the compare-exchange is next
    | PromoteWon         // the weak count goes up next
    | Deleting           // saw the strong count reach zero: destroys the object next
    | Destroyed          // gives up the object's own share of the weak count next
    | Dropping           // gives up its own share of the weak count next
    | Gone

  /** `source` is the holder that a copy or a promotion works from and that must outlive it. */
  datatype Holder = Holder(pc: Pc, source: Id)

  /** History of the object: no sptr yet, held, last sptr gone, destroyed, share of the counter given up. */
  datatype Phase = Unborn | Held | Dying(last: Id) | Dead(last: Id) | Over

  datatype State = State(strong: int, weak: int, holders: map<Id, Holder>, phase: Phase, deleted: nat, freed: nat)

  const ROOT: Id := 0

  /** A new object on its way into its first sptr. */
  function Start(): State {
    State(0, 1, map[ROOT := Holder(CopyBegin, ROOT)], Unborn, 0, 0)
  }

  datatype Step =
    | Copy(source: Id)          // sptr from sptr
    | Attach(source: Id)        // wptr from sptr
    | WeakCopy(source: Id)      // wptr from wptr
    | Promote(source: Id)
    | IncWeak
    | IncStrong
    | Load
    | Exchange(spurious: bool)
    | DecStrong
    | Destroy
    | DropObject
    | DecWeak

  predicate At(s: State, h: Id, pc: Pc) {
    h in s.holders && s.holders[h].pc == pc
  }

  predicate Copying(pc: Pc) {
    pc == CopyBegin || pc == CopyCounted
  }

  predicate Promoting(pc: Pc) {
    pc == PromoteLoad || pc.PromoteTry? || pc == PromoteWon
  }

  /** A copy or promotion in progress works from h. */
  predicate Borrowed(s: State, h: Id) {
    exists b | b in s.holders && b != h ::
      s.holders[b].source == h && (Copying(s.holders[b].pc) || Promoting(s.holders[b].pc))
  }

  function Put(s: State, h: Id, pc: Pc, source: Id): State {
    s.(holders := s.holders[h := Holder(pc, source)])
  }

  function Move(s: State, h: Id, pc: Pc): State
    requires h in s.holders
  {
    Put(s, h, pc, s.holders[h].source)
  }

  /** DecWeak: the call that takes the count from one to zero frees the counter. */
  function DecWeakCount(s: State): State {
    s.(weak := s.weak - 1, freed := s.freed + if s.weak == 1 then 1 else 0)
  }

  /** A step that is not enabled leaves the state as it is. */
  function Next(s: State, h: Id, step: Step): State {
    match step
    case Copy(source) =>
      if h in s.holders || !At(s, source, Strong) then s else Put(s, h, CopyBegin, source)
    case Attach(source) =>
      if h in s.holders || !At(s, source, Strong) then s else Put(s, h, Weak, h).(weak := s.weak + 1)
    case WeakCopy(source) =>
      if h in s.holders || !At(s, source, Weak) then s else Put(s, h, Weak, h).(weak := s.weak + 1)
    case Promote(source) =>
      if h in s.holders || !At(s, source, Weak) then s else Put(s, h, PromoteLoad, source)
    case IncWeak =>
      if At(s, h, CopyBegin) then Move(s, h, CopyCounted).(weak := s.weak + 1)
      else if At(s, h, PromoteWon) then Move(s, h, Strong).(weak := s.weak + 1)
      else s
    case IncStrong =>
      if !At(s, h, CopyCounted) then s else Move(s, h, Strong).(strong := s.strong + 1, phase := Held)
    case Load =>
      if !At(s, h, PromoteLoad) then s
      else Move(s, h, if s.strong > 0 then PromoteTry(s.strong) else Gone)
    case Exchange(spurious) =>
      if h !in s.holders || !s.holders[h].pc.PromoteTry? then s
      else if s.strong == s.holders[h].pc.current && !spurious then Move(s, h, PromoteWon).(strong := s.strong + 1)
      else Move(s, h, if s.strong > 0 then PromoteTry(s.strong) else Gone)
    case DecStrong =>
      if !At(s, h, Strong) || Borrowed(s, h) then s
      else if s.strong == 1 then Move(s, h, Deleting).(strong := 0, phase := Dying(h))
      else Move(s, h, Dropping).(strong := s.strong - 1)
    case Destroy =>
      if !At(s, h, Deleting) then s else Move(s, h, Destroyed).(phase := Dead(h), deleted := s.deleted + 1)
    case DropObject =>
      if !At(s, h, Destroyed) then s else DecWeakCount(Move(s, h, Dropping)).(phase := Over)
    case DecWeak =>
      if At(s, h, Dropping) || (At(s, h, Weak) && !Borrowed(s, h)) then DecWeakCount(Move(s, h, Gone)) else s
  }

  function Exec(s: State, run: seq<(Id, Step)>): State
    decreases |run|
  {
    if run == [] then s else Exec(Next(s, run[0].0, run[0].1), run[1..])
  }

  // ---------------------------------------------------------------- the invariant

  predicate HasStrong(h: Holder) {
    h.pc == Strong || h.pc == PromoteWon
  }

  predicate HasWeak(h: Holder) {
    h.pc in {CopyCounted, Strong, Weak, Deleting, Destroyed, Dropping}
  }

  ghost function StrongHolders(holders: map<Id, Holder>): set<Id> {
    set h | h in holders && HasStrong(holders[h])
  }

  ghost function WeakHolders(holders: map<Id, Holder>): set<Id> {
    set h | h in holders && HasWeak(holders[h])
  }

  lemma HoldersUpdate(holders: map<Id, Holder>, h: Id, x: Holder)
    ensures StrongHolders(holders[h := x])
         == if HasStrong(x) then StrongHolders(holders) + {h} else StrongHolders(holders) - {h}
    ensures WeakHolders(holders[h := x])
         == if HasWeak(x) then WeakHolders(holders) + {h} else WeakHolders(holders) - {h}
  {
  }

  predicate Alive(s: State) {
    s.phase.Unborn? || s.phase.Held? || s.phase.Dying?
  }

  /** The counts: one strong per holder with a strong share; one weak per holder with a weak share and one
      for the object. */
  ghost predicate Counted(s: State) {
    && s.strong == |StrongHolders(s.holders)|
    && s.weak == |WeakHolders(s.holders)| + (if s.phase.Over? then 0 else 1)
    && s.deleted == (if Alive(s) then 0 else 1)
    && s.freed == (if s.weak == 0 then 1 else 0)
  }

  predicate PhaseOk(s: State) {
    && (s.phase.Held? <==> s.strong > 0)
    && (s.phase.Unborn? ==> ROOT in s.holders && Copying(s.holders[ROOT].pc))
    && (s.phase.Dying? || s.phase.Dead? ==> s.phase.last in s.holders)
  }

  /** Where a holder stands agrees with the history and with the holder it works from. */
  predicate HolderOk(s: State, h: Id)
    requires h in s.holders
  {
    var x := s.holders[h];
    && (x.pc == Deleting <==> s.phase == Dying(h))
    && (x.pc == Destroyed <==> s.phase == Dead(h))
    && (Copying(x.pc) ==>
          (h == ROOT && s.phase.Unborn?) || (x.source != h && At(s, x.source, Strong)))
    && (Promoting(x.pc) ==> x.source != h && At(s, x.source, Weak))
    && (x.pc.PromoteTry? ==> x.pc.current > 0)
  }

  ghost predicate HoldersOk(s: State) {
    forall h | h in s.holders :: HolderOk(s, h)
  }

  ghost predicate Inv(s: State) {
    Counted(s) && PhaseOk(s) && HoldersOk(s)
  }

  lemma StartInv()
    ensures Inv(Start())
  {
    assert StrongHolders(Start().holders) == {} && WeakHolders(Start().holders) == {};
  }

  /** A strong share means that the object is held. */
  lemma StrongShareHolds(s: State, h: Id)
    requires Counted(s) && PhaseOk(s) && h in s.holders && HasStrong(s.holders[h])
    ensures s.phase.Held? && s.strong > 0
  {
    assert h in StrongHolders(s.holders);
  }

  lemma WeakShareCounts(s: State, h: Id)
    requires Counted(s) && h in s.holders && HasWeak(s.holders[h])
    ensures s.weak > 0 && s.freed == 0
  {
    assert h in WeakHolders(s.holders);
  }

  /** What the invariant says about the object and the counter when h is about to step. */
  ghost predicate Footing(s: State, h: Id) {
    h in s.holders ==>
      && HolderOk(s, h)
      && (HasStrong(s.holders[h]) ==> s.phase.Held? && s.strong > 0)
      && (Copying(s.holders[h].pc) ==> s.phase.Held? || (s.phase.Unborn? && h == ROOT))
      && (HasWeak(s.holders[h]) || Copying(s.holders[h].pc) || Promoting(s.holders[h].pc) ==>
            s.weak > 0 && s.freed == 0)
  }

  lemma InvGivesFooting(s: State, h: Id)
    requires Inv(s)
    ensures Footing(s, h)
  {
    if h in s.holders {
      assert HolderOk(s, h);
      var x := s.holders[h];
      if HasStrong(x) {
        StrongShareHolds(s, h);
      }
      if HasWeak(x) {
        WeakShareCounts(s, h);
      }
      if Copying(x.pc) && !(h == ROOT && s.phase.Unborn?) {
        StrongShareHolds(s, x.source);
        WeakShareCounts(s, x.source);
      }
      if Promoting(x.pc) {
        WeakShareCounts(s, x.source);
      }
    }
  }

  /** What one step does to the counts is what it does to the shares. */
  lemma StrongMoves(s: State, h: Id, step: Step)
    requires Footing(s, h) && Next(s, h, step) != s
    ensures var t := Next(s, h, step);
      t.strong - s.strong
        == (if HasStrong(t.holders[h]) then 1 else 0) - (if h in s.holders && HasStrong(s.holders[h]) then 1 else 0)
  {
  }

  lemma WeakMoves(s: State, h: Id, step: Step)
    requires Footing(s, h) && Next(s, h, step) != s
    ensures var t := Next(s, h, step);
      t.weak - s.weak
        == (if HasWeak(t.holders[h]) then 1 else 0) - (if h in s.holders && HasWeak(s.holders[h]) then 1 else 0)
         + (if s.phase.Over? then 1 else 0) - (if t.phase.Over? then 1 else 0)
  {
  }

  lemma EventsCounted(s: State, h: Id, step: Step)
    requires Footing(s, h) && PhaseOk(s)
    requires s.deleted == (if Alive(s) then 0 else 1) && s.freed == (if s.weak == 0 then 1 else 0)
    requires forall g | g in s.holders && HasWeak(s.holders[g]) :: s.weak > 0
    ensures var t := Next(s, h, step);
      t.deleted == (if Alive(t) then 0 else 1) && t.freed == (if t.weak == 0 then 1 else 0)
  {
  }

  lemma NextCounted(s: State, h: Id, step: Step)
    requires Inv(s)
    ensures Counted(Next(s, h, step))
  {
    var t := Next(s, h, step);
    if t != s {
      InvGivesFooting(s, h);
      OnlyStepper(s, h, step);
      HoldersUpdate(s.holders, h, t.holders[h]);
      StrongMoves(s, h, step);
      WeakMoves(s, h, step);
      forall g | g in s.holders && HasWeak(s.holders[g]) ensures s.weak > 0 {
        WeakShareCounts(s, g);
      }
      EventsCounted(s, h, step);
      CardinalitiesMove(s, h, t);
    }
  }

  lemma OnlyStepper(s: State, h: Id, step: Step)
    requires Next(s, h, step) != s
    ensures var t := Next(s, h, step); h in t.holders && t.holders == s.holders[h := t.holders[h]]
  {
  }

  lemma CardinalitiesMove(s: State, h: Id, t: State)
    requires h in t.holders
    requires StrongHolders(t.holders)
      == (if HasStrong(t.holders[h]) then StrongHolders(s.holders) + {h} else StrongHolders(s.holders) - {h})
    requires WeakHolders(t.holders)
      == (if HasWeak(t.holders[h]) then WeakHolders(s.holders) + {h} else WeakHolders(s.holders) - {h})
    ensures |StrongHolders(t.holders)| - |StrongHolders(s.holders)|
      == (if HasStrong(t.holders[h]) then 1 else 0) - (if h in s.holders && HasStrong(s.holders[h]) then 1 else 0)
    ensures |WeakHolders(t.holders)| - |WeakHolders(s.holders)|
      == (if HasWeak(t.holders[h]) then 1 else 0) - (if h in s.holders && HasWeak(s.holders[h]) then 1 else 0)
  {
    assert h in StrongHolders(s.holders) <==> h in s.holders && HasStrong(s.holders[h]);
    assert h in WeakHolders(s.holders) <==> h in s.holders && HasWeak(s.holders[h]);
  }

  lemma NextPhase(s: State, h: Id, step: Step)
    requires Inv(s)
    ensures PhaseOk(Next(s, h, step))
  {
    InvGivesFooting(s, h);
  }

  /** The step leaves its own holder in good standing. */
  lemma StepperOk(s: State, h: Id, step: Step)
    requires Footing(s, h) && PhaseOk(s) && h in Next(s, h, step).holders
    ensures HolderOk(Next(s, h, step), h)
  {
  }

  lemma BystanderAtStart(s: State, h: Id, step: Step, g: Id)
    requires step.Copy? || step.Attach? || step.WeakCopy? || step.Promote?
    requires PhaseOk(s) && g in s.holders && g != h && HolderOk(s, g)
    ensures g in Next(s, h, step).holders && HolderOk(Next(s, h, step), g)
  {
  }

  lemma BystanderMidway(s: State, h: Id, step: Step, g: Id)
    requires step.IncWeak? || step.IncStrong? || step.Load? || step.Exchange?
    requires Footing(s, h) && PhaseOk(s) && g in s.holders && g != h && HolderOk(s, g)
    ensures g in Next(s, h, step).holders && HolderOk(Next(s, h, step), g)
  {
  }

  lemma BystanderAtEnd(s: State, h: Id, step: Step, g: Id)
    requires step.DecStrong? || step.Destroy? || step.DropObject? || step.DecWeak?
    requires Footing(s, h) && PhaseOk(s) && g in s.holders && g != h && HolderOk(s, g)
    ensures g in Next(s, h, step).holders && HolderOk(Next(s, h, step), g)
  {
    if s.holders[g].source == h && (Copying(s.holders[g].pc) || Promoting(s.holders[g].pc)) {
      assert Borrowed(s, h);
    }
  }

  /** The holder another copy or promotion works from does not leave. */
  lemma BystanderOk(s: State, h: Id, step: Step, g: Id)
    requires Footing(s, h) && PhaseOk(s) && g in s.holders && g != h && HolderOk(s, g)
    ensures g in Next(s, h, step).holders && HolderOk(Next(s, h, step), g)
  {
    hide Footing, HolderOk, Next;
    if step.Copy? || step.Attach? || step.WeakCopy? || step.Promote? {
      BystanderAtStart(s, h, step, g);
    } else if step.IncWeak? || step.IncStrong? || step.Load? || step.Exchange? {
      BystanderMidway(s, h, step, g);
    } else {
      BystanderAtEnd(s, h, step, g);
    }
  }

  lemma NextHolders(s: State, h: Id, step: Step)
    requires Inv(s)
    ensures HoldersOk(Next(s, h, step))
  {
    var t := Next(s, h, step);
    InvGivesFooting(s, h);
    forall g | g in t.holders ensures HolderOk(t, g) {
      if g == h {
        StepperOk(s, h, step);
      } else {
        assert HolderOk(s, g);
        BystanderOk(s, h, step, g);
      }
    }
  }

  lemma NextInv(s: State, h: Id, step: Step)
    requires Inv(s)
    ensures Inv(Next(s, h, step))
  {
    NextCounted(s, h, step);
    NextPhase(s, h, step);
    NextHolders(s, h, step);
  }

  lemma {:induction false} ExecInv(s: State, run: seq<(Id, Step)>)
    requires Inv(s)
    ensures Inv(Exec(s, run))
    decreases |run|
  {
    if run != [] {
      NextInv(s, run[0].0, run[0].1);
      ExecInv(Next(s, run[0].0, run[0].1), run[1..]);
    }
  }

  // ---------------------------------------------------------------- what every run keeps

  lemma ReachedInv(run: seq<(Id, Step)>)
    ensures Inv(Exec(Start(), run))
  {
    StartInv();
    ExecInv(Start(), run);
  }

  /** An sptr, and a promotion that has won its compare-exchange, always have a live object. */
  lemma StrongMeansAlive(run: seq<(Id, Step)>, h: Id)
    requires var s := Exec(Start(), run); h in s.holders && HasStrong(s.holders[h])
    ensures var s := Exec(Start(), run); Alive(s) && s.deleted == 0 && s.strong > 0
  {
    ReachedInv(run);
    StrongShareHolds(Exec(Start(), run), h);
  }

  /** Once the last sptr has left, no copy and no promotion brings the count back. */
  lemma GoneStaysGone(s: State, h: Id, step: Step)
    requires Inv(s) && !s.phase.Unborn? && s.strong == 0
    ensures Next(s, h, step).strong == 0 && !Next(s, h, step).phase.Unborn? && !Next(s, h, step).phase.Held?
  {
    InvGivesFooting(s, h);
  }

  /** The object is destroyed at most once, and only after every strong share has been given up; the call
      that saw the count reach zero is the one that destroys it. */
  lemma DestroyedOnceByTheLast(run: seq<(Id, Step)>)
    ensures var s := Exec(Start(), run);
      && s.deleted <= 1
      && (s.deleted == 1 ==> s.strong == 0 && forall h | h in s.holders :: !HasStrong(s.holders[h]))
      && (forall h | h in s.holders && s.holders[h].pc == Deleting :: s.phase == Dying(h) && s.deleted == 0)
  {
    ReachedInv(run);
    var s := Exec(Start(), run);
    forall h | h in s.holders && HasStrong(s.holders[h]) ensures s.strong > 0 {
      StrongShareHolds(s, h);
    }
    forall h | h in s.holders && s.holders[h].pc == Deleting ensures s.phase == Dying(h) {
      assert HolderOk(s, h);
    }
  }

  /** The counter is freed at most once, exactly when nobody has a share any more; from then on every holder
      is gone and no step of any of them is enabled. */
  lemma FreedOnceAfterAll(run: seq<(Id, Step)>, h: Id, step: Step)
    ensures var s := Exec(Start(), run);
      && s.freed <= 1
      && (s.freed == 1 <==> s.weak == 0)
      && (s.weak == 0 <==> s.phase.Over? && WeakHolders(s.holders) == {})
      && (s.freed == 1 ==> (forall g | g in s.holders :: s.holders[g].pc == Gone) && Next(s, h, step) == s)
  {
    ReachedInv(run);
    var s := Exec(Start(), run);
    if s.freed == 1 {
      forall g | g in s.holders ensures s.holders[g].pc == Gone {
        InvGivesFooting(s, g);
      }
    }
  }

  ghost predicate Resting(s: State) {
    forall h | h in s.holders :: s.holders[h].pc == Strong || s.holders[h].pc == Weak || s.holders[h].pc == Gone
  }

  ghost function HoldersAt(s: State, pc: Pc): set<Id> {
    set h | h in s.holders && s.holders[h].pc == pc
  }

  lemma RestingShares(s: State)
    requires Resting(s)
    ensures StrongHolders(s.holders) == HoldersAt(s, Strong)
    ensures |WeakHolders(s.holders)| == |HoldersAt(s, Strong)| + |HoldersAt(s, Weak)|
  {
    assert forall h | h in s.holders :: HasStrong(s.holders[h]) <==> s.holders[h].pc == Strong;
    assert forall h | h in s.holders :: HasWeak(s.holders[h]) <==> s.holders[h].pc == Strong || s.holders[h].pc == Weak;
    assert WeakHolders(s.holders) == HoldersAt(s, Strong) + HoldersAt(s, Weak);
  }

  /** With no operation part-way through, the weak count is the number of sptrs and wptrs and one for the
      living object. */
  lemma RestingCounts(run: seq<(Id, Step)>)
    requires Resting(Exec(Start(), run))
    ensures var s := Exec(Start(), run);
      && s.strong == |HoldersAt(s, Strong)|
      && s.weak == |HoldersAt(s, Strong)| + |HoldersAt(s, Weak)| + (if Alive(s) then 1 else 0)
  {
    ReachedInv(run);
    var s := Exec(Start(), run);
    RestingShares(s);
    if s.phase.Dying? || s.phase.Dead? {
      assert HolderOk(s, s.phase.last);
    }
  }

  /** With no operation part-way through, the object has been destroyed exactly if no sptr is left, and the counter has
      been freed exactly if no wptr is left either: nothing leaks, and each happens once. */
  lemma RestingLeavesNothing(run: seq<(Id, Step)>)
    requires Resting(Exec(Start(), run))
    ensures var s := Exec(Start(), run);
      && s.deleted == (if HoldersAt(s, Strong) == {} then 1 else 0)
      && s.freed == (if HoldersAt(s, Strong) == {} && HoldersAt(s, Weak) == {} then 1 else 0)
  {
    ReachedInv(run);
    RestingCounts(run);
    var s := Exec(Start(), run);
    if s.phase.Dying? || s.phase.Dead? {
      assert HolderOk(s, s.phase.last);
    }
  }

  // ---------------------------------------------------------------- what each operation comes to

  /** Before its first sptr exists nobody else knows the object. */
  predicate NewbornAlone(s: State) {
    s.phase.Unborn? ==> s.holders.Keys == {ROOT} && Copying(s.holders[ROOT].pc)
  }

  lemma NewbornStep(s: State, h: Id, step: Step)
    requires NewbornAlone(s)
    ensures NewbornAlone(Next(s, h, step))
  {
    var t := Next(s, h, step);
    if s.phase.Unborn? && t.phase.Unborn? && t != s {
      OnlyStepper(s, h, step);
      assert h == ROOT;
    }
  }

  lemma {:induction false} NewbornRun(s: State, run: seq<(Id, Step)>)
    requires NewbornAlone(s)
    ensures NewbornAlone(Exec(s, run))
    decreases |run|
  {
    if run != [] {
      NewbornStep(s, run[0].0, run[0].1);
      NewbornRun(Next(s, run[0].0, run[0].1), run[1..]);
    }
  }

  lemma {:induction false} GoneForGood(s: State, run: seq<(Id, Step)>)
    requires Inv(s) && !s.phase.Unborn? && s.strong == 0
    ensures Exec(s, run).strong == 0 && Inv(Exec(s, run))
    decreases |run|
  {
    if run != [] {
      NextInv(s, run[0].0, run[0].1);
      GoneStaysGone(s, run[0].0, run[0].1);
      GoneForGood(Next(s, run[0].0, run[0].1), run[1..]);
    }
  }

  /** The step that a promotion in progress takes next. */
  function Promotes(pc: Pc, spurious: bool): Step {
    if pc == PromoteLoad then Load else Exchange(spurious)
  }

  lemma PromotionStep(s: State, h: Id, spurious: bool)
    requires h in s.holders && (s.holders[h].pc == PromoteLoad || s.holders[h].pc.PromoteTry?)
    requires s.strong >= 0 && (s.holders[h].pc.PromoteTry? ==> s.holders[h].pc.current > 0)
    ensures var pc := s.holders[h].pc;
      var t := Next(s, h, Promotes(pc, spurious));
      && (s.strong == 0 ==> At(t, h, Gone))
      && (s.strong > 0 ==>
            if pc == PromoteTry(s.strong) && !spurious then At(t, h, PromoteWon) && t.strong == s.strong + 1
            else At(t, h, PromoteTry(s.strong)) && t.strong == s.strong)
  {
  }

  /** A promotion gives up exactly when it reads that no sptr is left, and then none ever comes back. As long as there
      is one it goes on with the count it read, and an exchange that finds this count takes a share. */
  lemma PromotionFailsExactlyIfGone(run: seq<(Id, Step)>, h: Id, spurious: bool, after: seq<(Id, Step)>)
    requires var s := Exec(Start(), run);
      h in s.holders && (s.holders[h].pc == PromoteLoad || s.holders[h].pc.PromoteTry?)
    ensures var s := Exec(Start(), run);
      var pc := s.holders[h].pc;
      var t := Next(s, h, if pc == PromoteLoad then Load else Exchange(spurious));
      && (At(t, h, Gone) <==> s.strong == 0)
      && (s.strong == 0 ==> Exec(t, after).strong == 0 && forall g | g in t.holders :: !HasStrong(t.holders[g]))
      && (s.strong > 0 ==>
            if pc == PromoteTry(s.strong) && !spurious then At(t, h, PromoteWon) && t.strong == s.strong + 1
            else At(t, h, PromoteTry(s.strong)) && t.strong == s.strong)
  {
    ReachedInv(run);
    NewbornRun(Start(), run);
    var s := Exec(Start(), run);
    InvGivesFooting(s, h);
    hide Next, Exec;
    PromotionStep(s, h, spurious);
    if s.strong == 0 {
      var step := Promotes(s.holders[h].pc, spurious);
      NextInv(s, h, step);
      GoneStaysGone(s, h, step);
      GoneForGood(Next(s, h, step), after);
      NoneHasStrong(Next(s, h, step));
    }
  }

  lemma NoneHasStrong(s: State)
    requires Inv(s) && s.strong == 0
    ensures forall g | g in s.holders :: !HasStrong(s.holders[g])
  {
    forall g | g in s.holders ensures !HasStrong(s.holders[g]) {
      InvGivesFooting(s, g);
    }
  }

  /** The steps of one holder, one after another. */
  function Steps(h: Id, steps: seq<Step>): seq<(Id, Step)> {
    if steps == [] then [] else [(h, steps[0])] + Steps(h, steps[1..])
  }

  lemma StepsFirst(s: State, h: Id, step: Step, rest: seq<Step>)
    ensures Exec(s, Steps(h, [step] + rest)) == Exec(Next(s, h, step), Steps(h, rest))
  {
    assert ([step] + rest)[1..] == rest;
  }

  lemma Exec3(s: State, h: Id, a: Step, b: Step, c: Step)
    ensures Exec(s, Steps(h, [a, b, c])) == Next(Next(Next(s, h, a), h, b), h, c)
  {
    assert [a, b, c] == [a] + [b, c] && [b, c] == [b] + [c] && [c] == [c] + [];
    StepsFirst(s, h, a, [b, c]);
    StepsFirst(Next(s, h, a), h, b, [c]);
    StepsFirst(Next(Next(s, h, a), h, b), h, c, []);
  }

  lemma Exec4(s: State, h: Id, a: Step, b: Step, c: Step, d: Step)
    ensures Exec(s, Steps(h, [a, b, c, d])) == Next(Next(Next(Next(s, h, a), h, b), h, c), h, d)
  {
    assert [a, b, c, d] == [a] + [b, c, d];
    StepsFirst(s, h, a, [b, c, d]);
    Exec3(Next(s, h, a), h, b, c, d);
  }

  /** Only this holder differs. */
  predicate OthersKept(s: State, t: State, h: Id) {
    s.holders - {h} == t.holders - {h}
  }

  /** A copy of an sptr that nothing interrupts adds one to both counts and leaves a new sptr. */
  lemma CopyComesTo(s: State, h: Id, source: Id)
    requires Inv(s) && h !in s.holders && At(s, source, Strong)
    ensures var t := Exec(s, Steps(h, [Copy(source), IncWeak, IncStrong]));
      && At(t, h, Strong) && OthersKept(s, t, h)
      && t.strong == s.strong + 1 && t.weak == s.weak + 1 && t.deleted == s.deleted && t.freed == s.freed
  {
    Exec3(s, h, Copy(source), IncWeak, IncStrong);
  }

  /** Its first two steps. */
  lemma PromotionReads(s: State, h: Id, source: Id)
    requires Inv(s) && h !in s.holders && At(s, source, Weak)
    ensures Next(Next(s, h, Promote(source)), h, Load)
         == Put(s, h, if s.strong > 0 then PromoteTry(s.strong) else Gone, source)
  {
    var t := Next(Next(s, h, Promote(source)), h, Load);
    assert t.holders == s.holders[h := t.holders[h]];
  }

  /** A promotion that nothing interrupts leaves an sptr exactly if there was one before, and otherwise no trace. */
  lemma PromotionComesTo(s: State, h: Id, source: Id)
    requires Inv(s) && h !in s.holders && At(s, source, Weak)
    ensures var t := Exec(s, Steps(h, [Promote(source), Load, Exchange(false), IncWeak]));
      && OthersKept(s, t, h) && t.deleted == s.deleted && t.freed == s.freed
      && (if s.strong > 0 then At(t, h, Strong) && t.strong == s.strong + 1 && t.weak == s.weak + 1
          else At(t, h, Gone) && t.strong == s.strong && t.weak == s.weak)
  {
    hide Inv, Exec, Steps;
    Exec4(s, h, Promote(source), Load, Exchange(false), IncWeak);
    PromotionReads(s, h, source);
  }

  /** The first step. */
  lemma GivesStrongUp(s: State, h: Id)
    requires At(s, h, Strong) && !Borrowed(s, h)
    ensures var x := Holder(if s.strong == 1 then Deleting else Dropping, s.holders[h].source);
      Next(s, h, DecStrong)
      == s.(holders := s.holders[h := x], strong := s.strong - 1, phase := if s.strong == 1 then Dying(h) else s.phase)
  {
    hide Borrowed;
  }

  /** The other steps, for the last sptr and for another one. */
  lemma LastGoes(s: State, h: Id)
    requires At(s, h, Deleting) && s.weak >= 2
    ensures var t := Next(Next(Next(s, h, Destroy), h, DropObject), h, DecWeak);
      && At(t, h, Gone) && OthersKept(s, t, h) && t.strong == s.strong && t.weak == s.weak - 2
      && t.deleted == s.deleted + 1 && t.freed == s.freed + if s.weak == 2 then 1 else 0
  {
    hide Borrowed;
  }

  lemma OtherGoes(s: State, h: Id)
    requires At(s, h, Dropping) && s.weak >= 1
    ensures var t := Next(Next(Next(s, h, Destroy), h, DropObject), h, DecWeak);
      && At(t, h, Gone) && OthersKept(s, t, h) && t.strong == s.strong && t.weak == s.weak - 1
      && t.deleted == s.deleted && t.freed == s.freed + if s.weak == 1 then 1 else 0
  {
    hide Borrowed;
  }

  /** Giving up an sptr that nothing interrupts and nothing works from takes one from both counts; for the last sptr
      it destroys the object and gives up its share too, and the counter is freed with the last share. */
  lemma ReleaseComesTo(s: State, h: Id)
    requires Inv(s) && At(s, h, Strong) && !Borrowed(s, h)
    ensures var t := Exec(s, Steps(h, [DecStrong, Destroy, DropObject, DecWeak]));
      && At(t, h, Gone) && OthersKept(s, t, h)
      && t.strong == s.strong - 1 && t.weak == s.weak - (if s.strong == 1 then 2 else 1)
      && t.deleted == (if s.strong == 1 then 1 else 0) && t.freed == (if t.weak == 0 then 1 else 0)
  {
    WeakCounts(s, h);
    hide Inv, Borrowed, Exec, Steps;
    Exec4(s, h, DecStrong, Destroy, DropObject, DecWeak);
    GivesStrongUp(s, h);
    var t := Next(s, h, DecStrong);
    hide Next;
    if s.strong == 1 {
      LastGoes(t, h);
    } else {
      OtherGoes(t, h);
    }
  }

  /** With an sptr there are at least its own share of the counter and the object's. */
  lemma WeakCounts(s: State, h: Id)
    requires Inv(s) && At(s, h, Strong)
    ensures s.strong > 0 && s.weak >= 2 && s.deleted == 0 && s.freed == 0
  {
    InvGivesFooting(s, h);
    assert h in WeakHolders(s.holders);
  }

  /** A wptr costs one of the weak count, whether it comes from an sptr or a wptr, and gives it back. */
  lemma WeakComesTo(s: State, h: Id, source: Id)
    requires Inv(s) && h !in s.holders && (At(s, source, Strong) || At(s, source, Weak))
    ensures var t := Next(s, h, if At(s, source, Strong) then Attach(source) else WeakCopy(source));
      && At(t, h, Weak) && OthersKept(s, t, h) && t.strong == s.strong && t.weak == s.weak + 1
      && (!Borrowed(t, h) ==>
            var u := Next(t, h, DecWeak);
            At(u, h, Gone) && OthersKept(t, u, h) && u.weak == s.weak && u.freed == s.freed)
  {
    SourceHolds(s, source);
    hide Inv, Borrowed, Next;
    TakesWeak(s, h, source);
    var t := Put(s, h, Weak, h).(weak := s.weak + 1);
    GivesWeakBack(t, h);
    assert t.holders[h].source == h;
  }

  lemma TakesWeak(s: State, h: Id, source: Id)
    requires h !in s.holders && (At(s, source, Strong) || At(s, source, Weak))
    ensures Next(s, h, if At(s, source, Strong) then Attach(source) else WeakCopy(source))
         == Put(s, h, Weak, h).(weak := s.weak + 1)
  {
    hide Borrowed;
  }

  lemma SourceHolds(s: State, source: Id)
    requires Inv(s) && (At(s, source, Strong) || At(s, source, Weak))
    ensures s.weak > 0
  {
    InvGivesFooting(s, source);
  }

  lemma GivesWeakBack(s: State, h: Id)
    requires At(s, h, Weak) && s.weak > 1
    ensures !Borrowed(s, h) ==> Next(s, h, DecWeak) == Put(s, h, Gone, s.holders[h].source).(weak := s.weak - 1)
  {
    hide Borrowed;
  }
}
