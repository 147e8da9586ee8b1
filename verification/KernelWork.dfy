/** What the hart that holds processes_lock has left to do before it releases the lock. */
module KernelWork {
  import opened Prelude
  import opened KernelState
  import opened KernelSteps
  import opened KernelInvariant
  import opened KernelPreservation
  import opened KernelProgress
  import opened KernelHope
  import opened KernelReach

  // ---------------------------------------------------------------- what a hart leaves to the others

  /** The slots of waiting processes, and unused slots unless a process was put there, are as they were. */
  predicate SparesSlots(slots: seq<Slot>, after: seq<Slot>) {
    && |after| == |slots|
    && (forall q :: 0 <= q < |slots| ==>
          && (Waiting(slots[q]) ==> Waiting(after[q]))
          && (slots[q].state == Unused ==> after[q].state == Unused || Waiting(after[q])))
  }

  /** Whatever hart `g` has done, every other hart is where it was, up to its calls on io_spinlock. */
  ghost predicate Spares(s: State, t: State, g: nat) {
    && |t.harts| == |s.harts| && t.exits == s.exits && SparesSlots(s.slots, t.slots)
    && (forall k :: 0 <= k < |s.harts| && k != g ==>
          && SameButCalls(s.harts[k], t.harts[k])
          && t.harts[k].phases.trapPrint == s.harts[k].phases.trapPrint
          && t.harts[k].phases.processes == s.harts[k].phases.processes
          && MayCreate(t.harts[k], t.slots) == MayCreate(s.harts[k], s.slots)
          && MayFree(t.harts[k], t.slots) == MayFree(s.harts[k], s.slots))
  }

  lemma SparesOn(s: State, t: State, u: State, g: nat)
    requires Reaches(s, t) && Spares(s, t, g) && Reaches(t, u) && Spares(t, u, g)
    ensures Reaches(s, u) && Spares(s, u, g)
  {
    ReachesOn(s, t, u);
  }

  lemma CallsSpare(s: State, t: State, g: nat)
    requires OnlyCalls(s, t, g)
    ensures Spares(s, t, g)
  {
  }

  /** A main step of hart `g`, if its write is one that spares the slots. */
  lemma MovedOn(s: State, g: nat, a: Action) returns (t: State)
    requires Inv(s) && g < |s.harts| && Enabled(s.harts[g], s.slots, a)
    requires var e := Exec(s.harts[g], g, s.locks, s.slots, s.exits, a);
      Gentle(s.slots, e.write)
    ensures Reaches(s, t) && Inv(t) && Spares(s, t, g)
    ensures var e := Exec(s.harts[g], g, s.locks, s.slots, s.exits, a);
      t.harts[g] == e.hart && t.slots == Written(s.slots, e.write)
    ensures forall k :: 0 <= k < |s.harts| && k != g ==> t.harts[k] == s.harts[k]
  {
    hide Inv, Exec, MayCreate, MayFree, Enabled;
    t := Moved(s, g, a);
    forall k | 0 <= k < |s.harts| && k != g
      ensures MayCreate(t.harts[k], t.slots) == MayCreate(s.harts[k], s.slots)
      ensures MayFree(t.harts[k], t.slots) == MayFree(s.harts[k], s.slots)
    {
      KindsKept(s, g, a, k);
    }
  }

  predicate Gentle(slots: seq<Slot>, write: Option<(nat, Slot)>) {
    write.Some? ==>
      && write.value.0 < |slots|
      && (Waiting(slots[write.value.0]) ==> Waiting(write.value.1))
      && (slots[write.value.0].state == Unused ==> write.value.1.state == Unused || Waiting(write.value.1))
  }

  // ---------------------------------------------------------------- the holder of processes_lock

  /** How much a hart still has to do under processes_lock. */
  function Job(loc: Loc): nat {
    match loc
    case Creating(c) =>
      (match c
       case CreateScan(k) => if k <= PROCESSES_MAXIMUM then 60 - k else 0
       case CreateInit(_) => 9
       case CreatePublish(_) => 8)
    case Destroying(d) =>
      (match d
       case DestroyLock => 10
       case DestroyTake => 9
       case DestroyId => 8
       case DestroyState => 7)
    case Choosing(c) =>
      (match c
       case ChooseLock => 10
       case ChooseScan(k) => if k <= PROCESSES_MAXIMUM then 60 - k else 0
       case ChooseTake => 9
       case ChooseFirst => 8
       case ChooseRun => 7)
    case _ => 0
  }

  /** One step of that work: the lock is being released, or less is left to do. */
  ghost predicate Works(x: Hart, y: Hart, slots: seq<Slot>, write: Option<(nat, Slot)>) {
    && Gentle(slots, write)
    && y.inTrap == x.inTrap && y.phases.trapPrint == x.phases.trapPrint && y.phases.io == Out
    && (|| y.phases.processes == ClearOwner
        || (y.phases.processes == Held && Job(y.loc) < Job(x.loc) && !KeepsLock(y, Written(slots, write))))
    && (Seeks(x) ==> Seeks(y))
    && (x.loc.Destroying? ==>
          || y.loc.Destroying?
          || (&& y.loc == SwitchingOff(OffEntry) && y.phases.processes == ClearOwner
              && write.Some? && write.value.1.state == Unused))
    && (x.loc.Creating? ==>
          || y.loc.Creating?
          || (y.phases.processes == ClearOwner && write.Some? && Waiting(write.value.1)))
  }

  lemma CreateScanWorks(x: Hart, k: nat, locks: Locks, slots: seq<Slot>)
    requires |slots| == PROCESSES_MAXIMUM && x.loc == Creating(CreateScan(k)) && !KeepsLock(x, slots)
    requires x.phases.processes == Held && x.phases.io == Out
    ensures var e := CreateStep(x, CreateScan(k), locks, slots);
      Works(x, e.hart, slots, e.write)
  {
    CreateScanMoves(x, k, locks, slots);
    hide CreateStep;
  }

  lemma CreateInitWorks(x: Hart, k: nat, slots: seq<Slot>, q: Slot)
    requires |slots| == PROCESSES_MAXIMUM && x.loc == Creating(CreateInit(k)) && k < PROCESSES_MAXIMUM
    requires x.phases.processes == Held && x.phases.io == Out && slots[k].state == Unused && q.state == Unused
    ensures Works(x, x.(loc := Creating(CreatePublish(k))), slots, Some((k, q)))
  {
  }

  lemma CreatePublishWorks(x: Hart, k: nat, slots: seq<Slot>, to: Loc)
    requires |slots| == PROCESSES_MAXIMUM && x.loc == Creating(CreatePublish(k)) && k < PROCESSES_MAXIMUM
    requires x.phases.io == Out && slots[k].state == Unused
    ensures Works(x, Release(x, Processes, to), slots, Some((k, slots[k].(state := Ready))))
  {
  }

  lemma CreateWorks(x: Hart, at: CreateAt, locks: Locks, slots: seq<Slot>)
    requires |slots| == PROCESSES_MAXIMUM && x.loc == Creating(at) && !KeepsLock(x, slots)
    requires x.phases.processes == Held && x.phases.io == Out
    requires !at.CreateScan? ==> at.k < PROCESSES_MAXIMUM && slots[at.k].state == Unused
    ensures var e := CreateStep(x, at, locks, slots);
      Works(x, e.hart, slots, e.write)
  {
    hide Works, KeepsLock;
    match at
    case CreateScan(k) => CreateScanWorks(x, k, locks, slots);
    case CreateInit(k) =>
      LateCreateSteps(x, k, locks, slots);
      CreateInitWorks(x, k, slots, CreateStep(x, CreateInit(k), locks, slots).write.value.1);
    case CreatePublish(k) =>
      LateCreateSteps(x, k, locks, slots);
      CreatePublishWorks(x, k, slots, if x.current == None then Boot else Proc);
  }

  lemma DestroyWorks(x: Hart, at: DestroyAt, locks: Locks, slots: seq<Slot>)
    requires |slots| == PROCESSES_MAXIMUM && x.loc == Destroying(at) && at != DestroyLock
    requires x.phases.processes == Held && x.phases.io == Out
    requires at == DestroyTake ==> x.current.Some?
    requires at == DestroyId || at == DestroyState ==>
      x.current == None && x.old_ < PROCESSES_MAXIMUM && slots[x.old_].state == Running
    ensures var e := DestroyStep(x, at, locks, slots);
      Works(x, e.hart, slots, e.write)
  {
    DestroySteps(x, if at == DestroyTake then x.current.value else 0, locks, slots);
    hide DestroyStep, KeepsLock;
  }

  lemma ChooseScanWorks(x: Hart, k: nat, locks: Locks, slots: seq<Slot>)
    requires |slots| == PROCESSES_MAXIMUM && x.loc == Choosing(ChooseScan(k)) && k <= PROCESSES_MAXIMUM
    requires x.phases.processes == Held && x.phases.io == Out
    ensures var e := ChooseStep(x, ChooseScan(k), locks, slots);
      Works(x, e.hart, slots, e.write)
  {
    ChooseScanMoves(x, k, locks, slots);
    hide ChooseStep, Works;
    if k >= PROCESSES_MAXIMUM {
      ScanIsOver(x, slots);
    } else if Waiting(slots[ScanId(x.start, k)]) {
      ScanFinds(x, k, ScanId(x.start, k), slots);
    } else {
      ScanGoesOn(x, k, slots);
    }
  }

  lemma ScanIsOver(x: Hart, slots: seq<Slot>)
    requires x.loc.Choosing? && x.phases.io == Out
    ensures Works(x, Release(x, Processes, Choosing(ChooseLock)), slots, None)
  {
  }

  lemma ScanFinds(x: Hart, k: nat, next: nat, slots: seq<Slot>)
    requires x.loc == Choosing(ChooseScan(k)) && k <= PROCESSES_MAXIMUM
    requires x.phases.processes == Held && x.phases.io == Out
    ensures Works(x, x.(next := next, loc := Choosing(ChooseTake)), slots, None)
  {
  }

  lemma ScanGoesOn(x: Hart, k: nat, slots: seq<Slot>)
    requires x.loc == Choosing(ChooseScan(k)) && k < PROCESSES_MAXIMUM
    requires x.phases.processes == Held && x.phases.io == Out
    ensures Works(x, x.(loc := Choosing(ChooseScan(k + 1))), slots, None)
  {
  }

  lemma ChooseScanMoves(x: Hart, k: nat, locks: Locks, slots: seq<Slot>)
    requires |slots| == PROCESSES_MAXIMUM
    ensures ChooseStep(x, ChooseScan(k), locks, slots) ==
      Effect(if k >= PROCESSES_MAXIMUM then Release(x, Processes, Choosing(ChooseLock))
             else if Waiting(slots[ScanId(x.start, k)]) then x.(next := ScanId(x.start, k), loc := Choosing(ChooseTake))
             else x.(loc := Choosing(ChooseScan(k + 1))), locks, None)
  {
  }

  lemma ChooseWorks(x: Hart, at: ChooseAt, locks: Locks, slots: seq<Slot>)
    requires |slots| == PROCESSES_MAXIMUM && x.loc == Choosing(at) && at != ChooseLock && at != ChooseRun
    requires x.phases.processes == Held && x.phases.io == Out
    requires at == ChooseFirst ==> x.current.Some? && x.current.value < PROCESSES_MAXIMUM
    requires at.ChooseScan? ==> at.k <= PROCESSES_MAXIMUM
    ensures var e := ChooseStep(x, at, locks, slots);
      Works(x, e.hart, slots, e.write)
  {
    match at
    case ChooseScan(k) => ChooseScanWorks(x, k, locks, slots);
    case ChooseTake =>
      assert ChooseStep(x, ChooseTake, locks, slots)
        == Effect(x.(current := Some(x.next), loc := Choosing(ChooseFirst)), locks, None);
    case ChooseFirst => assert ChooseStep(x, ChooseFirst, locks, slots).write == None;
  }

  /** The holder of the lock at its next main step. */
  lemma HolderWorks(x: Hart, locks: Locks, slots: seq<Slot>, exits: Exits)
    requires View(x, slots, exits) && AtMain(x) && x.phases.processes == Held
    requires !KeepsLock(x, slots) && !x.loc.SwitchingOn? && x.loc != Choosing(ChooseRun)
    ensures x.loc != Boot && x.loc != Proc && !x.loc.Panicked?
    ensures var e := MainStep(x, locks, slots, exits);
      Works(x, e.hart, slots, e.write)
  {
    hide CreateStep, TrapStep, DestroyStep, OffStep, ChooseStep, OnStep, InterruptsFit, ContextFits, SlotFits, Works;
    match x.loc
    case Creating(at) => CreateWorks(x, at, locks, slots);
    case Destroying(at) => DestroyWorks(x, at, locks, slots);
    case Choosing(at) => ChooseWorks(x, at, locks, slots);
    case _ =>
  }

  /** ... which may be the store that makes a process RUNNING. */
  lemma HolderEnters(s: State, g: nat) returns (t: State)
    requires Inv(s) && g < |s.harts| && AtMain(s.harts[g]) && s.harts[g].loc == Choosing(ChooseRun)
    ensures Reaches(s, t) && Inv(t) && EntersFrom(t, g)
  {
    hide PhasesFit, InterruptsFit, ContextFits, SlotFits, HartSlotFits;
    t := Moved(s, g, Go);
  }

  /** Hart `g` has taken a process, and begins to release processes_lock. */
  ghost predicate EntersFrom(t: State, g: nat)
    ensures EntersFrom(t, g) ==> Entering(t)
  {
    g < |t.harts| && t.harts[g].loc == SwitchingOn(OnPick) && t.harts[g].phases.processes == ClearOwner
  }

  /** What the holder `g` of processes_lock has come to when it starts to release it. */
  ghost predicate WorkDone(s: State, t: State, g: nat)
    requires g < |s.harts|
  {
    && Spares(s, t, g)
    && var x, y := s.harts[g], t.harts[g];
    && y.phases.processes == ClearOwner && y.phases.trapPrint == x.phases.trapPrint && y.inTrap == x.inTrap
    && (Seeks(x) ==> Seeks(y)) && (x.loc.Destroying? ==> y.loc == SwitchingOff(OffEntry) && SomeUnused(t.slots))
    && (x.loc.Creating? ==> SomeWaits(t.slots))
  }

  /** One main step of the holder. */
  lemma HolderMoved(s: State, g: nat) returns (t: State)
    requires Inv(s) && g < |s.harts| && AtMain(s.harts[g]) && s.harts[g].phases.processes == Held
    requires !KeepsLock(s.harts[g], s.slots) && !s.harts[g].loc.SwitchingOn? && s.harts[g].loc != Choosing(ChooseRun)
    ensures Reaches(s, t) && Inv(t) && Spares(s, t, g)
    ensures var x, y := s.harts[g], t.harts[g];
      && y.phases.trapPrint == x.phases.trapPrint && y.inTrap == x.inTrap && (Seeks(x) ==> Seeks(y))
      && (x.loc.Destroying? ==>
            || y.loc.Destroying?
            || (y.loc == SwitchingOff(OffEntry) && y.phases.processes == ClearOwner && SomeUnused(t.slots)))
      && (x.loc.Creating? ==> y.loc.Creating? || (y.phases.processes == ClearOwner && SomeWaits(t.slots)))
      && (y.phases.processes != ClearOwner ==>
            && AtMain(y) && y.phases.processes == Held && Job(y.loc) < Job(x.loc)
            && !KeepsLock(y, t.slots) && !y.loc.SwitchingOn?)
  {
    assert Local(s.harts[g]) && HartSlotFits(s.harts[g], s.slots, s.exits);
    HolderWorks(s.harts[g], s.locks, s.slots, s.exits);
    hide MainStep, KeepsLock, Job, Seeks, HartSlotFits, SlotFits;
    t := MovedOn(s, g, Go);
    assert Local(t.harts[g]);
    var e := Exec(s.harts[g], g, s.locks, s.slots, s.exits, Go);
    assert e.write.Some? ==> t.slots[e.write.value.0] == e.write.value.1;
  }

  lemma {:induction false} Worked(s: State, g: nat) returns (t: State)
    requires Inv(s) && g < |s.harts| && AtMain(s.harts[g]) && s.harts[g].phases.processes == Held
    requires !KeepsLock(s.harts[g], s.slots) && !s.harts[g].loc.SwitchingOn?
    ensures Reaches(s, t) && Inv(t)
    ensures EntersFrom(t, g) || WorkDone(s, t, g)
    decreases Job(s.harts[g].loc)
  {
    if s.harts[g].loc == Choosing(ChooseRun) {
      t := HolderEnters(s, g);
    } else {
      var u := HolderMoved(s, g);
      if u.harts[g].phases.processes == ClearOwner {
        t := u;
      } else {
        hide Inv, KeepsLock, Job, EntersFrom;
        t := Worked(u, g);
        if EntersFrom(t, g) {
          ReachesOn(s, u, t);
        } else {
          SparesOn(s, u, t, g);
        }
      }
    }
  }

  /** Hart `g` has let go of processes_lock. */
  ghost predicate LetGo(s: State, t: State, g: nat)
    requires g < |s.harts|
  {
    && Spares(s, t, g) && !t.locks.processes.locked
    && var x, y := s.harts[g], t.harts[g];
    && y.phases.trapPrint == x.phases.trapPrint && y.inTrap == x.inTrap
    && (Seeks(x) ==> Seeks(y)) && (x.loc.Destroying? ==> y.loc == SwitchingOff(OffEntry) && SomeUnused(t.slots))
    && (x.loc.Creating? ==> SomeWaits(t.slots))
    && (x.phases.processes in {ClearOwner, Unlock} ==> SameButCalls(x, y) && t.slots == s.slots)
  }

  lemma HeldFreed(s: State, g: nat) returns (t: State)
    requires Inv(s) && g < |s.harts| && AtMain(s.harts[g]) && s.harts[g].phases.processes == Held
    requires !KeepsLock(s.harts[g], s.slots) && !s.harts[g].loc.SwitchingOn?
    ensures Reaches(s, t) && Inv(t)
    ensures EntersFrom(t, g) || LetGo(s, t, g)
  {
    hide Inv, KeepsLock, AtMain, EntersFrom, MayCreate, MayFree, SparesSlots;
    var v := Worked(s, g);
    if EntersFrom(v, g) {
      t := v;
    } else {
      t := Ended(v, g);
      SparesOn(s, v, t, g);
    }
  }

  /** Unless processes_lock is lost, its holder can release it. */
  lemma Freed(s: State, g: nat) returns (t: State)
    requires Inv(s) && g < |s.harts| && Inside(s.harts[g].phases.processes)
    requires !KeepsLock(s.harts[g], s.slots) && !s.harts[g].loc.SwitchingOn?
    ensures Reaches(s, t) && Inv(t)
    ensures EntersFrom(t, g) || LetGo(s, t, g)
  {
    HolderIsSettled(s, g);
    hide Inv, KeepsLock, SameButCalls, EntersFrom, MayCreate, MayFree, SparesSlots;
    if s.harts[g].phases.processes in {ClearOwner, Unlock} {
      t := Ended(s, g);
      SeeksOn(s.harts[g], t.harts[g]);
    } else {
      var u := Calmed(s, g);
      CallsSpare(s, u, g);
      StillNoKeeper(s.harts[g], u.harts[g], s.slots);
      SeeksOn(s.harts[g], u.harts[g]);
      t := HeldFreed(u, g);
      ReachesOn(s, u, t);
      if !EntersFrom(t, g) {
        SparesOn(s, u, t, g);
      }
    }
  }

  lemma SeeksOn(x: Hart, y: Hart)
    requires SameButCalls(x, y)
    ensures Seeks(x) == Seeks(y) && y.inTrap == x.inTrap && y.loc == x.loc
  {
  }

  lemma StillNoKeeper(x: Hart, y: Hart, slots: seq<Slot>)
    requires SameButCalls(x, y) && Inside(x.phases.processes) && !KeepsLock(x, slots)
    ensures !KeepsLock(y, slots)
  {
  }

  /** The last part of a release. */
  lemma Ended(s: State, g: nat) returns (t: State)
    requires Inv(s) && g < |s.harts| && s.harts[g].phases.processes in {ClearOwner, Unlock}
    ensures Reaches(s, t) && Inv(t) && OnlyCalls(s, t, g) && Spares(s, t, g) && !t.locks.processes.locked
    ensures t.harts[g].phases == s.harts[g].phases.(processes := Out, io := Out)
  {
    HolderIsSettled(s, g);
    hide Inv;
    t := Calmed(s, g);
    CallsSpare(s, t, g);
    NobodyInside(s, t, Processes, g);
  }

  lemma HolderIsSettled(s: State, g: nat)
    requires Inv(s) && g < |s.harts| && Inside(s.harts[g].phases.processes)
    ensures Settled(s.harts[g].phases.trapPrint)
    ensures s.harts[g].loc.Destroying? ==> !(s.harts[g].phases.processes in {ClearOwner, Unlock})
  {
    assert Local(s.harts[g]);
  }

  // ---------------------------------------------------------------- the lock itself

  /** Some interleaving of the harts leads to a state in which processes_lock is free. */
  ghost predicate CanUnlock(s: State) {
    exists t :: Reaches(s, t) && !t.locks.processes.locked
  }

  lemma CanUnlockFrom(s: State, t: State)
    requires Reaches(s, t) && !t.locks.processes.locked
    ensures CanUnlock(s)
  {
  }

  /** Unless processes_lock is lost, its holder can come to release it. */
  lemma LockCanBeFreed(s: State)
    requires Inv(s) && !LockIsLost(s)
    ensures CanUnlock(s)
  {
    var t := s;
    ReachesItself(s);
    if s.locks.processes.locked {
      var g := HolderOf(s, Processes);
      assert !KeepsLock(s.harts[g], s.slots);
      if s.harts[g].loc.SwitchingOn? {
        EnteringHoldsNoLock(s, g);
        t := Ended(s, g);
      } else {
        t := HolderFreed(s, g);
      }
    }
    CanUnlockFrom(s, t);
  }

  lemma HolderFreed(s: State, g: nat) returns (t: State)
    requires Inv(s) && g < |s.harts| && Inside(s.harts[g].phases.processes)
    requires !KeepsLock(s.harts[g], s.slots) && !s.harts[g].loc.SwitchingOn?
    ensures Reaches(s, t) && !t.locks.processes.locked
  {
    hide Inv, KeepsLock, Spares;
    t := Freed(s, g);
    if EntersFrom(t, g) {
      var u := Ended(t, g);
      ReachesOn(s, t, u);
      t := u;
    }
  }

  /** A hart that enters a process holds processes_lock only to release it. */
  lemma EnteringHoldsNoLock(s: State, g: nat)
    requires Inv(s) && g < |s.harts| && Inside(s.harts[g].phases.processes) && s.harts[g].loc.SwitchingOn?
    ensures s.harts[g].phases.processes in {ClearOwner, Unlock}
  {
    assert Local(s.harts[g]);
  }
}
