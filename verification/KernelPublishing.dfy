/** How the process of a trap comes to wait: handle_trap with trap_print_lock, as far as the switch. */
module KernelPublishing {
  import opened Prelude
  import opened KernelState
  import opened KernelSteps
  import opened KernelInvariant
  import opened KernelProgress
  import opened KernelFate
  import opened KernelHope
  import opened KernelLostLock
  import opened KernelReach
  import opened KernelWork
  import opened KernelSearch

  /** Hart `g` has gone on while processes_lock stayed free. */
  ghost predicate GoesOnFree(s: State, t: State, g: nat)
    ensures GoesOnFree(s, t, g) ==> Inv(t) && |t.harts| == |s.harts| && !t.locks.processes.locked
  {
    Reaches(s, t) && Inv(t) && Spares(s, t, g) && !t.locks.processes.locked
  }

  lemma GoesOnLater(s: State, t: State, u: State, g: nat)
    requires GoesOnFree(s, t, g) && GoesOnFree(t, u, g)
    ensures GoesOnFree(s, u, g)
  {
    SparesOn(s, t, u, g);
  }

  /** A main step of hart `g` that leaves processes_lock alone. */
  lemma MovedFree(s: State, g: nat, a: Action) returns (t: State)
    requires Inv(s) && g < |s.harts| && Enabled(s.harts[g], s.slots, a) && !s.locks.processes.locked
    requires var e := Exec(s.harts[g], g, s.locks, s.slots, s.exits, a);
      Gentle(s.slots, e.write) && !Inside(e.hart.phases.processes)
    ensures GoesOnFree(s, t, g)
    ensures var e := Exec(s.harts[g], g, s.locks, s.slots, s.exits, a);
      t.harts[g] == e.hart && t.slots == Written(s.slots, e.write)
  {
    hide Inv, Exec, Enabled, Gentle, SparesSlots;
    t := MovedOn(s, g, a);
    StaysFree(s, t, g);
  }

  /** Hart `g` comes to the end of its calls on processes_lock and io_spinlock. */
  lemma CalmedFree(s: State, g: nat) returns (t: State)
    requires Inv(s) && g < |s.harts| && Settled(s.harts[g].phases.trapPrint) && !s.locks.processes.locked
    requires Calm(s.harts[g].phases.processes) == Out
    ensures GoesOnFree(s, t, g) && t.slots == s.slots
    ensures SameButCalls(s.harts[g], t.harts[g])
    ensures t.harts[g].phases == Phases(s.harts[g].phases.trapPrint, Out, Out) && AtMain(t.harts[g])
  {
    hide Inv, Spares;
    t := Calmed(s, g);
    CallsSpare(s, t, g);
    StaysFree(s, t, g);
  }

  // ---------------------------------------------------------------- trap_print_lock

  /** One step of a call on trap_print_lock. */
  lemma TrapCallMoved(s: State, f: nat) returns (t: State)
    requires Inv(s) && f < |s.harts| && !Settled(s.harts[f].phases.trapPrint) && !s.locks.processes.locked
    requires s.harts[f].phases.trapPrint in {Test, Swap} ==> !s.locks.trapPrint.locked
    ensures GoesOnFree(s, t, f) && t.slots == s.slots && SameButCalls(s.harts[f], t.harts[f])
    ensures t.harts[f].phases == s.harts[f].phases.(trapPrint := NextPhase(s.harts[f].phases.trapPrint, false))
    ensures t.harts[f].phases.trapPrint == Swap ==> !t.locks.trapPrint.locked
  {
    assert Local(s.harts[f]);
    hide Inv, SparesSlots, Local;
    t := CallMovedOn(s, f, TrapPrint);
    assert t.locks.Get(Processes) == s.locks.Get(Processes);
  }

  /** A call on trap_print_lock comes to its end, unless the hart must wait. */
  lemma {:induction false} TrapCalmed(s: State, f: nat) returns (t: State)
    requires Inv(s) && f < |s.harts| && !s.locks.processes.locked
    requires s.harts[f].phases.trapPrint in {Test, Swap} ==> !s.locks.trapPrint.locked
    ensures GoesOnFree(s, t, f) && t.slots == s.slots && SameButCalls(s.harts[f], t.harts[f])
    ensures t.harts[f].phases == s.harts[f].phases.(trapPrint := Calm(s.harts[f].phases.trapPrint))
    decreases CallRank(s.harts[f].phases.trapPrint)
  {
    hide Inv, Spares, GoesOnFree, AtMain;
    if Settled(s.harts[f].phases.trapPrint) {
      t := s;
      StaysPut(s, f);
    } else {
      var u := TrapCallMoved(s, f);
      t := TrapCalmed(u, f);
      GoesOnLater(s, u, t, f);
    }
  }

  lemma StaysPut(s: State, g: nat)
    requires Inv(s) && !s.locks.processes.locked
    ensures GoesOnFree(s, s, g)
  {
    ReachesItself(s);
  }

  /** trap_print_lock is released. */
  lemma TrapLockEnded(s: State, k: nat) returns (t: State)
    requires Inv(s) && k < |s.harts| && !s.locks.processes.locked
    requires s.harts[k].phases.trapPrint in {ClearOwner, Unlock}
    ensures GoesOnFree(s, t, k) && !t.locks.trapPrint.locked && t.slots == s.slots
    ensures SameButCalls(s.harts[k], t.harts[k])
  {
    hide Inv, SparesSlots;
    t := TrapCalmed(s, k);
    NobodyInside(s, t, TrapPrint, k);
  }

  /** handle_trap ends in a panic: trap_print_lock is released. */
  lemma TrapPanicked(s: State, k: nat) returns (t: State)
    requires Inv(s) && k < |s.harts| && !s.locks.processes.locked && Inside(s.harts[k].phases.trapPrint)
    requires s.harts[k].loc == Trapping(TrapDispatch) && TrapLeadsTo(s.harts[k]).Panicked?
    ensures GoesOnFree(s, t, k) && !t.locks.trapPrint.locked && t.slots == s.slots
  {
    var u := AtDispatch(s, k);
    var x := u.harts[k];
    assert Local(x);
    DecisionStep(x, u.locks);
    hide Inv, TrapStep, FateOf;
    var v := MovedFree(u, k, Go);
    GoesOnLater(s, u, v, k);
    t := TrapLockEnded(v, k);
    GoesOnLater(s, v, t, k);
  }

  /** The trap of hart `y` is that of hart `x`. */
  predicate SameTrap(x: Hart, y: Hart) {
    y.cause == x.cause && y.wasKernel == x.wasKernel && y.current == x.current && y.frame == x.frame
  }

  /** A trap that has trap_print_lock comes to the decision in handle_trap. */
  lemma AtDispatch(s: State, g: nat) returns (t: State)
    requires Inv(s) && g < |s.harts| && !s.locks.processes.locked && s.harts[g].loc == Trapping(TrapDispatch)
    requires s.harts[g].phases.trapPrint in {Test, Swap} ==> !s.locks.trapPrint.locked
    ensures GoesOnFree(s, t, g) && t.slots == s.slots && SameTrap(s.harts[g], t.harts[g])
    ensures t.harts[g].loc == Trapping(TrapDispatch) && t.harts[g].phases == Phases(Held, Out, Out)
  {
    assert Local(s.harts[g]);
    hide Inv, SparesSlots;
    var u := TrapCalmed(s, g);
    t := CalmedFree(u, g);
    GoesOnLater(s, u, t, g);
  }

  /** A trap that waits for trap_print_lock gets it when it is free. */
  lemma GotIn(s: State, g: nat) returns (t: State)
    requires Inv(s) && g < |s.harts| && !s.locks.processes.locked && Undecided(s.harts[g])
    requires !s.locks.trapPrint.locked
    ensures GoesOnFree(s, t, g) && t.slots == s.slots && SameTrap(s.harts[g], t.harts[g])
    ensures t.harts[g].loc == Trapping(TrapDispatch) && t.harts[g].phases == Phases(Held, Out, Out)
  {
    if s.harts[g].loc == Trapping(TrapDispatch) {
      t := AtDispatch(s, g);
    } else {
      var u := TrapCalled(s, g);
      t := AtDispatch(u, g);
      GoesOnLater(s, u, t, g);
    }
  }

  lemma TrapCalled(s: State, g: nat) returns (t: State)
    requires Inv(s) && g < |s.harts| && !s.locks.processes.locked && s.harts[g].loc == Trapping(TrapLock)
    requires !s.locks.trapPrint.locked
    ensures GoesOnFree(s, t, g) && t.slots == s.slots && SameTrap(s.harts[g], t.harts[g])
    ensures t.harts[g].loc == Trapping(TrapDispatch) && !t.locks.trapPrint.locked
  {
    assert Local(s.harts[g]);
    var u := CalmedFree(s, g);
    var x := u.harts[g];
    assert TrapStep(x, TrapLock, u.locks)
      == Effect(Acquire(x, TrapPrint, Trapping(TrapDispatch)).(inTrap := true), u.locks, None);
    hide Inv, TrapStep, Local, SparesSlots;
    t := MovedFree(u, g, Go);
    GoesOnLater(s, u, t, g);
    StaysOpen(s, t, g);
  }

  /** trap_print_lock stays free when hart `g` has not taken it. */
  lemma StaysOpen(s: State, t: State, g: nat)
    requires Inv(s) && Inv(t) && g < |s.harts| && Spares(s, t, g) && !s.locks.trapPrint.locked
    requires !Inside(t.harts[g].phases.trapPrint)
    ensures !t.locks.trapPrint.locked
  {
    assert t.locks.Get(TrapPrint).locked <==> SomeoneInside(t, TrapPrint);
    assert s.locks.Get(TrapPrint).locked <==> SomeoneInside(s, TrapPrint);
    forall k | 0 <= k < |t.harts|
      ensures !Inside(t.harts[k].phases.Get(TrapPrint))
    {
      assert k != g ==> !Inside(s.harts[k].phases.Get(TrapPrint));
    }
  }

  // ---------------------------------------------------------------- from the trap to the waiting process

  /** A running process is interrupted by the timer. */
  lemma TimerTraps(s: State, g: nat) returns (t: State)
    requires Inv(s) && g < |s.harts| && !s.locks.processes.locked && s.harts[g].loc == Proc
    ensures GoesOnFree(s, t, g) && t.harts[g].loc == Trapping(TrapLock) && Publishes(t.harts[g])
    ensures !s.locks.trapPrint.locked ==> !t.locks.trapPrint.locked
  {
    CreatorIsSettled(s, g);
    assert Local(s.harts[g]);
    var u := CalmedFree(s, g);
    ProcessIsRunning(u, g);
    assert Local(u.harts[g]);
    hide Inv, SparesSlots, Local;
    t := MovedFree(u, g, Trap(Timer));
    GoesOnLater(s, u, t, g);
    TimerSwitches(t.harts[g]);
    if !s.locks.trapPrint.locked {
      StaysOpen(s, t, g);
    }
  }

  lemma TimerSwitches(x: Hart)
    requires x.loc == Trapping(TrapLock) && x.cause == Timer && x.current.Some?
    ensures Publishes(x)
  {
  }

  /** handle_trap has decided. */
  lemma Decided(s: State, g: nat) returns (t: State)
    requires Inv(s) && g < |s.harts| && !s.locks.processes.locked && Inside(s.harts[g].phases.trapPrint)
    requires s.harts[g].loc == Trapping(TrapDispatch) && !TrapLeadsTo(s.harts[g]).Panicked?
    ensures GoesOnFree(s, t, g) && t.harts[g].loc == TrapLeadsTo(s.harts[g])
    ensures t.harts[g].current.Some? && t.slots == s.slots
  {
    var u := AtDispatch(s, g);
    var x := u.harts[g];
    assert Local(x);
    DecisionStep(x, u.locks);
    hide Inv, TrapStep, FateOf, SparesSlots, Local;
    t := MovedFree(u, g, Go);
    GoesOnLater(s, u, t, g);
  }

  /** A putchar system call is served. */
  lemma PutcharServed(s: State, g: nat) returns (t: State)
    requires Inv(s) && g < |s.harts| && !s.locks.processes.locked
    requires s.harts[g].loc == Trapping(TrapPutchar) || s.harts[g].loc == Trapping(TrapPutcharDone)
    ensures GoesOnFree(s, t, g) && t.harts[g].loc == SwitchingOff(OffEntry) && t.harts[g].current.Some?
  {
    assert Local(s.harts[g]);
    var u := CalmedFree(s, g);
    if s.harts[g].loc == Trapping(TrapPutchar) {
      var v := PutcharCalled(u, g);
      GoesOnLater(s, u, v, g);
      u := CalmedFree(v, g);
      GoesOnLater(s, v, u, g);
    }
    t := PutcharDone(u, g);
    GoesOnLater(s, u, t, g);
  }

  lemma PutcharCalled(s: State, g: nat) returns (t: State)
    requires Inv(s) && g < |s.harts| && !s.locks.processes.locked && AtMain(s.harts[g])
    requires s.harts[g].loc == Trapping(TrapPutchar)
    ensures GoesOnFree(s, t, g) && t.harts[g].loc == Trapping(TrapPutcharDone)
    ensures Settled(t.harts[g].phases.trapPrint) && t.harts[g].phases.processes == Out
  {
    var x := s.harts[g];
    assert Local(x);
    assert TrapStep(x, TrapPutchar, s.locks) == Effect(Acquire(x, Io, Trapping(TrapPutcharDone)), s.locks, None);
    hide Inv, TrapStep, SparesSlots;
    t := MovedFree(s, g, Go);
  }

  lemma PutcharDone(s: State, g: nat) returns (t: State)
    requires Inv(s) && g < |s.harts| && !s.locks.processes.locked && AtMain(s.harts[g])
    requires s.harts[g].loc == Trapping(TrapPutcharDone)
    ensures GoesOnFree(s, t, g) && t.harts[g].loc == SwitchingOff(OffEntry) && t.harts[g].current.Some?
  {
    var x := s.harts[g];
    assert Local(x);
    TrapPutcharDoneKeeps(x, s.locks);
    assert TrapStep(x, TrapPutcharDone, s.locks).write == None;
    hide Inv, TrapStep, SparesSlots;
    t := MovedFree(s, g, Go);
  }

  function OffNext(o: OffAt): OffAt {
    match o
    case OffEntry => OffSave
    case OffSave => OffPc
    case OffPc => OffNextId
    case OffNextId => OffPublish
    case _ => OffClear
  }

  function OffRank(o: OffAt): nat {
    match o
    case OffEntry => 5
    case OffSave => 4
    case OffPc => 3
    case OffNextId => 2
    case OffPublish => 1
    case OffClear => 0
  }

  /** A step of giving up the process touches no slot but its own, and ends with the process waiting. */
  lemma OffIsGentle(x: Hart, at: OffAt, locks: Locks, slots: seq<Slot>)
    requires |slots| == PROCESSES_MAXIMUM && at != OffClear
    requires x.current.Some? && x.current.value < PROCESSES_MAXIMUM && slots[x.current.value].state == Running
    ensures var e := OffStep(x, at, locks, slots);
      && e.hart == x.(start := e.hart.start, loc := SwitchingOff(OffNext(at)))
      && Gentle(slots, e.write)
      && (at == OffPublish ==> e.write.Some? && Waiting(e.write.value.1))
  {
    hide AddWord, PidNext;
    match at
    case OffEntry => assert OffStep(x, OffEntry, locks, slots).write == None;
    case OffSave => OffKeeps(x, locks, slots);
    case OffPc => OffKeeps(x, locks, slots);
    case OffNextId => assert OffStep(x, OffNextId, locks, slots).write == None;
    case OffPublish => OffKeeps(x, locks, slots);
  }

  lemma OffMovedOn(s: State, g: nat) returns (t: State)
    requires Inv(s) && g < |s.harts| && !s.locks.processes.locked && AtMain(s.harts[g])
    requires s.harts[g].phases.processes == Out
    requires s.harts[g].loc.SwitchingOff? && Owns(s.harts[g]).Some?
    ensures GoesOnFree(s, t, g) && t.harts[g].loc == SwitchingOff(OffNext(s.harts[g].loc.off))
    ensures t.harts[g].current.Some? && t.harts[g].phases == s.harts[g].phases
    ensures s.harts[g].loc == SwitchingOff(OffPublish) ==> SomeWaits(t.slots)
  {
    var x := s.harts[g];
    assert Local(x) && HartSlotFits(x, s.slots, s.exits);
    OffIsGentle(x, x.loc.off, s.locks, s.slots);
    var e := OffStep(x, x.loc.off, s.locks, s.slots);
    hide Inv, OffStep, HartSlotFits, Local, SlotFits, Waiting, SparesSlots;
    t := MovedFree(s, g, Go);
    assert e.write.Some? ==> t.slots[e.write.value.0] == e.write.value.1;
  }

  lemma {:induction false} SwitchedOff(s: State, g: nat) returns (t: State)
    requires Inv(s) && g < |s.harts| && !s.locks.processes.locked && AtMain(s.harts[g])
    requires s.harts[g].phases.processes == Out
    requires s.harts[g].loc.SwitchingOff? && Owns(s.harts[g]).Some?
    ensures GoesOnFree(s, t, g) && SomeWaits(t.slots)
    decreases OffRank(s.harts[g].loc.off)
  {
    hide Inv, AtMain, GoesOnFree, SomeWaits;
    t := OffMovedOn(s, g);
    if s.harts[g].loc != SwitchingOff(OffPublish) {
      StillAtMain(s, t, g);
      var u := SwitchedOff(t, g);
      GoesOnLater(s, t, u, g);
      t := u;
    }
  }

  lemma StillAtMain(s: State, t: State, g: nat)
    requires GoesOnFree(s, t, g) && g < |s.harts| && AtMain(s.harts[g]) && t.harts[g].phases == s.harts[g].phases
    ensures Inv(t) && !t.locks.processes.locked && g < |t.harts| && AtMain(t.harts[g])
  {
  }

  /** A process that is being given up comes to wait. */
  lemma Published(s: State, g: nat) returns (t: State)
    requires Inv(s) && g < |s.harts| && !s.locks.processes.locked
    requires s.harts[g].loc.SwitchingOff? && Owns(s.harts[g]).Some?
    ensures GoesOnFree(s, t, g) && SomeWaits(t.slots)
  {
    OffIsSettled(s, g);
    hide Inv, SomeWaits, Spares, GoesOnFree;
    var u := CalmedFree(s, g);
    t := SwitchedOff(u, g);
    GoesOnLater(s, u, t, g);
  }

  lemma OffIsSettled(s: State, g: nat)
    requires Inv(s) && g < |s.harts| && !s.locks.processes.locked
    requires s.harts[g].loc.SwitchingOff? && Owns(s.harts[g]).Some?
    ensures Settled(s.harts[g].phases.trapPrint) && Calm(s.harts[g].phases.processes) == Out
  {
    assert Local(s.harts[g]);
  }

  /** A trap that has trap_print_lock and leads to the switch makes its process wait. */
  lemma PublisherInside(s: State, g: nat) returns (t: State)
    requires Inv(s) && g < |s.harts| && !s.locks.processes.locked
    requires Publishes(s.harts[g]) && Inside(s.harts[g].phases.trapPrint)
    ensures GoesOnFree(s, t, g) && SomeWaits(t.slots)
  {
    PublisherIsPast(s, g);
    hide Inv, SomeWaits, Spares, GoesOnFree;
    t := s;
    StaysPut(s, g);
    if s.harts[g].loc == Trapping(TrapDispatch) {
      t := Decided(s, g);
    }
    if t.harts[g].loc.Trapping? {
      var u := PutcharServed(t, g);
      GoesOnLater(s, t, u, g);
      t := u;
    }
    var v := Published(t, g);
    GoesOnLater(s, t, v, g);
    t := v;
  }

  lemma PublisherIsPast(s: State, g: nat)
    requires Inv(s) && g < |s.harts| && Publishes(s.harts[g]) && Inside(s.harts[g].phases.trapPrint)
    ensures s.harts[g].loc != Trapping(TrapLock)
    ensures s.harts[g].loc == Trapping(TrapDispatch) ==>
      TrapLeadsTo(s.harts[g]) == Trapping(TrapPutchar) || TrapLeadsTo(s.harts[g]) == SwitchingOff(OffEntry)
  {
    assert Local(s.harts[g]);
  }

  /** While both locks are free, a process that runs or is on its way through a trap can come to wait. */
  lemma MadeToWait(s: State, g: nat) returns (t: State)
    requires Inv(s) && g < |s.harts| && !s.locks.processes.locked && !s.locks.trapPrint.locked
    requires MayPublish(s.harts[g])
    ensures GoesOnFree(s, t, g) && SomeWaits(t.slots)
  {
    WaitsForTrapLock(s, g);
    hide Inv, SomeWaits, Spares, GoesOnFree, FateOf;
    var u := s;
    StaysPut(s, g);
    if s.harts[g].loc == Proc {
      u := TimerTraps(s, g);
    }
    var v := GotIn(u, g);
    GoesOnLater(s, u, v, g);
    t := PublisherInside(v, g);
    GoesOnLater(s, v, t, g);
  }

  /** While trap_print_lock is free, traps on their way wait for it. */
  lemma WaitsForTrapLock(s: State, g: nat)
    requires Inv(s) && g < |s.harts| && !s.locks.trapPrint.locked
    ensures Publishes(s.harts[g]) || Destroys(s.harts[g]) ==> Undecided(s.harts[g])
  {
    assert Local(s.harts[g]);
    assert s.locks.Get(TrapPrint).locked <==> SomeoneInside(s, TrapPrint);
    assert !Inside(s.harts[g].phases.Get(TrapPrint));
  }

  // ---------------------------------------------------------------- trap_print_lock is opened

  /** Who holds trap_print_lock, when no process is being entered and traps are not closed. */
  lemma TrapHolderIsKnown(s: State, k: nat)
    requires Inv(s) && k < |s.harts| && Inside(s.harts[k].phases.trapPrint) && !Closes(s.harts[k])
    requires !s.harts[k].loc.SwitchingOn?
    ensures var x := s.harts[k];
      || Publishes(x)
      || (x.loc == Trapping(TrapDispatch) && TrapLeadsTo(x).Panicked?)
      || (x.loc.Panicked? && x.phases.trapPrint in {ClearOwner, Unlock})
  {
    assert Local(s.harts[k]);
    hide FateOf;
  }

  /** Hart `k`, which has trap_print_lock and does not close it, makes its process wait or releases the lock. */
  lemma TrapLockLeft(s: State, k: nat) returns (t: State)
    requires Inv(s) && k < |s.harts| && !s.locks.processes.locked
    requires Inside(s.harts[k].phases.trapPrint) && !Closes(s.harts[k]) && !s.harts[k].loc.SwitchingOn?
    ensures GoesOnFree(s, t, k)
    ensures SomeWaits(t.slots) || (!t.locks.trapPrint.locked && !MayPublish(s.harts[k]))
  {
    TrapHolderIsKnown(s, k);
    hide Inv, SomeWaits, Spares, GoesOnFree, FateOf;
    if Publishes(s.harts[k]) {
      t := PublisherInside(s, k);
    } else if s.harts[k].loc.Panicked? {
      t := TrapLockEnded(s, k);
    } else {
      t := TrapPanicked(s, k);
    }
  }
}
