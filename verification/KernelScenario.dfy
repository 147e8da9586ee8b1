/** Runs from the start of the kernel, piece by piece: processes are created, entered, trapped and given up. */
module KernelScenario {
  import opened Prelude
  import opened KernelState
  import opened KernelSteps
  import opened KernelInvariant
  import opened KernelRuns
  import opened KernelFate
  import opened KernelProgress
  import opened KernelHope
  import opened KernelReach
  import opened KernelWork
  import opened KernelSearch
  import opened KernelPublishing

  // ---------------------------------------------------------------- processes are created

  /** The first `k` slots hold new processes; all others are unused. */
  predicate FilledUpTo(slots: seq<Slot>, k: nat) {
    && |slots| == PROCESSES_MAXIMUM
    && (forall p :: 0 <= p < |slots| ==> slots[p].state == if p < k then Ready else Unused)
  }

  /** Slot 0 has this state and mode; all other slots are unused. */
  predicate OnlySlot(slots: seq<Slot>, state: ProcessState, kernel: bool) {
    && |slots| == PROCESSES_MAXIMUM && slots[0].state == state && slots[0].kernel == kernel
    && (forall p :: 1 <= p < |slots| ==> slots[p].state == Unused)
  }

  /** Hart `f` has no lock call to finish, and no hart has processes_lock. */
  predicate IsFree(s: State, f: nat) {
    f < |s.harts| && s.harts[f].phases == Phases(Out, Out, Out) && !s.locks.processes.locked
  }

  /** The hart is in kernel_main. */
  predicate Boots(x: Hart) {
    x.loc == Boot && x.current == None && !x.inTrap
  }

  /** Every hart but `f` is still in kernel_main and has not called a lock. */
  predicate OthersBoot(s: State, f: nat) {
    forall k :: 0 <= k < |s.harts| && k != f ==>
      && Boots(s.harts[k]) && s.harts[k].phases.trapPrint == Out && s.harts[k].phases.processes == Out
  }

  /** The hart is in Process_create with processes_lock. */
  predicate Creates(x: Hart, at: CreateAt, args: Arguments) {
    && x.loc == Creating(at) && x.args == args && x.current == None && !x.inTrap
    && x.phases == Phases(Out, Held, Out)
  }

  lemma StartsBooting(s: State, f: nat)
    requires Init(s) && f < |s.harts|
    ensures Inv(s) && OthersBoot(s, f) && IsFree(s, f) && Boots(s.harts[f]) && FilledUpTo(s.slots, 0)
  {
    InitEstablishesInv(s);
    assert Starting(s.harts[f]);
    assert !s.locks.Get(Processes).locked;
    forall k | 0 <= k < |s.harts|
      ensures Starting(s.harts[k])
    {
    }
  }

  /** Process_create up to its scan. */
  lemma AtScan(s: State, f: nat, args: Arguments) returns (t: State)
    requires Inv(s) && IsFree(s, f) && Boots(s.harts[f])
    ensures Reaches(s, t) && Inv(t) && OthersSame(s, t, f) && t.slots == s.slots
    ensures Creates(t.harts[f], CreateScan(0), args)
  {
    hide Inv, MayCreate, MayFree, SparesSlots;
    var u := CreateBegun(s, f, args);
    t := Calmed(u, f);
    ReachesOn(s, u, t);
  }

  /** A step of the scan for an unused slot. */
  lemma ScanMoved(s: State, f: nat, k: nat, args: Arguments) returns (t: State)
    requires Inv(s) && f < |s.harts| && Creates(s.harts[f], CreateScan(k), args) && |s.slots| == PROCESSES_MAXIMUM
    ensures Reaches(s, t) && Inv(t) && OthersSame(s, t, f) && t.slots == s.slots
    ensures t.harts[f] == s.harts[f].(loc :=
              if k >= PROCESSES_MAXIMUM then Panicked(NoSlotLeft)
              else if s.slots[k].state == Unused then Creating(CreateInit(k)) else Creating(CreateScan(k + 1)))
  {
    CreateScanMoves(s.harts[f], k, s.locks, s.slots);
    hide Inv, CreateStep;
    t := Moved(s, f, Go);
  }

  /** The scan passes the slots in use. */
  lemma {:induction false} ScannedTo(s: State, f: nat, j: nat, k: nat, args: Arguments) returns (t: State)
    requires Inv(s) && f < |s.harts| && Creates(s.harts[f], CreateScan(j), args)
    requires FilledUpTo(s.slots, k) && j <= k <= PROCESSES_MAXIMUM
    ensures Reaches(s, t) && Inv(t) && OthersSame(s, t, f) && t.slots == s.slots
    ensures Creates(t.harts[f], CreateScan(k), args)
    decreases k - j
  {
    hide Inv;
    t := s;
    if j == k {
      ReachesItself(s);
    } else {
      var u := ScanMoved(s, f, j, args);
      t := ScannedTo(u, f, j + 1, k, args);
      ReachesOn(s, u, t);
    }
  }

  /** Every slot but `k` is as it was. */
  predicate OthersKept(slots: seq<Slot>, after: seq<Slot>, k: nat) {
    && |after| == |slots| == PROCESSES_MAXIMUM && k < PROCESSES_MAXIMUM
    && (forall p :: 0 <= p < |slots| && p != k ==> after[p] == slots[p])
  }

  lemma InitMoved(s: State, f: nat, k: nat, args: Arguments) returns (t: State)
    requires Inv(s) && f < |s.harts| && Creates(s.harts[f], CreateInit(k), args)
    requires |s.slots| == PROCESSES_MAXIMUM && k < PROCESSES_MAXIMUM
    ensures Reaches(s, t) && Inv(t) && OthersSame(s, t, f) && Creates(t.harts[f], CreatePublish(k), args)
    ensures OthersKept(s.slots, t.slots, k) && t.slots[k].kernel == args.kernel
  {
    LateCreateSteps(s.harts[f], k, s.locks, s.slots);
    hide Inv, CreateStep;
    t := Moved(s, f, Go);
  }

  lemma PublishMoved(s: State, f: nat, k: nat, args: Arguments) returns (t: State)
    requires Inv(s) && f < |s.harts| && Creates(s.harts[f], CreatePublish(k), args)
    requires |s.slots| == PROCESSES_MAXIMUM && k < PROCESSES_MAXIMUM
    ensures Reaches(s, t) && Inv(t) && OthersSame(s, t, f) && t.harts[f] == Release(s.harts[f], Processes, Boot)
    ensures OthersKept(s.slots, t.slots, k) && t.slots[k] == s.slots[k].(state := Ready)
  {
    LateCreateSteps(s.harts[f], k, s.locks, s.slots);
    hide Inv, CreateStep;
    t := Moved(s, f, Go);
  }

  /** Hart `f` creates a process in the first unused slot. */
  lemma NextCreated(s: State, f: nat, k: nat, args: Arguments) returns (t: State)
    requires Inv(s) && IsFree(s, f) && Boots(s.harts[f]) && FilledUpTo(s.slots, k) && k < PROCESSES_MAXIMUM
    ensures Reaches(s, t) && Inv(t) && OthersSame(s, t, f) && IsFree(t, f) && Boots(t.harts[f])
    ensures FilledUpTo(t.slots, k + 1) && t.slots[k].kernel == args.kernel
  {
    hide Inv, FilledUpTo;
    var u := AtScan(s, f, args);
    var v := ScannedTo(u, f, 0, k, args);
    ReachesOn(s, u, v);
    t := FilledAt(v, f, k, args);
    ReachesOn(s, v, t);
  }

  /** The rest of Process_create. */
  lemma FilledAt(s: State, f: nat, k: nat, args: Arguments) returns (t: State)
    requires Inv(s) && f < |s.harts| && Creates(s.harts[f], CreateScan(k), args)
    requires FilledUpTo(s.slots, k) && k < PROCESSES_MAXIMUM
    ensures Reaches(s, t) && Inv(t) && OthersSame(s, t, f) && IsFree(t, f) && Boots(t.harts[f])
    ensures FilledUpTo(t.slots, k + 1) && t.slots[k].kernel == args.kernel
  {
    hide Inv;
    var u := ScanMoved(s, f, k, args);
    var v := InitMoved(u, f, k, args);
    ReachesOn(s, u, v);
    var w := PublishMoved(v, f, k, args);
    ReachesOn(s, v, w);
    t := ReleasedAtBoot(w, f);
    ReachesOn(s, w, t);
  }

  lemma ReleasedAtBoot(s: State, f: nat) returns (t: State)
    requires Inv(s) && f < |s.harts| && Boots(s.harts[f]) && s.harts[f].phases == Phases(Out, ClearOwner, Out)
    ensures Reaches(s, t) && Inv(t) && OthersSame(s, t, f) && t.slots == s.slots && IsFree(t, f) && Boots(t.harts[f])
  {
    hide Inv, Spares;
    t := Ended(s, f);
  }

  /** From the start, hart `f` creates a process in slot 0. */
  lemma FirstCreated(s: State, f: nat, args: Arguments) returns (t: State)
    requires Init(s) && f < |s.harts|
    ensures Reaches(s, t) && Inv(t) && |t.harts| == |s.harts| && OthersBoot(t, f) && IsFree(t, f)
    ensures OnlySlot(t.slots, Ready, args.kernel) && Boots(t.harts[f])
  {
    StartsBooting(s, f);
    hide Inv, Init;
    t := NextCreated(s, f, 0, args);
  }

  /** Hart `f` creates processes until every slot is in use. */
  lemma {:induction false} AllCreated(s: State, f: nat, k: nat, args: Arguments) returns (t: State)
    requires Inv(s) && IsFree(s, f) && Boots(s.harts[f]) && FilledUpTo(s.slots, k) && k <= PROCESSES_MAXIMUM
    ensures Reaches(s, t) && Inv(t) && OthersSame(s, t, f) && IsFree(t, f) && Boots(t.harts[f])
    ensures FilledUpTo(t.slots, PROCESSES_MAXIMUM)
    decreases PROCESSES_MAXIMUM - k
  {
    hide Inv, FilledUpTo;
    t := s;
    if k == PROCESSES_MAXIMUM {
      ReachesItself(s);
    } else {
      var u := NextCreated(s, f, k, args);
      t := AllCreated(u, f, k + 1, args);
      ReachesOn(s, u, t);
    }
  }

  // ---------------------------------------------------------------- the process is entered

  /** kernel_main goes to look for a process. */
  lemma Jumped(s: State, f: nat) returns (t: State)
    requires Inv(s) && IsFree(s, f) && s.harts[f].loc == Boot
    ensures Reaches(s, t) && Inv(t) && OthersSame(s, t, f) && t.slots == s.slots && IsFree(t, f)
    ensures t.harts[f] == s.harts[f].(loc := SwitchingOff(OffEntry))
  {
    t := Moved(s, f, Jump);
    StaysFree(s, t, f);
  }

  /** The only process, waiting in slot 0, is picked. */
  lemma OnlyPicked(s: State, f: nat, state: ProcessState, kernel: bool) returns (t: State)
    requires Inv(s) && IsFree(s, f) && Boots(s.harts[f])
    requires OnlySlot(s.slots, state, kernel) && (state == Ready || state == Runnable)
    ensures Reaches(s, t) && Inv(t) && OthersSame(s, t, f) && OnlySlot(t.slots, Running, kernel)
    ensures t.harts[f].loc == SwitchingOn(OnPick) && t.harts[f].current == Some(0) && !t.harts[f].inTrap
    ensures t.harts[f].phases.trapPrint == Out && t.harts[f].phases.processes == ClearOwner
  {
    hide Inv;
    var u := Jumped(s, f);
    t := Searched(u, f, 0);
    ReachesOn(s, u, t);
    PointsToSlot(t, f);
    OnlyOneToPick(u, t, f, state, kernel);
  }

  lemma PointsToSlot(s: State, f: nat)
    requires Inv(s) && f < |s.harts|
    ensures s.harts[f].current.Some? ==> s.harts[f].current.value < PROCESSES_MAXIMUM
  {
    assert Local(s.harts[f]);
  }

  lemma OnlyOneToPick(s: State, t: State, f: nat, state: ProcessState, kernel: bool)
    requires f < |s.harts| && Picked(s, t, f) && OnlySlot(s.slots, state, kernel)
    requires t.harts[f].current.Some? ==> t.harts[f].current.value < PROCESSES_MAXIMUM
    ensures OthersSame(s, t, f) && OnlySlot(t.slots, Running, kernel)
    ensures var x, y := s.harts[f], t.harts[f];
      && y.loc == SwitchingOn(OnPick) && y.current == Some(0) && y.inTrap == x.inTrap
      && y.phases.trapPrint == x.phases.trapPrint && y.phases.processes == ClearOwner
  {
  }

  function OnRank(o: OnAt): nat {
    match o
    case OnPick => 6
    case OnSetRa => 5
    case OnReturn => 4
    case OnLoad => 3
    case OnDone => 2
    case OnRestore => 1
  }

  /** A step on the way into a process, up to the registers of the process. */
  lemma OnMoved(s: State, f: nat) returns (t: State)
    requires Inv(s) && f < |s.harts| && AtMain(s.harts[f]) && s.harts[f].phases.processes == Out
    requires !s.locks.processes.locked
    requires s.harts[f].loc.SwitchingOn? && OnRank(s.harts[f].loc.on) > 2 && s.harts[f].current == Some(0)
    requires OnlySlot(s.slots, Running, s.slots[0].kernel)
    ensures Reaches(s, t) && Inv(t) && OthersSame(s, t, f) && !t.locks.processes.locked
    ensures SameProcess(s.slots, t.slots)
    ensures var x, y := s.harts[f], t.harts[f];
      && y.current == x.current && y.inTrap == x.inTrap && y.phases == x.phases
      && y.loc.SwitchingOn? && OnRank(y.loc.on) < OnRank(x.loc.on) && OnRank(y.loc.on) >= 2
  {
    OnKeeps(s.harts[f], s.harts[f].loc.on, s.locks, s.slots, s.exits);
    hide Inv, OnStep, OnRank, SameProcess;
    t := Moved(s, f, Go);
    StaysFree(s, t, f);
  }

  /** Only what kernel_switch stores in the frame of the process in slot 0 differs. */
  predicate SameProcess(slots: seq<Slot>, after: seq<Slot>) {
    && |after| == |slots| == PROCESSES_MAXIMUM
    && after[0].state == slots[0].state && after[0].kernel == slots[0].kernel && after[0].origin == slots[0].origin
    && (forall p :: 1 <= p < |slots| ==> after[p] == slots[p])
  }

  lemma OnKeeps(x: Hart, at: OnAt, locks: Locks, slots: seq<Slot>, exits: Exits)
    requires x.loc == SwitchingOn(at) && OnRank(at) > 2 && x.current == Some(0) && |slots| == PROCESSES_MAXIMUM
    ensures var e := OnStep(x, at, locks, slots, exits);
      && (e.write.Some? ==> e.write.value.0 < |slots|) && SameProcess(slots, Written(slots, e.write))
      && e.hart.current == x.current && e.hart.inTrap == x.inTrap && e.hart.phases == x.phases
      && e.hart.loc.SwitchingOn? && OnRank(e.hart.loc.on) < OnRank(at) && OnRank(e.hart.loc.on) >= 2
  {
    match at
    case OnPick => PickStep(x, locks, slots, exits);
    case OnSetRa =>
      assert OnStep(x, OnSetRa, locks, slots, exits).hart == x.(loc := SwitchingOn(OnReturn));
    case OnReturn =>
      assert OnStep(x, OnReturn, locks, slots, exits).hart ==
        x.(sepc := x.newPc, spie := true, sppKernel := slots[0].kernel, loc := SwitchingOn(OnLoad));
    case OnLoad =>
      assert OnStep(x, OnLoad, locks, slots, exits) ==
        Effect(x.(frame := slots[0].frame, loc := SwitchingOn(OnDone)), locks, None);
  }

  lemma PickStep(x: Hart, locks: Locks, slots: seq<Slot>, exits: Exits)
    requires x.current == Some(0) && |slots| == PROCESSES_MAXIMUM
    ensures OnStep(x, OnPick, locks, slots, exits) ==
      if x.first then
        Effect(x.(newPc := slots[0].frame.ra, loc := SwitchingOn(OnSetRa)), locks,
               Some((0, slots[0].(starts := slots[0].starts + 1))))
      else
        Effect(x.(newPc := slots[0].frame.pc, loc := SwitchingOn(OnReturn)), locks, None)
  {
  }

  /** kernel_switch comes to its end, inside a trap or not. */
  lemma {:induction false} Loaded(s: State, f: nat) returns (t: State)
    requires Inv(s) && f < |s.harts| && AtMain(s.harts[f]) && s.harts[f].phases.processes == Out
    requires !s.locks.processes.locked
    requires s.harts[f].loc.SwitchingOn? && OnRank(s.harts[f].loc.on) >= 2 && s.harts[f].current == Some(0)
    requires OnlySlot(s.slots, Running, s.slots[0].kernel)
    ensures Reaches(s, t) && Inv(t) && OthersSame(s, t, f) && !t.locks.processes.locked
    ensures SameProcess(s.slots, t.slots)
    ensures var x, y := s.harts[f], t.harts[f];
      y.loc == SwitchingOn(OnDone) && y.current == x.current && y.inTrap == x.inTrap && y.phases == x.phases
    decreases OnRank(s.harts[f].loc.on)
  {
    hide Inv;
    t := s;
    if s.harts[f].loc == SwitchingOn(OnDone) {
      ReachesItself(s);
    } else {
      var u := OnMoved(s, f);
      t := Loaded(u, f);
      ReachesOn(s, u, t);
    }
  }

  /** The last steps into a process, outside a trap. */
  lemma Restored(s: State, f: nat) returns (t: State)
    requires Inv(s) && IsFree(s, f) && s.harts[f].loc == SwitchingOn(OnDone) && !s.harts[f].inTrap
    requires s.harts[f].current == Some(0) && |s.slots| == PROCESSES_MAXIMUM
    ensures Reaches(s, t) && Inv(t) && OthersSame(s, t, f) && t.slots == s.slots && IsFree(t, f)
    ensures t.harts[f].loc == Proc && t.harts[f].current == Some(0) && !t.harts[f].inTrap
  {
    LastOnSteps(s.harts[f], s.locks, s.slots, s.exits);
    hide Inv, OnStep;
    var u := Moved(s, f, Go);
    StaysFree(s, u, f);
    LastOnSteps(u.harts[f], u.locks, u.slots, u.exits);
    t := Moved(u, f, Go);
    StaysFree(u, t, f);
    ReachesOn(s, u, t);
  }

  lemma LastOnSteps(x: Hart, locks: Locks, slots: seq<Slot>, exits: Exits)
    requires |slots| == PROCESSES_MAXIMUM && x.current == Some(0)
    ensures !x.inTrap ==> OnStep(x, OnDone, locks, slots, exits) == Move(x, locks, SwitchingOn(OnRestore))
    ensures x.inTrap ==>
      OnStep(x, OnDone, locks, slots, exits) ==
      Effect(Release(x, TrapPrint, SwitchingOn(OnRestore)).(inTrap := false), locks, None)
    ensures OnStep(x, OnRestore, locks, slots, exits) ==
      Effect(x.(regs := x.frame.(pc := x.sepc), sie := x.spie, spie := true, loc := Proc), locks, None)
  {
  }

  /** The process in slot 0 is entered outside a trap. */
  lemma Entered(s: State, f: nat, kernel: bool) returns (t: State)
    requires Inv(s) && IsFree(s, f) && s.harts[f].loc == SwitchingOn(OnPick) && !s.harts[f].inTrap
    requires s.harts[f].current == Some(0) && OnlySlot(s.slots, Running, kernel)
    ensures Reaches(s, t) && Inv(t) && OthersSame(s, t, f) && OnlySlot(t.slots, Running, kernel) && IsFree(t, f)
    ensures t.harts[f].loc == Proc && t.harts[f].current == Some(0) && !t.harts[f].inTrap
  {
    hide Inv;
    var u := Loaded(s, f);
    t := Restored(u, f);
    ReachesOn(s, u, t);
  }

  /** From the start, hart `f` creates a process and enters it; the others are still in kernel_main. */
  lemma FirstEntered(s: State, f: nat, args: Arguments) returns (t: State)
    requires Init(s) && f < |s.harts|
    ensures Reaches(s, t) && Inv(t) && |t.harts| == |s.harts| && OthersBoot(t, f) && IsFree(t, f)
    ensures OnlySlot(t.slots, Running, args.kernel)
    ensures t.harts[f].loc == Proc && t.harts[f].current == Some(0) && !t.harts[f].inTrap
  {
    hide Inv, Init, OnlySlot;
    var u := FirstCreated(s, f, args);
    var v := OnlyPicked(u, f, Ready, args.kernel);
    ReachesOn(s, u, v);
    var w := Ended(v, f);
    ReachesOn(s, v, w);
    t := Entered(w, f, args.kernel);
    ReachesOn(s, w, t);
  }

  // ---------------------------------------------------------------- the process traps

  /** The last trap of the process in slot 0 had this cause. */
  predicate TrappedBy(slots: seq<Slot>, cause: Cause) {
    |slots| == PROCESSES_MAXIMUM && slots[0].origin.Trapped? && slots[0].origin.cause == cause
  }

  /** The user process makes a system call or is interrupted, and its trap gets trap_print_lock. */
  lemma UserTraps(s: State, f: nat, a0: Word, cause: Cause) returns (t: State)
    requires Inv(s) && IsFree(s, f) && OthersBoot(s, f) && OnlySlot(s.slots, Running, false)
    requires s.harts[f].loc == Proc && s.harts[f].current == Some(0)
    ensures Reaches(s, t) && Inv(t) && |t.harts| == |s.harts| && OthersBoot(t, f) && OnlySlot(t.slots, Running, false)
    ensures var y := t.harts[f];
      && y.loc == Trapping(TrapDispatch) && y.inTrap && y.current == Some(0) && y.phases == Phases(Held, Out, Out)
      && y.cause == cause && !y.wasKernel && y.frame.a0 == a0
    ensures !t.locks.processes.locked && TrappedBy(t.slots, cause)
  {
    hide Inv, OnlySlot, TrappedBy;
    var u := Computed(s, f, a0);
    var v := Trapped(u, f, cause);
    ReachesOn(s, u, v);
    var w := TrapCalls(v, f);
    ReachesOn(s, v, w);
    t := TrapLocked(w, f);
    ReachesOn(s, w, t);
  }

  lemma Computed(s: State, f: nat, a0: Word) returns (t: State)
    requires Inv(s) && IsFree(s, f) && s.harts[f].loc == Proc
    ensures Reaches(s, t) && Inv(t) && OthersSame(s, t, f) && t.slots == s.slots && IsFree(t, f)
    ensures t.harts[f] == s.harts[f].(regs := t.harts[f].regs) && t.harts[f].regs.a0 == a0
  {
    t := Moved(s, f, Compute(s.harts[f].regs.(a0 := a0)));
    StaysFree(s, t, f);
  }

  lemma Trapped(s: State, f: nat, cause: Cause) returns (t: State)
    requires Inv(s) && IsFree(s, f) && OnlySlot(s.slots, Running, false)
    requires s.harts[f].loc == Proc && s.harts[f].current == Some(0)
    ensures Reaches(s, t) && Inv(t) && OthersSame(s, t, f) && OnlySlot(t.slots, Running, false) && IsFree(t, f)
    ensures var x, y := s.harts[f], t.harts[f];
      && y.loc == Trapping(TrapLock) && y.current == x.current && y.inTrap == x.inTrap
      && y.cause == cause && !y.wasKernel && y.frame.a0 == x.regs.a0
    ensures TrappedBy(t.slots, cause)
  {
    t := Moved(s, f, Trap(cause));
    StaysFree(s, t, f);
  }

  lemma TrapCalls(s: State, f: nat) returns (t: State)
    requires Inv(s) && IsFree(s, f) && s.harts[f].loc == Trapping(TrapLock)
    ensures Reaches(s, t) && Inv(t) && OthersSame(s, t, f) && t.slots == s.slots
    ensures t.harts[f] == Acquire(s.harts[f], TrapPrint, Trapping(TrapDispatch)).(inTrap := true)
    ensures !t.locks.processes.locked
  {
    assert TrapStep(s.harts[f], TrapLock, s.locks)
      == Effect(Acquire(s.harts[f], TrapPrint, Trapping(TrapDispatch)).(inTrap := true), s.locks, None);
    t := Moved(s, f, Go);
    StaysFree(s, t, f);
  }

  /** trap_print_lock is free when every other hart is in kernel_main. */
  lemma TrapLockIsFree(s: State, f: nat)
    requires Inv(s) && f < |s.harts| && OthersBoot(s, f) && !Inside(s.harts[f].phases.trapPrint)
    ensures !s.locks.trapPrint.locked
  {
    assert s.locks.Get(TrapPrint).locked <==> SomeoneInside(s, TrapPrint);
  }

  lemma TrapLocked(s: State, f: nat) returns (t: State)
    requires Inv(s) && f < |s.harts| && OthersBoot(s, f) && !s.locks.processes.locked
    requires s.harts[f].phases == Phases(Test, Out, Out)
    ensures Reaches(s, t) && Inv(t) && OthersSame(s, t, f) && t.slots == s.slots && !t.locks.processes.locked
    ensures SameButCalls(s.harts[f], t.harts[f]) && t.harts[f].phases == Phases(Held, Out, Out)
  {
    TrapLockIsFree(s, f);
    hide Inv, SparesSlots, MayCreate, MayFree;
    t := TrapCalmed(s, f);
  }

  lemma DecisionIsNext(x: Hart, id: nat, locks: Locks, slots: seq<Slot>, exits: Exits)
    requires |slots| == PROCESSES_MAXIMUM && InRange(x) && AtMain(x) && x.loc == Trapping(TrapDispatch)
    ensures Enabled(x, slots, Go)
    ensures Exec(x, id, locks, slots, exits, Go) == TrapStep(x, TrapDispatch, locks)
  {
    hide TrapStep, InRange;
  }

  /** handle_trap goes where the cause of the trap leads. */
  lemma Dispatched(s: State, f: nat) returns (t: State)
    requires Inv(s) && f < |s.harts| && s.harts[f].loc == Trapping(TrapDispatch) &&
      s.harts[f].phases == Phases(Held, Out, Out)
    requires s.harts[f].current.Some? && !s.harts[f].wasKernel && !s.locks.processes.locked
    requires s.harts[f].cause == Timer || s.harts[f].cause == EcallFromUser
    ensures Reaches(s, t) && Inv(t) && OthersSame(s, t, f) && t.slots == s.slots && !t.locks.processes.locked
    ensures t.harts[f] == s.harts[f].(loc := TrapLeadsTo(s.harts[f]))
  {
    StaysInRange(s, f);
    hide Inv, InRange, FateOf;
    DecisionMoves(s.harts[f], f, s.locks, s.slots, s.exits);
    hide Exec, Enabled, TrapLeadsTo, AtMain;
    t := Moved(s, f, Go);
    StaysFree(s, t, f);
  }

  lemma StaysInRange(s: State, f: nat)
    requires Inv(s) && f < |s.harts|
    ensures |s.slots| == PROCESSES_MAXIMUM && InRange(s.harts[f])
  {
    assert Local(s.harts[f]);
  }

  lemma DecisionMoves(x: Hart, id: nat, locks: Locks, slots: seq<Slot>, exits: Exits)
    requires |slots| == PROCESSES_MAXIMUM && InRange(x) && AtMain(x) && x.loc == Trapping(TrapDispatch)
    requires x.current.Some? && !x.wasKernel
    ensures Enabled(x, slots, Go)
    ensures Exec(x, id, locks, slots, exits, Go) == Effect(x.(loc := TrapLeadsTo(x)), locks, None)
  {
    DecisionIsNext(x, id, locks, slots, exits);
    DecisionStep(x, locks);
    hide Exec, Enabled, TrapStep, InRange;
  }

  // ---------------------------------------------------------------- the process is given up

  /** The interrupted process is given up, as far as its state. */
  lemma GivenUp(s: State, f: nat) returns (t: State)
    requires Inv(s) && f < |s.harts| && s.harts[f].phases == Phases(Held, Out, Out) && !s.locks.processes.locked
    requires s.harts[f].loc == SwitchingOff(OffEntry) && s.harts[f].current == Some(0)
    requires OnlySlot(s.slots, Running, false)
    ensures Reaches(s, t) && Inv(t) && OthersSame(s, t, f) && !t.locks.processes.locked
    ensures t.harts[f].loc == SwitchingOff(OffClear) && t.harts[f].current == Some(0)
    ensures t.harts[f].phases == Phases(Held, Out, Out)
    ensures OnlySlot(t.slots, Runnable, false) && t.slots[0].origin == s.slots[0].origin
  {
    hide Inv;
    var u := OffMoved(s, f, Running);
    var v := OffMoved(u, f, Running);
    ReachesOn(s, u, v);
    var w := OffMoved(v, f, Running);
    ReachesOn(s, v, w);
    var x := OffMoved(w, f, Running);
    ReachesOn(s, w, x);
    t := OffMoved(x, f, Runnable);
    ReachesOn(s, x, t);
  }

  lemma OffMoved(s: State, f: nat, state: ProcessState) returns (t: State)
    requires Inv(s) && f < |s.harts| && s.harts[f].phases == Phases(Held, Out, Out) && !s.locks.processes.locked
    requires s.harts[f].loc.SwitchingOff? && s.harts[f].loc.off != OffClear && s.harts[f].current == Some(0)
    requires OnlySlot(s.slots, Running, false) &&
      state == if s.harts[f].loc.off == OffPublish then Runnable else Running
    ensures Reaches(s, t) && Inv(t) && OthersSame(s, t, f) && !t.locks.processes.locked
    ensures t.harts[f].loc == SwitchingOff(OffNext(s.harts[f].loc.off)) && t.harts[f].current == Some(0)
    ensures t.harts[f].phases == s.harts[f].phases && OnlySlot(t.slots, state, false)
    ensures t.slots[0].origin == s.slots[0].origin
  {
    OffGoesOn(s.harts[f], s.harts[f].loc.off, s.locks, s.slots, state);
    hide Inv, OffStep, OnlySlot, OffNext;
    t := Moved(s, f, Go);
    StaysFree(s, t, f);
  }

  lemma OffGoesOn(x: Hart, at: OffAt, locks: Locks, slots: seq<Slot>, state: ProcessState)
    requires at != OffClear && x.current == Some(0) && OnlySlot(slots, Running, false)
    requires state == if at == OffPublish then Runnable else Running
    ensures var e := OffStep(x, at, locks, slots);
      && (e.write.Some? ==> e.write.value.0 < |slots|) && OnlySlot(Written(slots, e.write), state, false)
      && Written(slots, e.write)[0].origin == slots[0].origin
      && e.hart == x.(start := e.hart.start, loc := SwitchingOff(OffNext(at)))
  {
    hide AddWord, PidNext;
    match at
    case OffEntry => assert OffStep(x, OffEntry, locks, slots).write == None;
    case OffSave => OffKeeps(x, locks, slots);
    case OffPc => OffKeeps(x, locks, slots);
    case OffNextId => assert OffStep(x, OffNextId, locks, slots).write == None;
    case OffPublish => OffKeeps(x, locks, slots);
  }
}
