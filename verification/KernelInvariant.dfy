/** The invariant of the kernel state machine. */
module KernelInvariant {
  import opened Prelude
  import opened KernelState
  import opened KernelSteps

  // ---------------------------------------------------------------- one hart by itself

  /** True while the hart runs code of a process, or Process_create on its behalf. */
  predicate InProcess(x: Hart) {
    x.loc == Proc || (x.loc.Creating? && x.current.Some?)
  }

  /** A hart inside a call on one lock holds no lock of higher rank. */
  predicate CallsOrdered(ph: Phases) {
    && (!Settled(ph.trapPrint) ==> ph.processes == Out && ph.io == Out)
    && (!Settled(ph.processes) ==> ph.io == Out)
  }

  /** How far a hart must have come with a lock. */
  datatype Need = NeedOut | NeedHeld | NeedEntered | NeedLeft | NeedSettled

  predicate Meets(p: LockPhase, need: Need) {
    match need
    case NeedOut => p == Out
    case NeedHeld => p == Held
    case NeedEntered => Acquiring(p) || p == Held
    case NeedLeft => Releasing(p) || p == Out
    case NeedSettled => Settled(p)
  }

  predicate MayBeInTrap(loc: Loc) {
    match loc
    case Boot => false
    case Proc => false
    case Creating(_) => false
    case Trapping(t) => t != TrapLock
    case SwitchingOn(o) => o != OnRestore
    case _ => true
  }

  function NeedOfTrapPrint(loc: Loc, inTrap: bool): Need {
    match loc
    case Trapping(t) =>
      if t == TrapDispatch then NeedEntered else if inTrap then NeedHeld else NeedOut
    case SwitchingOn(o) => if o == OnRestore then NeedLeft else if inTrap then NeedHeld else NeedOut
    case Panicked(_) => NeedLeft
    case _ => if inTrap then NeedHeld else NeedOut
  }

  function NeedOfProcesses(loc: Loc): Need {
    match loc
    case Boot => NeedLeft
    case Proc => NeedLeft
    case Creating(c) => if c == CreateScan(0) then NeedEntered else NeedHeld
    case Trapping(_) => NeedOut
    case Destroying(d) =>
      if d == DestroyLock then NeedOut else if d == DestroyTake then NeedEntered else NeedHeld
    case SwitchingOff(o) => if o == OffEntry then NeedLeft else NeedOut
    case Choosing(c) =>
      if c == ChooseLock then NeedLeft else if c == ChooseScan(0) then NeedEntered else NeedHeld
    case SwitchingOn(o) => if o == OnPick then NeedLeft else NeedOut
    case Panicked(_) => NeedSettled
  }

  predicate PhasesFit(x: Hart) {
    && CallsOrdered(x.phases)
    && (x.inTrap ==> MayBeInTrap(x.loc))
    && (x.loc.Trapping? ==> x.inTrap == (x.loc.trap != TrapLock))
    && (x.loc.SwitchingOff? && x.current.Some? ==> x.inTrap)
    && Meets(x.phases.trapPrint, NeedOfTrapPrint(x.loc, x.inTrap))
    && Meets(x.phases.processes, NeedOfProcesses(x.loc))
  }

  /** Traps are on exactly while process code runs outside every lock. */
  predicate InterruptsFit(x: Hart) {
    && x.depth == x.phases.Count()
    && (x.depth > 0 ==> !x.sie)
    && (!x.loc.Panicked? ==> (if x.depth > 0 then x.before else x.sie) == InProcess(x))
  }

  predicate Local(x: Hart) {
    && InRange(x)
    && InterruptsFit(x)
    && PhasesFit(x)
    && x.loc != Panicked(NoCurrentProcess) && x.loc != Panicked(DepthWasZero)
    && (x.loc == Panicked(FatalKernelTrap) ==> x.cause == OtherException)
  }

  // ---------------------------------------------------------------- a hart and the slot it works on

  predicate AsCreated(q: Slot) {
    q.origin.Created? && q.frame == CreatedFrame(q.origin.entry, q.origin.sp)
  }

  /** The frame `f` holds the context at the last trap, the system call being served. */
  predicate AsServed(f: Frame, q: Slot) {
    q.origin.Trapped? && SameContext(f, Served(q.origin.frame, q.origin.cause))
  }

  predicate AsExpected(f: Frame, q: Slot, exits: Exits) {
    SameContext(f, Expected(q, exits))
  }

  predicate FreshTrap(x: Hart, q: Slot) {
    && q.origin.Trapped? && x.cause == q.origin.cause && SameContext(x.frame, q.origin.frame)
    && x.wasKernel == q.kernel
    && (x.wasKernel ==> IsInterrupt(x.cause) || x.cause == OtherException)
  }

  /** Where the context of an owned process is, step by step. */
  predicate ContextFits(x: Hart, q: Slot, exits: Exits) {
    match x.loc
    case Trapping(t) =>
      && FreshTrap(x, q)
      && (t == TrapPutchar || t == TrapPutcharDone ==>
            x.cause == EcallFromUser && q.origin.frame.a0 == SYSCALL_PUTCHAR)
    case SwitchingOff(o) =>
      (match o
       case OffEntry => AsServed(x.frame, q)
       case OffSave => AsServed(x.frame, q)
       case OffPc => AsServed(q.frame, q)
       case _ => q.origin.Trapped? && AsExpected(q.frame, q, exits))
    case SwitchingOn(o) =>
      (match o
       case OnPick => if x.first then AsCreated(q) else AsExpected(q.frame, q, exits)
       case OnSetRa => AsCreated(q) && x.newPc == q.origin.entry
       case OnReturn => AsExpected(q.frame.(pc := x.newPc), q, exits)
       case OnLoad => AsExpected(q.frame.(pc := x.sepc), q, exits) && q.frame.satp == q.satp && ReturnFits(x, q)
       case _ => AsExpected(x.frame.(pc := x.sepc), q, exits) && x.frame.satp == q.satp && ReturnFits(x, q))
    case _ => true
  }

  /** sret will enable traps and enter the mode that the process runs in. */
  predicate ReturnFits(x: Hart, q: Slot) {
    x.spie && x.sppKernel == q.kernel
  }

  predicate OwnedFits(x: Hart, p: nat, q: Slot, exits: Exits) {
    && q.state == Running
    && q.id == (if x.loc == Destroying(DestroyState) then NO_PID else p)
    && q.starts == (if x.loc == SwitchingOn(OnPick) && x.first then 0 else 1)
    && ContextFits(x, q, exits)
  }

  predicate HartSlotFits(x: Hart, slots: seq<Slot>, exits: Exits)
    requires |slots| == PROCESSES_MAXIMUM && InRange(x)
  {
    && (Owns(x).Some? ==>
          Owns(x).value < PROCESSES_MAXIMUM && OwnedFits(x, Owns(x).value, slots[Owns(x).value], exits))
    && (match x.loc
        case Creating(c) =>
          (match c
           case CreateScan(_) => true
           case CreateInit(k) => slots[k].state == Unused
           case CreatePublish(k) =>
             slots[k].state == Unused && slots[k].id == k && slots[k].starts == 0 && AsCreated(slots[k]))
        case Choosing(c) =>
          (match c
           case ChooseLock => true
           case ChooseScan(_) => true
           case ChooseTake => x.next < PROCESSES_MAXIMUM && Waiting(slots[x.next])
           case ChooseFirst => Waiting(slots[x.current.value])
           case ChooseRun =>
             Waiting(slots[x.current.value]) && x.first == (slots[x.current.value].state == Ready))
        case _ => true)
  }

  /** What every slot satisfies that no hart owns. */
  predicate SlotFits(p: nat, q: Slot, exits: Exits) {
    match q.state
    case Unused => true
    case Ready => q.id == p && q.starts == 0 && AsCreated(q)
    case Runnable => q.id == p && q.starts == 1 && q.origin.Trapped? && AsExpected(q.frame, q, exits)
    case Running => true
  }

  // ---------------------------------------------------------------- all harts together

  ghost predicate AtMostOneInside(s: State) {
    forall l: Lock, h, g ::
      0 <= h < |s.harts| && 0 <= g < |s.harts| && h != g ==>
        !(Inside(s.harts[h].phases.Get(l)) && Inside(s.harts[g].phases.Get(l)))
  }

  ghost predicate SomeoneInside(s: State, l: Lock) {
    exists h :: 0 <= h < |s.harts| && Inside(s.harts[h].phases.Get(l))
  }

  /** The owner of a lock is the hart that holds it, and nobody when that hart is about to free it. */
  predicate OwnerFits(p: LockPhase, owner: int, h: nat) {
    (p == Held || p == ClearOwner ==> owner == h) && (p == Unlock ==> owner == -1)
  }

  ghost predicate LockBitsFit(s: State) {
    && (forall l: Lock :: s.locks.Get(l).locked <==> SomeoneInside(s, l))
    && (forall l: Lock, h ::
          0 <= h < |s.harts| ==> OwnerFits(s.harts[h].phases.Get(l), s.locks.Get(l).owner, h))
  }

  ghost predicate AtMostOneOwner(s: State) {
    forall h, g ::
      0 <= h < |s.harts| && 0 <= g < |s.harts| && h != g && Owns(s.harts[h]).Some? ==>
        Owns(s.harts[h]) != Owns(s.harts[g])
  }

  ghost predicate SomeoneOwns(s: State, p: nat) {
    exists h :: 0 <= h < |s.harts| && Owns(s.harts[h]) == Some(p)
  }

  ghost predicate RunningHasOwner(s: State) {
    forall p :: 0 <= p < |s.slots| && s.slots[p].state == Running ==> SomeoneOwns(s, p)
  }

  ghost predicate Inv(s: State) {
    && |s.slots| == PROCESSES_MAXIMUM
    && (forall h :: 0 <= h < |s.harts| ==> Local(s.harts[h]))
    && (forall h :: 0 <= h < |s.harts| ==> HartSlotFits(s.harts[h], s.slots, s.exits))
    && (forall p :: 0 <= p < |s.slots| ==> SlotFits(p, s.slots[p], s.exits))
    && AtMostOneInside(s) && LockBitsFit(s)
    && AtMostOneOwner(s) && RunningHasOwner(s)
  }

  // ---------------------------------------------------------------- what one step may do

  /** The slots after the write of a step. */
  function Written(slots: seq<Slot>, write: Option<(nat, Slot)>): seq<Slot>
    requires write.Some? ==> write.value.0 < |slots|
  {
    match write
    case None => slots
    case Some((p, q)) => slots[p := q]
  }

  /** The right to write a slot: to own it, or to hold processes_lock while it is not RUNNING. */
  predicate MayWrite(x: Hart, slots: seq<Slot>, p: nat) {
    && p < |slots|
    && (Owns(x) == Some(p) || (x.phases.processes == Held && slots[p].state != Running))
  }

  /** The conditions on one step, all local to the hart and the slot it touches. */
  ghost predicate GoodEffect(x: Hart, slots: seq<Slot>, exits: Exits, e: Effect)
    requires |slots| == PROCESSES_MAXIMUM
  {
    && Local(e.hart)
    && (e.write.Some? ==> MayWrite(x, slots, e.write.value.0))
    && var after := Written(slots, e.write);
    && HartSlotFits(e.hart, after, exits)
    && (e.write.Some? ==> SlotFits(e.write.value.0, e.write.value.1, exits))
    && (e.write.Some? && e.write.value.1.state == Running ==> Owns(e.hart) == Some(e.write.value.0))
    && (Owns(e.hart).Some? && Owns(e.hart) != Owns(x) ==> slots[Owns(e.hart).value].state != Running)
    && (Owns(x).Some? && Owns(e.hart) != Owns(x) ==>
          Owns(x).value < PROCESSES_MAXIMUM && after[Owns(x).value].state != Running)
  }

  /** What a step does to one lock, as seen from the stepping hart. */
  predicate GoodLockEffect(x: Hart, id: nat, locks: Locks, e: Effect, l: Lock) {
    var was := Inside(x.phases.Get(l));
    var now := Inside(e.hart.phases.Get(l));
    && (|| (was == now && e.locks.Get(l).locked == locks.Get(l).locked)
        || (!was && now && !locks.Get(l).locked && e.locks.Get(l).locked)
        || (was && !now && !e.locks.Get(l).locked))
    && (e.locks.Get(l).owner != locks.Get(l).owner ==> was)
    && OwnerFits(e.hart.phases.Get(l), e.locks.Get(l).owner, id)
  }

  /** A step of the kernel code between lock calls: it may start a call, but completes none. */
  predicate StartsCall(p: LockPhase, q: LockPhase) {
    p == q || (p == Out && q == Test) || (p == Held && q == ClearOwner)
  }

  /** A step between lock calls changes the depth only by starting an acquire. */
  predicate Bookkept(x: Hart, y: Hart) {
    || (y.depth == x.depth && y.before == x.before)
    || (y.depth == x.depth + 1 && y.before == if x.depth == 0 then x.sie else x.before)
  }

  ghost predicate GoodStep(x: Hart, slots: seq<Slot>, exits: Exits, locks: Locks, e: Effect)
    requires |slots| == PROCESSES_MAXIMUM
  {
    && GoodEffect(x, slots, exits, e)
    && e.locks == locks
    && Bookkept(x, e.hart)
    && StartsCall(x.phases.trapPrint, e.hart.phases.trapPrint)
    && StartsCall(x.phases.processes, e.hart.phases.processes)
    && StartsCall(x.phases.io, e.hart.phases.io)
  }
}
