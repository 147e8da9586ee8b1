/**
 One atomic step of one hart. Each access to shared memory (a lock word, a process state,
 a process frame) is a step of its own, so every interleaving of the harts is a sequence
 of these steps. Memory is sequentially consistent.
 */
module KernelSteps {
  import opened Prelude
  import opened KernelState

  /** The choices that the kernel code does not make itself. */
  datatype Action =
    | Go                            // the next step of the kernel code
    | Compute(regs: Frame)          // the process changes its registers
    | Trap(cause: Cause)
    | Print                         // putchar_buffer is called: io_spinlock is taken and released
    | Create(args: Arguments)       // Process_create is called
    | Exit                          // a kernel process returns into ProcessExit_kernel
    | Jump                          // jump_into_processes is called from kernel_main

  /** What a step changes: the hart itself, the locks and at most one process slot. */
  datatype Effect = Effect(hart: Hart, locks: Locks, write: Option<(nat, Slot)>)

  // ---------------------------------------------------------------- locks

  /** my_hart_pre_lock_acquire, at the head of `SpinLock_acquire`; the hart continues at `then_`. */
  function Acquire(x: Hart, l: Lock, then_: Loc): Hart {
    x.(before := if x.depth == 0 then x.sie else x.before,
       depth := x.depth + 1,
       sie := false,
       phases := x.phases.Set(l, Test),
       loc := then_)
  }

  function Release(x: Hart, l: Lock, then_: Loc): Hart {
    x.(phases := x.phases.Set(l, ClearOwner), loc := then_)
  }

  /** my_hart_post_lock_release, at the end of `SpinLock_release`. */
  function PostRelease(x: Hart, l: Lock): Hart {
    if x.depth == 0 then
      x.(loc := Panicked(DepthWasZero))
    else
      x.(phases := x.phases.Set(l, Out),
         depth := x.depth - 1,
         sie := if x.depth == 1 && x.before then true else x.sie)
  }

  /**
   One memory access inside `SpinLock_acquire` or `SpinLock_release`, on the lock word or on
   its owner. The acquire loop is left only after a swap that returned 0.
   */
  function LockMove(p: LockPhase, k: SpinLock, id: nat): (LockPhase, SpinLock)
    requires !Settled(p) && p != Post
  {
    match p
    case Test => (if k.locked then Test else Swap, k)
    case Swap => (if k.locked then Test else SetOwner, k.(locked := true))
    case SetOwner => (Held, k.(owner := id))
    case ClearOwner => (Unlock, k.(owner := -1))
    case Unlock => (Post, k.(locked := false))
  }

  /** The next step of the call on lock `l`. */
  function LockStep(x: Hart, locks: Locks, id: nat, l: Lock): (Hart, Locks)
    requires !Settled(x.phases.Get(l))
  {
    if x.phases.Get(l) == Post then
      (PostRelease(x, l), locks)
    else
      var (p, k) := LockMove(x.phases.Get(l), locks.Get(l), id);
      (x.(phases := x.phases.Set(l, p)), locks.Set(l, k))
  }

  /** The lock whose call is in progress. */
  function CallOf(ph: Phases): Lock
    requires !ph.AllSettled()
    ensures !Settled(ph.Get(CallOf(ph)))
  {
    if !Settled(ph.io) then Io else if !Settled(ph.processes) then Processes else TrapPrint
  }

  // ---------------------------------------------------------------- when a step is possible

  /** Neither inside a lock call nor inside `putchar_buffer`. */
  predicate AtMain(x: Hart) {
    x.phases.AllSettled() && x.phases.io == Out
  }

  predicate InKernelMode(x: Hart, slots: seq<Slot>) {
    x.loc == Proc && x.current.Some? && x.current.value < |slots| ==> slots[x.current.value].kernel
  }

  /**
   The hardware delivers an interrupt to code in supervisor mode only while sstatus.SIE is
   set; code in user mode can always be interrupted, and only it can make an ecall.
   */
  predicate TrapPossible(x: Hart, slots: seq<Slot>, cause: Cause) {
    if InKernelMode(x, slots) then
      cause == OtherException || (IsInterrupt(cause) && x.sie)
    else
      true
  }

  predicate Enabled(x: Hart, slots: seq<Slot>, a: Action) {
    match a
    case Go => !AtMain(x) || (x.loc != Boot && x.loc != Proc && !x.loc.Panicked?)
    case Compute(_) => x.loc == Proc && AtMain(x)
    case Trap(cause) => x.loc == Proc && AtMain(x) && TrapPossible(x, slots, cause)
    case Print => AtMain(x) && InKernelMode(x, slots)
    case Create(_) => AtMain(x) && (x.loc == Boot || (x.loc == Proc && InKernelMode(x, slots)))
    case Exit => AtMain(x) && x.loc == Proc && InKernelMode(x, slots)
    case Jump => AtMain(x) && x.loc == Boot
  }

  // ---------------------------------------------------------------- the kernel functions

  function Move(x: Hart, locks: Locks, to: Loc): Effect {
    Effect(x.(loc := to), locks, None)
  }

  function Store(x: Hart, locks: Locks, to: Loc, p: nat, q: Slot): Effect {
    Effect(x.(loc := to), locks, Some((p, q)))
  }

  /** Process_create, under processes_lock: find an unused slot, fill it, publish it as READY. */
  function CreateStep(x: Hart, at: CreateAt, locks: Locks, slots: seq<Slot>): Effect
    requires |slots| == PROCESSES_MAXIMUM && (!at.CreateScan? ==> at.k < PROCESSES_MAXIMUM)
  {
    match at
    case CreateScan(k) =>
      if k >= PROCESSES_MAXIMUM then
        Move(x, locks, Panicked(NoSlotLeft))
      else if slots[k].state == Unused then
        Move(x, locks, Creating(CreateInit(k)))
      else
        Move(x, locks, Creating(CreateScan(k + 1)))
    case CreateInit(k) =>
      Store(x, locks, Creating(CreatePublish(k)), k,
            Slot(k, Unused, CreatedFrame(x.args.entry, x.args.sp), x.args.kernel, x.args.satp,
                 Created(x.args.entry, x.args.sp), 0))
    case CreatePublish(k) =>
      Effect(Release(x, Processes, if x.current == None then Boot else Proc), locks,
             Some((k, slots[k].(state := Ready))))
  }

  /** trap_vector: the registers go to the hart's frame, whose satp field it leaves alone. */
  function TakeTrap(x: Hart, locks: Locks, slots: seq<Slot>, cause: Cause): Effect
    requires |slots| == PROCESSES_MAXIMUM && InRange(x)
  {
    var x' := x.(loc := Trapping(TrapLock), cause := cause, wasKernel := InKernelMode(x, slots),
                 spie := x.sie, sie := false, sppKernel := InKernelMode(x, slots), sepc := x.regs.pc,
                 frame := x.regs.(satp := x.frame.satp));
    match x.current
    case None => Effect(x', locks, None)
    case Some(p) => Effect(x', locks, Some((p, slots[p].(origin := Trapped(x'.frame, cause)))))
  }

  /** The classification in handle_trap. */
  predicate Fatal(cause: Cause, wasKernel: bool, inProcess: bool) {
    || (&& (|| (wasKernel && !(cause == Software || cause == Timer))
            || (!wasKernel && !(cause == EcallFromUser || cause == Timer)))
        && cause != External)
    || !inProcess
  }

  /** Where handle_trap goes on, handle_syscall included; `a0` is the number of the system call. */
  function Dispatch(cause: Cause, wasKernel: bool, inProcess: bool, a0: Word): (to: Loc)
    ensures to.Panicked? || to == Destroying(DestroyLock) || to == Trapping(TrapPutchar) || to == SwitchingOff(OffEntry)
  {
    if Fatal(cause, wasKernel, inProcess) then
      if wasKernel then Panicked(FatalKernelTrap) else Destroying(DestroyLock)
    else if cause == EcallFromUser && a0 == SYSCALL_PUTCHAR then Trapping(TrapPutchar)
    else if cause == EcallFromUser && a0 == SYSCALL_EXIT then Destroying(DestroyLock)
    else SwitchingOff(OffEntry)
  }

  /** handle_trap between its lock operations. */
  function TrapStep(x: Hart, at: TrapAt, locks: Locks): Effect {
    match at
    case TrapLock => Effect(Acquire(x, TrapPrint, Trapping(TrapDispatch)).(inTrap := true), locks, None)
    case TrapDispatch =>
      var to := Dispatch(x.cause, x.wasKernel, x.current.Some?, x.frame.a0);
      if to.Panicked? then
        Effect(Release(x, TrapPrint, to).(inTrap := false), locks, None)
      else
        Move(x, locks, to)
    case TrapPutchar => Effect(Acquire(x, Io, Trapping(TrapPutcharDone)), locks, None)
    case TrapPutcharDone =>
      Effect(x.(loc := SwitchingOff(OffEntry), frame := x.frame.(a0 := SignExtendInt(x.frame.a1))), locks, None)
  }

  /** Process_destroy_current. */
  function DestroyStep(x: Hart, at: DestroyAt, locks: Locks, slots: seq<Slot>): Effect
    requires |slots| == PROCESSES_MAXIMUM
    requires (at == DestroyId || at == DestroyState) ==> x.old_ < PROCESSES_MAXIMUM
  {
    match at
    case DestroyLock => Effect(Acquire(x, Processes, Destroying(DestroyTake)), locks, None)
    case DestroyTake =>
      (match x.current
       case None => Move(x, locks, Panicked(NoCurrentProcess))
       case Some(p) => Effect(x.(loc := Destroying(DestroyId), old_ := p, current := None), locks, None))
    case DestroyId =>
      Store(x, locks, Destroying(DestroyState), x.old_, slots[x.old_].(id := NO_PID))
    case DestroyState =>
      Effect(Release(x, Processes, SwitchingOff(OffEntry)), locks,
             Some((x.old_, slots[x.old_].(state := Unused))))
  }

  function PidNext(id: nat): nat {
    (id + 1) % PROCESSES_MAXIMUM
  }

  /** The first part of kernel_switch: give up the current process. No lock is taken for it. */
  function OffStep(x: Hart, at: OffAt, locks: Locks, slots: seq<Slot>): Effect
    requires |slots| == PROCESSES_MAXIMUM
    requires at != OffEntry ==> x.current.Some? && x.current.value < PROCESSES_MAXIMUM
  {
    match at
    case OffEntry =>
      Effect(x.(start := 0, loc := if x.current.Some? then SwitchingOff(OffSave) else Choosing(ChooseLock)),
             locks, None)
    case OffSave =>
      Store(x, locks, SwitchingOff(OffPc), x.current.value, slots[x.current.value].(frame := x.frame))
    case OffPc =>
      var q := slots[x.current.value];
      if q.kernel then
        Move(x, locks, SwitchingOff(OffNextId))
      else
        Store(x, locks, SwitchingOff(OffNextId), x.current.value,
              q.(frame := q.frame.(pc := AddWord(q.frame.pc, 4))))
    case OffNextId =>
      Effect(x.(start := PidNext(slots[x.current.value].id), loc := SwitchingOff(OffPublish)), locks, None)
    case OffPublish =>
      Store(x, locks, SwitchingOff(OffClear), x.current.value, slots[x.current.value].(state := Runnable))
    case OffClear => Effect(x.(current := None, loc := Choosing(ChooseLock)), locks, None)
  }

  /** The slot that `Process_find_next` looks at after `k` others. */
  function ScanId(start: nat, k: nat): (id: nat)
    ensures id < PROCESSES_MAXIMUM
  {
    (start + k) % PROCESSES_MAXIMUM
  }

  predicate Waiting(q: Slot) {
    q.state == Runnable || q.state == Ready
  }

  /** The waiting loop of kernel_switch, under processes_lock: pick a process and mark it RUNNING. */
  function ChooseStep(x: Hart, at: ChooseAt, locks: Locks, slots: seq<Slot>): Effect
    requires |slots| == PROCESSES_MAXIMUM
    requires (at == ChooseFirst || at == ChooseRun) ==> x.current.Some? && x.current.value < PROCESSES_MAXIMUM
  {
    match at
    case ChooseLock => Effect(Acquire(x, Processes, Choosing(ChooseScan(0))), locks, None)
    case ChooseScan(k) =>
      if k >= PROCESSES_MAXIMUM then
        Effect(Release(x, Processes, Choosing(ChooseLock)), locks, None)
      else if Waiting(slots[ScanId(x.start, k)]) then
        Effect(x.(next := ScanId(x.start, k), loc := Choosing(ChooseTake)), locks, None)
      else
        Move(x, locks, Choosing(ChooseScan(k + 1)))
    case ChooseTake => Effect(x.(current := Some(x.next), loc := Choosing(ChooseFirst)), locks, None)
    case ChooseFirst =>
      Effect(x.(first := slots[x.current.value].state == Ready, loc := Choosing(ChooseRun)), locks, None)
    case ChooseRun =>
      Effect(Release(x, Processes, SwitchingOn(OnPick)), locks,
             Some((x.current.value, slots[x.current.value].(state := Running))))
  }

  /** The last part of kernel_switch and restore_after_trap: enter the chosen process. */
  function OnStep(x: Hart, at: OnAt, locks: Locks, slots: seq<Slot>, exits: Exits): Effect
    requires |slots| == PROCESSES_MAXIMUM
    requires x.current.Some? && x.current.value < PROCESSES_MAXIMUM
  {
    var p := x.current.value;
    match at
    case OnPick =>
      if x.first then
        Effect(x.(newPc := slots[p].frame.ra, loc := SwitchingOn(OnSetRa)), locks,
               Some((p, slots[p].(starts := slots[p].starts + 1))))
      else
        Effect(x.(newPc := slots[p].frame.pc, loc := SwitchingOn(OnReturn)), locks, None)
    case OnSetRa =>
      Store(x, locks, SwitchingOn(OnReturn), p,
            slots[p].(frame := slots[p].frame.(ra := exits.For(slots[p].kernel))))
    case OnReturn =>
      Effect(x.(sepc := x.newPc, spie := true, sppKernel := slots[p].kernel, loc := SwitchingOn(OnLoad)), locks,
             Some((p, slots[p].(frame := slots[p].frame.(satp := slots[p].satp)))))
    case OnLoad => Effect(x.(frame := slots[p].frame, loc := SwitchingOn(OnDone)), locks, None)
    case OnDone =>
      if x.inTrap then
        Effect(Release(x, TrapPrint, SwitchingOn(OnRestore)).(inTrap := false), locks, None)
      else
        Move(x, locks, SwitchingOn(OnRestore))
    case OnRestore =>
      Effect(x.(regs := x.frame.(pc := x.sepc), sie := x.spie, spie := true, loc := Proc), locks, None)
  }

  // ---------------------------------------------------------------- all together

  datatype CurrentNeed = IsNone | IsSome | Either

  /** Whether the hart's `current_process` is NULL, by location. */
  function NeedOfCurrent(loc: Loc): CurrentNeed {
    match loc
    case Boot => IsNone
    case Proc => IsSome
    case Creating(_) => Either
    case Trapping(_) => IsSome
    case Destroying(d) => if d == DestroyId || d == DestroyState then IsNone else IsSome
    case SwitchingOff(o) => if o == OffEntry then Either else IsSome
    case Choosing(c) => if c == ChooseFirst || c == ChooseRun then IsSome else IsNone
    case SwitchingOn(_) => IsSome
    case Panicked(_) => Either
  }

  /** The pointers and indices that the hart is going to use are in range. */
  predicate InRange(x: Hart) {
    && (x.current.Some? ==> x.current.value < PROCESSES_MAXIMUM)
    && (NeedOfCurrent(x.loc) == IsSome ==> x.current.Some?)
    && (NeedOfCurrent(x.loc) == IsNone ==> x.current.None?)
    && (x.loc.Destroying? && (x.loc.destroy == DestroyId || x.loc.destroy == DestroyState) ==>
          x.old_ < PROCESSES_MAXIMUM)
    && (x.loc.Creating? && !x.loc.create.CreateScan? ==> x.loc.create.k < PROCESSES_MAXIMUM)
    && (x.loc.Choosing? && x.loc.choose.ChooseScan? ==> x.loc.choose.k <= PROCESSES_MAXIMUM)
  }

  function MainStep(x: Hart, locks: Locks, slots: seq<Slot>, exits: Exits): Effect
    requires |slots| == PROCESSES_MAXIMUM && InRange(x)
  {
    match x.loc
    case Creating(at) => CreateStep(x, at, locks, slots)
    case Trapping(at) => TrapStep(x, at, locks)
    case Destroying(at) => DestroyStep(x, at, locks, slots)
    case SwitchingOff(at) => OffStep(x, at, locks, slots)
    case Choosing(at) => ChooseStep(x, at, locks, slots)
    case SwitchingOn(at) => OnStep(x, at, locks, slots, exits)
    case _ => Effect(x, locks, None)
  }

  function Exec(x: Hart, id: nat, locks: Locks, slots: seq<Slot>, exits: Exits, a: Action): Effect
    requires |slots| == PROCESSES_MAXIMUM && InRange(x) && Enabled(x, slots, a)
  {
    match a
    case Go =>
      if !x.phases.AllSettled() then
        var (x', locks') := LockStep(x, locks, id, CallOf(x.phases));
        Effect(x', locks', None)
      else if x.phases.io == Held then
        Effect(Release(x, Io, x.loc), locks, None)
      else
        MainStep(x, locks, slots, exits)
    case Compute(regs) => Effect(x.(regs := regs), locks, None)
    case Trap(cause) => TakeTrap(x, locks, slots, cause)
    case Print => Effect(Acquire(x, Io, x.loc), locks, None)
    case Create(args) => Effect(Acquire(x.(args := args), Processes, Creating(CreateScan(0))), locks, None)
    case Exit => Effect(x.(sie := false, loc := Destroying(DestroyLock)), locks, None)
    case Jump => Effect(x.(loc := SwitchingOff(OffEntry)), locks, None)
  }

  function Apply(s: State, h: nat, e: Effect): State
    requires h < |s.harts|
    requires e.write.Some? ==> e.write.value.0 < |s.slots|
  {
    s.(harts := s.harts[h := e.hart],
       locks := e.locks,
       slots := match e.write case None => s.slots case Some((p, q)) => s.slots[p := q])
  }
}
