/**
 The shared state of the kernel: harts, process slots and the three spinlocks that
 trap handling, scheduling and printing nest in each other.
 */
module KernelState {
  import opened Prelude

  const PROCESSES_MAXIMUM: nat := 32

  const SYSCALL_EXIT: Word := 0x0F
  const SYSCALL_YIELD: Word := 0x10
  const SYSCALL_PUTCHAR: Word := 0xAA

  /** `(Pid)-1`: a pid is an 8-bit value. */
  const NO_PID: nat := 255

  // ---------------------------------------------------------------- registers and traps

  /** A trap frame. `others` holds gp, tp, t0-t6, a2-a7 and s0-s11. */
  datatype Frame = Frame(ra: Word, sp: Word, a0: Word, a1: Word, others: seq<Word>, pc: Word, satp: Word)

  const ZERO_OTHERS: seq<Word> := [0, 0, 0, 0, 0, 0, 0, 0, 0] + [0, 0, 0, 0, 0, 0, 0, 0, 0] + [0, 0, 0, 0, 0, 0, 0, 0,
    0]

  datatype Cause = Software | Timer | External | EcallFromUser | OtherException

  predicate IsInterrupt(cause: Cause) {
    cause == Software || cause == Timer || cause == External
  }

  // ---------------------------------------------------------------- processes

  datatype ProcessState = Unused | Ready | Runnable | Running

  /**
   Where the context that a process must continue with comes from. It is a history
   variable: no step of the kernel reads it.
   */
  datatype Origin =
    | Never
    | Created(entry: Word, sp: Word)
    | Trapped(frame: Frame, cause: Cause)

  /** `origin` and `starts` are history variables; `starts` counts uses of the entry address. */
  datatype Slot = Slot(
    id: nat, state: ProcessState, frame: Frame, kernel: bool, satp: Word,
    origin: Origin, starts: nat)

  // ---------------------------------------------------------------- locks

  /** In the order in which a hart may nest them. */
  datatype Lock = TrapPrint | Processes | Io

  function Rank(l: Lock): nat {
    match l
    case TrapPrint => 0
    case Processes => 1
    case Io => 2
  }

  /** `owner` is -1 when the lock was released; only `locked` decides who gets in. */
  datatype SpinLock = SpinLock(locked: bool, owner: int)

  datatype Locks = Locks(trapPrint: SpinLock, processes: SpinLock, io: SpinLock) {
    function Get(l: Lock): SpinLock {
      match l
      case TrapPrint => trapPrint
      case Processes => processes
      case Io => io
    }

    function Set(l: Lock, k: SpinLock): Locks {
      match l
      case TrapPrint => this.(trapPrint := k)
      case Processes => this.(processes := k)
      case Io => this.(io := k)
    }
  }

  /** How far a hart has come with one lock, from `SpinLock_acquire` to the end of `SpinLock_release`. */
  datatype LockPhase = Out | Test | Swap | SetOwner | Held | ClearOwner | Unlock | Post

  predicate Acquiring(p: LockPhase) {
    p == Test || p == Swap || p == SetOwner
  }

  predicate Releasing(p: LockPhase) {
    p == ClearOwner || p == Unlock || p == Post
  }

  predicate Settled(p: LockPhase) {
    p == Out || p == Held
  }

  /** From the swap that returned 0 until the swap that stores 0. */
  predicate Inside(p: LockPhase) {
    p == SetOwner || p == Held || p == ClearOwner || p == Unlock
  }

  datatype Phases = Phases(trapPrint: LockPhase, processes: LockPhase, io: LockPhase) {
    function Get(l: Lock): LockPhase {
      match l
      case TrapPrint => trapPrint
      case Processes => processes
      case Io => io
    }

    function Set(l: Lock, p: LockPhase): Phases {
      match l
      case TrapPrint => this.(trapPrint := p)
      case Processes => this.(processes := p)
      case Io => this.(io := p)
    }

    /** The number of locks held, being acquired or being released. */
    function Count(): nat {
      (if trapPrint == Out then 0 else 1) + (if processes == Out then 0 else 1) + (if io == Out then 0 else 1)
    }

    /** True outside `SpinLock_acquire` and `SpinLock_release`. */
    predicate AllSettled() {
      Settled(trapPrint) && Settled(processes) && Settled(io)
    }
  }

  // ---------------------------------------------------------------- harts

  datatype Reason = NoSlotLeft | FatalKernelTrap | NoCurrentProcess | DepthWasZero

  // Process_create
  datatype CreateAt = CreateScan(k: nat) | CreateInit(k: nat) | CreatePublish(k: nat)

  // handle_trap
  datatype TrapAt = TrapLock | TrapDispatch | TrapPutchar | TrapPutcharDone

  // Process_destroy_current
  datatype DestroyAt = DestroyLock | DestroyTake | DestroyId | DestroyState

  // kernel_switch, first part: give up the current process
  datatype OffAt = OffEntry | OffSave | OffPc | OffNextId | OffPublish | OffClear

  // kernel_switch, second part: find a process that waits
  datatype ChooseAt = ChooseLock | ChooseScan(k: nat) | ChooseTake | ChooseFirst | ChooseRun

  // kernel_switch, third part, and restore_after_trap: enter the process
  datatype OnAt = OnPick | OnSetRa | OnReturn | OnLoad | OnDone | OnRestore

  /** What a hart does next; a lock call in progress (see `Phases`) is finished first. */
  datatype Loc =
    | Boot                    // kernel_main, before jump_into_processes
    | Proc                    // code of the current process
    | Creating(create: CreateAt)
    | Trapping(trap: TrapAt)
    | Destroying(destroy: DestroyAt)
    | SwitchingOff(off: OffAt)
    | Choosing(choose: ChooseAt)
    | SwitchingOn(on: OnAt)
    | Panicked(reason: Reason)

  /**
   One hart: its control registers, its scratch space and the local variables of the
   kernel functions it runs (`args` of Process_create, `old_process`, `start_search_id`,
   `next_process`, `process_first_run`, `new_pc`).
   */
  datatype Hart = Hart(
    loc: Loc, phases: Phases,
    // control registers
    sie: bool, spie: bool, sppKernel: bool, sepc: Word,
    // architectural registers of the running code
    regs: Frame,
    // HartScratch
    frame: Frame, current: Option<nat>, before: bool, depth: nat,
    // locals
    inTrap: bool, cause: Cause, wasKernel: bool,
    args: Arguments, old_: nat, start: nat, next: nat, first: bool, newPc: Word)

  datatype Arguments = Arguments(entry: Word, sp: Word, kernel: bool, satp: Word)

  /** Addresses of ProcessExit_kernel and ProcessExit_user. */
  datatype Exits = Exits(kernel: Word, user: Word) {
    function For(isKernel: bool): Word {
      if isKernel then kernel else user
    }
  }

  datatype State = State(harts: seq<Hart>, locks: Locks, slots: seq<Slot>, exits: Exits)

  // ---------------------------------------------------------------- ownership

  /**
   The process a hart owns, judged by where the hart is: from the store that makes the
   process RUNNING until the store that publishes it as RUNNABLE or UNUSED. The pointer
   `current` alone does not say this: it is set before the first store and cleared after
   the second.
   */
  function Owns(x: Hart): Option<nat> {
    match x.loc
    case Destroying(d) => if d == DestroyId || d == DestroyState then Some(x.old_) else x.current
    case SwitchingOff(o) => if o == OffClear then None else x.current
    case Choosing(c) => None
    case _ => x.current
  }

  // ---------------------------------------------------------------- contexts

  function CreatedFrame(entry: Word, sp: Word): Frame {
    Frame(entry, sp, 0, 0, ZERO_OTHERS, 0, 0)
  }

  /** The frame of an interrupted process after its system call, if any, was served. */
  function Served(f: Frame, cause: Cause): Frame {
    if cause == EcallFromUser && f.a0 == SYSCALL_PUTCHAR then f.(a0 := SignExtendInt(f.a1)) else f
  }

  /**
   The registers and the program counter that a process must continue with: those of its
   last trap, with a0 replaced by the result of a putchar call and, for a user process, 4
   added to the program counter; or, before its first run, its entry address with the
   exit function as return address. (`satp` is not part of this.)
   */
  function Expected(q: Slot, exits: Exits): Frame {
    match q.origin
    case Never => CreatedFrame(0, 0)
    case Created(entry, sp) => CreatedFrame(entry, sp).(ra := exits.For(q.kernel), pc := entry)
    case Trapped(f, cause) =>
      Served(f, cause).(pc := if q.kernel then f.pc else AddWord(f.pc, 4))
  }

  predicate SameContext(f: Frame, g: Frame) {
    f == g.(satp := f.satp)
  }
}
