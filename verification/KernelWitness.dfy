/** Runs from the start of the kernel to states that it had better not reach. */
module KernelWitness {
  import opened Prelude
  import opened KernelState
  import opened KernelSteps
  import opened KernelInvariant
  import opened KernelPreservation
  import opened KernelRuns
  import opened KernelProgress
  import opened KernelHope
  import opened KernelReach
  import opened KernelWork
  import opened KernelSearch
  import opened KernelPublishing
  import opened KernelScenario

  // ---------------------------------------------------------------- the last process exits

  /**
   One hart and one user process are enough: the process is created, runs and exits, and the
   hart looks for another one under trap_print_lock without any hope.
   */
  lemma ExitLeavesNoHope(s: State, args: Arguments) returns (t: State)
    requires Init(s) && |s.harts| == 1 && !args.kernel
    ensures Reaches(s, t) && |t.harts| == 1 && Seeks(t.harts[0]) && !Hopeful(t)
  {
    hide Inv, Init;
    var u := FirstEntered(s, 0, args);
    var v := UserTraps(u, 0, SYSCALL_EXIT, EcallFromUser);
    ReachesOn(s, u, v);
    t := Dispatched(v, 0);
    ReachesOn(s, v, t);
    assert t.harts[0].loc == Destroying(DestroyLock);
  }

  // ---------------------------------------------------------------- equal pointers

  /**
   Two harts are enough for equal pointers: one gives up its interrupted process, and before
   it clears its pointer the other one picks that process.
   */
  lemma PointersCanBeEqual(s: State, args: Arguments) returns (t: State)
    requires Init(s) && |s.harts| == 2 && !args.kernel
    ensures Reaches(s, t) && |t.harts| == 2
    ensures t.harts[0].current.Some? && t.harts[0].current == t.harts[1].current
  {
    hide Inv, Init, OnlySlot;
    var u := FirstEntered(s, 0, args);
    var v := UserTraps(u, 0, SYSCALL_YIELD, Timer);
    ReachesOn(s, u, v);
    var w := Dispatched(v, 0);
    ReachesOn(s, v, w);
    var x := GivenUp(w, 0);
    ReachesOn(s, w, x);
    var y := IoSettled(x, 1);
    ReachesOn(s, x, y);
    t := OnlyPicked(y, 1, Runnable, false);
    ReachesOn(s, y, t);
  }

  // ---------------------------------------------------------------- processes_lock is lost

  /**
   From every start any hart can create a process in every slot and then one more: it panics
   with processes_lock held.
   */
  lemma LockGetsLost(s: State, f: nat, args: Arguments) returns (t: State)
    requires Init(s) && f < |s.harts|
    ensures Reaches(s, t) && |t.harts| == |s.harts| && t.harts[f].loc == Panicked(NoSlotLeft)
    ensures LockIsLost(t) && !Entering(t)
  {
    StartsBooting(s, f);
    hide Inv, Init, FilledUpTo;
    var u := AllCreated(s, f, 0, args);
    var v := AtScan(u, f, args);
    ReachesOn(s, u, v);
    var w := ScannedTo(v, f, 0, PROCESSES_MAXIMUM, args);
    ReachesOn(s, v, w);
    TableIsFull(w.slots);
    t := ScanMoved(w, f, PROCESSES_MAXIMUM, args);
    ReachesOn(s, w, t);
    assert KeepsLock(t.harts[f], t.slots);
  }

  lemma TableIsFull(slots: seq<Slot>)
    requires FilledUpTo(slots, PROCESSES_MAXIMUM)
    ensures |slots| == PROCESSES_MAXIMUM
  {
  }

  // ---------------------------------------------------------------- an instruction is lost

  /** Step `i` is the last trap of process `p` before state `j`. */
  ghost predicate LastTrap(run: seq<State>, moves: seq<(nat, Action)>, i: nat, j: nat, p: nat, cause: Cause)
    requires IsRun(run, moves)
  {
    && i < j <= |moves| && p < PROCESSES_MAXIMUM
    && TrapsAt(run, moves, i, p) && Undisturbed(run, moves, p, i + 1, j) && moves[i].1 == Trap(cause)
  }

  /** The process has the context of a trap of this cause. */
  ghost predicate HasTrapped(s: State, p: nat, cause: Cause) {
    && p < |s.slots| == PROCESSES_MAXIMUM && s.slots[p].state != Unused
    && s.slots[p].origin.Trapped? && s.slots[p].origin.cause == cause
  }

  /** A process that has trapped has a last trap behind it. */
  lemma {:induction false} TrapBehind(run: seq<State>, moves: seq<(nat, Action)>, j: nat, p: nat, cause: Cause)
    returns (i: nat)
    requires FromStart(run, moves) && j < |run| && HasTrapped(run[j], p, cause)
    ensures LastTrap(run, moves, i, j, p, cause)
  {
    assert j > 0;
    StepBehind(run, moves, j - 1, p, cause);
    if TrapsAt(run, moves, j - 1, p) {
      i := j - 1;
    } else {
      hide Init, IsMove, TrapsAt, CreatedAt, HasTrapped;
      i := TrapBehind(run, moves, j - 1, p, cause);
    }
  }

  /** A process that has trapped did so in the last step, or had done so before. */
  lemma StepBehind(run: seq<State>, moves: seq<(nat, Action)>, k: nat, p: nat, cause: Cause)
    requires FromStart(run, moves) && k < |moves| && HasTrapped(run[k + 1], p, cause)
    ensures if TrapsAt(run, moves, k, p) then moves[k].1 == Trap(cause)
            else IsMove(run, moves, k) && !CreatedAt(run, moves, k, p) && HasTrapped(run[k], p, cause)
  {
    InitEstablishesInv(run[0]);
    InvAlong(run, moves, k);
    assert IsMove(run, moves, k);
    hide Inv, Init, Exec, IsTrapOf, IsCreationOf;
    if TrapsAt(run, moves, k, p) {
      TrapIsRecorded(run[k], moves[k].0, moves[k].1, p);
    } else {
      NotJustCreated(run[k], moves[k].0, moves[k].1, p);
    }
  }

  lemma TrapIsRecorded(s: State, g: nat, a: Action, p: nat)
    requires Inv(s) && Possible(s, g, a) && p < PROCESSES_MAXIMUM && IsTrapOf(s.harts[g], a, p)
    ensures After(s, g, a).slots[p].origin.Trapped? && a == Trap(After(s, g, a).slots[p].origin.cause)
  {
  }

  /** A process with the context of a trap was not created in this step. */
  lemma NotJustCreated(s: State, g: nat, a: Action, p: nat)
    requires Inv(s) && Possible(s, g, a) && p < PROCESSES_MAXIMUM && !IsTrapOf(s.harts[g], a, p)
    requires var q := After(s, g, a).slots[p];
      q.state != Unused && q.origin.Trapped?
    ensures !IsCreationOf(s.harts[g], a, p)
    ensures s.slots[p].state != Unused && s.slots[p].origin == After(s, g, a).slots[p].origin
  {
    StepAndSlot(s, g, a, p);
    StepKeepsInv(s, g, a);
    var t := After(s, g, a);
    assert SlotFits(p, t.slots[p], t.exits);
    if IsCreationOf(s.harts[g], a, p) {
      CreationIsRecorded(s, g, a, p);
    }
    hide Inv, Exec, IsTrapOf;
  }

  lemma CreationIsRecorded(s: State, g: nat, a: Action, p: nat)
    requires Inv(s) && Possible(s, g, a) && p < PROCESSES_MAXIMUM && IsCreationOf(s.harts[g], a, p)
    ensures After(s, g, a).slots[p].origin.Created?
  {
    var x := s.harts[g];
    LateCreateSteps(x, p, s.locks, s.slots);
    assert Exec(x, g, s.locks, s.slots, s.exits, a) == CreateStep(x, CreateInit(p), s.locks, s.slots);
    hide Inv, Exec, CreateStep;
  }

  /** The process in slot 0, interrupted by the timer, is on the point of being entered again. */
  ghost predicate ReadyToReturn(s: State, f: nat) {
    && f < |s.harts| && s.harts[f].loc == SwitchingOn(OnRestore) && AtMain(s.harts[f])
    && s.harts[f].current == Some(0) && OnlySlot(s.slots, Running, false) && TrappedBy(s.slots, Timer)
  }

  lemma TimerComesBack(s: State, f: nat, args: Arguments) returns (t: State)
    requires Init(s) && f < |s.harts| && !args.kernel
    ensures Reaches(s, t) && Inv(t) && ReadyToReturn(t, f)
  {
    hide Inv, Init, TrappedBy, OthersBoot;
    var u := FirstEntered(s, f, args);
    var v := UserTraps(u, f, SYSCALL_YIELD, Timer);
    ReachesOn(s, u, v);
    var w := Dispatched(v, f);
    ReachesOn(s, v, w);
    var x := GivenUp(w, f);
    ReachesOn(s, w, x);
    TrappedStill(w.slots, x.slots, Timer);
    t := PickedAgain(x, f);
    ReachesOn(s, x, t);
  }

  lemma TrappedStill(slots: seq<Slot>, after: seq<Slot>, cause: Cause)
    requires TrappedBy(slots, cause) && |after| == |slots| && after[0].origin == slots[0].origin
    ensures TrappedBy(after, cause)
  {
  }

  /** The only process, just given up, is picked by the same hart in the same trap. */
  lemma PickedAgain(s: State, f: nat) returns (t: State)
    requires Inv(s) && f < |s.harts| && s.harts[f].phases == Phases(Held, Out, Out) && !s.locks.processes.locked
    requires s.harts[f].loc == SwitchingOff(OffClear) && s.harts[f].current.Some?
    requires OnlySlot(s.slots, Runnable, false) && TrappedBy(s.slots, Timer)
    ensures Reaches(s, t) && Inv(t) && ReadyToReturn(t, f)
  {
    hide Inv;
    var v := PickedInTrap(s, f);
    TrappedStill(s.slots, v.slots, Timer);
    var w := Loaded(v, f);
    ReachesOn(s, v, w);
    TrappedStill(v.slots, w.slots, Timer);
    t := TrapLeft(w, f);
    ReachesOn(s, w, t);
  }

  lemma PickedInTrap(s: State, f: nat) returns (t: State)
    requires Inv(s) && f < |s.harts| && s.harts[f].phases == Phases(Held, Out, Out) && !s.locks.processes.locked
    requires s.harts[f].loc == SwitchingOff(OffClear) && s.harts[f].current.Some? && OnlySlot(s.slots, Runnable, false)
    ensures Reaches(s, t) && Inv(t) && f < |t.harts| && !t.locks.processes.locked
    ensures OnlySlot(t.slots, Running, false) && t.slots[0].origin == s.slots[0].origin
    ensures t.harts[f].loc == SwitchingOn(OnPick) && t.harts[f].current == Some(0) && t.harts[f].inTrap
    ensures t.harts[f].phases == Phases(Held, Out, Out)
  {
    InTrapWhenLeaving(s, f);
    hide Inv;
    var u := Searched(s, f, 0);
    PointsToSlot(u, f);
    OnlyOneToPick(s, u, f, Runnable, false);
    assert u.slots[0].origin == s.slots[0].origin;
    hide OthersSame, Picked, OnlySlot;
    t := PickEnded(u, f);
    ReachesOn(s, u, t);
  }

  lemma InTrapWhenLeaving(s: State, f: nat)
    requires Inv(s) && f < |s.harts| && s.harts[f].loc.SwitchingOff? && s.harts[f].current.Some?
    ensures s.harts[f].inTrap
  {
    assert Local(s.harts[f]);
  }

  lemma PickEnded(s: State, f: nat) returns (t: State)
    requires Inv(s) && f < |s.harts| && s.harts[f].phases.trapPrint == Held && s.harts[f].phases.processes == ClearOwner
    ensures Reaches(s, t) && Inv(t) && f < |t.harts| && t.slots == s.slots && !t.locks.processes.locked
    ensures SameButCalls(s.harts[f], t.harts[f]) && t.harts[f].phases == Phases(Held, Out, Out)
  {
    hide Inv, Spares;
    t := Ended(s, f);
  }

  /** trap_print_lock is released on the way out of the trap. */
  lemma TrapLeft(s: State, f: nat) returns (t: State)
    requires Inv(s) && f < |s.harts| && s.harts[f].phases == Phases(Held, Out, Out) && !s.locks.processes.locked
    requires s.harts[f].loc == SwitchingOn(OnDone) && s.harts[f].inTrap && s.harts[f].current == Some(0)
    requires |s.slots| == PROCESSES_MAXIMUM
    ensures Reaches(s, t) && Inv(t) && f < |t.harts| && t.slots == s.slots
    ensures t.harts[f].loc == SwitchingOn(OnRestore) && AtMain(t.harts[f]) && t.harts[f].current == Some(0)
  {
    LastOnSteps(s.harts[f], s.locks, s.slots, s.exits);
    hide Inv, OnStep, Spares;
    var u := Moved(s, f, Go);
    StaysFree(s, u, f);
    t := TrapCalmed(u, f);
    ReachesOn(s, u, t);
  }

  /** A run and one more step of hart `f`. */
  lemma OneMore(s: State, t: State, f: nat, run: seq<State>, moves: seq<(nat, Action)>)
    requires Leads(s, t, run, moves) && Possible(t, f, Go)
    ensures IsRun(run + [After(t, f, Go)], moves + [(f, Go)])
  {
    var all, done := run + [After(t, f, Go)], moves + [(f, Go)];
    forall i | 0 <= i < |done|
      ensures IsMove(all, done, i)
    {
      if i < |moves| {
        assert IsMove(run, moves, i);
      }
    }
  }

  /**
   From every start there is a run in which a user process is interrupted by the timer in step `i`
   and, when it is entered next in step `j`, continues 4 bytes behind the instruction that it was
   interrupted at: that instruction is never executed.
   */
  lemma InstructionIsLost(s: State, f: nat, args: Arguments)
    returns (run: seq<State>, moves: seq<(nat, Action)>, i: nat, j: nat)
    requires Init(s) && f < |s.harts| && !args.kernel
    ensures FromStart(run, moves) && run[0] == s && j < |moves| && LastTrap(run, moves, i, j, 0, Timer)
    ensures Enters(run[j], moves[j].0, moves[j].1, 0) && moves[j].0 < |run[j + 1].harts|
    ensures var x, y := run[i].harts[moves[i].0], run[j + 1].harts[moves[j].0];
      y.regs.pc == AddWord(x.regs.pc, 4) && y.regs.pc != ArchitecturalPc(x.regs.pc, Timer)
  {
    var t := TimerComesBack(s, f, args);
    EnabledIsPossible(t, f, Go);
    hide Inv, Init;
    var first, begun :| Leads(s, t, first, begun);
    OneMore(s, t, f, first, begun);
    run, moves, j := first + [After(t, f, Go)], begun + [(f, Go)], |begun|;
    assert run[j] == t && run[0] == s;
    i := TrapBehind(run, moves, j, 0, Timer);
    InstructionLost(run, moves, i, j);
  }

  lemma InstructionLost(run: seq<State>, moves: seq<(nat, Action)>, i: nat, j: nat)
    requires FromStart(run, moves) && j < |moves| && LastTrap(run, moves, i, j, 0, Timer)
    requires Enters(run[j], moves[j].0, moves[j].1, 0) && !run[j].slots[0].kernel
    ensures moves[j].0 < |run[j + 1].harts|
    ensures var x, y := run[i].harts[moves[i].0], run[j + 1].harts[moves[j].0];
      y.regs.pc == AddWord(x.regs.pc, 4) && y.regs.pc != ArchitecturalPc(x.regs.pc, Timer)
  {
    ContextIsPreserved(run, moves, i, j, 0);
    PcIsRightExactlyFor(run, moves, i, j, 0);
    InitEstablishesInv(run[0]);
    OriginIsKept(run, moves, 0, i + 1, j);
    InvAlong(run, moves, i);
    assert IsMove(run, moves, i);
    StepAndSlot(run[i], moves[i].0, moves[i].1, 0);
  }
}
