/** What becomes of a process that traps, over whole runs: it waits again, it dies, or its hart panics. */
module KernelFate {
  import opened Prelude
  import opened KernelState
  import opened KernelSteps
  import opened KernelInvariant
  import opened KernelPreservation
  import opened KernelRuns
  import opened KernelProgress

  datatype Fate = Waits | Dies | Panics

  /**
   What a trap is to lead to. An exception of kernel code is a panic. A user process dies of an
   exception other than an ecall, of a software interrupt, and of its exit call, number 0x0F.
   */
  function FateOf(cause: Cause, kernel: bool, a0: Word): Fate {
    if kernel then
      if cause == Software || cause == Timer || cause == External then Waits else Panics
    else if cause == Software || cause == OtherException || (cause == EcallFromUser && a0 == 0x0F) then Dies
    else Waits
  }

  /** handle_trap has yet to decide about the trap. */
  predicate Undecided(x: Hart) {
    x.loc == Trapping(TrapLock) || x.loc == Trapping(TrapDispatch)
  }

  /** Where handle_trap is to go on with the trap of hart `x`; 0xAA is the number of the putchar call. */
  function TrapLeadsTo(x: Hart): Loc {
    match FateOf(x.cause, x.wasKernel, x.frame.a0)
    case Panics => Panicked(FatalKernelTrap)
    case Dies => Destroying(DestroyLock)
    case Waits =>
      if x.cause == EcallFromUser && x.frame.a0 == 0xAA then Trapping(TrapPutchar) else SwitchingOff(OffEntry)
  }

  /** The classification in handle_trap, with handle_syscall, is the one that is wanted. */
  lemma DecisionIsFate(x: Hart)
    requires x.current.Some?
    ensures Dispatch(x.cause, x.wasKernel, x.current.Some?, x.frame.a0) == TrapLeadsTo(x)
  {
  }

  /** handle_trap at its decision. */
  lemma DecisionStep(x: Hart, locks: Locks)
    requires x.current.Some?
    ensures TrapStep(x, TrapDispatch, locks) ==
      if TrapLeadsTo(x).Panicked? then
        Effect(Release(x, TrapPrint, TrapLeadsTo(x)).(inTrap := false), locks, None)
      else
        Move(x, locks, TrapLeadsTo(x))
  {
    DecisionIsFate(x);
    hide Dispatch, TrapLeadsTo;
  }

  // ---------------------------------------------------------------- on the way to the decision and from it

  /** Hart `x` has process `p` on its way to the given fate. */
  predicate Heads(x: Hart, p: nat, f: Fate) {
    && Owns(x) == Some(p)
    && match x.loc
       case Trapping(_) => if Undecided(x) then FateOf(x.cause, x.wasKernel, x.frame.a0) == f else f == Waits
       case SwitchingOff(_) => f == Waits
       case Destroying(_) => f == Dies
       case Panicked(reason) => f == Panics && reason == FatalKernelTrap
       case _ => false
  }

  /** Process `p` has come to its fate. */
  predicate Meets(y: Hart, p: nat, f: Fate, write: Option<(nat, Slot)>) {
    && write.Some? && write.value.0 == p
    && match f
       case Waits => write.value.1.state == Runnable && y.loc == SwitchingOff(OffClear)
       case Dies => write.value.1.state == Unused && y.loc == SwitchingOff(OffEntry)
       case Panics => false
  }

  /** A step of the hart keeps its process on the way, and RUNNING, or brings it to its fate. */
  predicate GoesOn(x: Hart, p: nat, f: Fate, y: Hart, write: Option<(nat, Slot)>) {
    || (Heads(y, p, f) && (write.Some? ==> write.value.0 == p && write.value.1.state == Running))
    || (!x.loc.Trapping? && Meets(y, p, f, write))
  }

  lemma TrapGoesOn(x: Hart, p: nat, f: Fate, locks: Locks)
    requires x.loc.Trapping? && Heads(x, p, f)
    ensures var e := TrapStep(x, x.loc.trap, locks);
      GoesOn(x, p, f, e.hart, e.write)
  {
    hide FateOf;
    match x.loc.trap
    case TrapLock => TrapLockGoesOn(x, p, f, locks);
    case TrapDispatch =>
      DecisionStep(x, locks);
      hide TrapStep;
    case TrapPutchar => PutcharGoesOn(x, p, f, locks);
    case TrapPutcharDone => PutcharDoneGoesOn(x, p, f, locks);
  }

  lemma TrapLockGoesOn(x: Hart, p: nat, f: Fate, locks: Locks)
    requires x.loc == Trapping(TrapLock) && Heads(x, p, f)
    ensures GoesOn(x, p, f, TrapStep(x, TrapLock, locks).hart, TrapStep(x, TrapLock, locks).write)
  {
    assert TrapStep(x, TrapLock, locks) ==
      Effect(Acquire(x, TrapPrint, Trapping(TrapDispatch)).(inTrap := true), locks, None);
    hide TrapStep, FateOf;
  }

  lemma PutcharGoesOn(x: Hart, p: nat, f: Fate, locks: Locks)
    requires x.loc == Trapping(TrapPutchar) && Heads(x, p, f)
    ensures GoesOn(x, p, f, TrapStep(x, TrapPutchar, locks).hart, TrapStep(x, TrapPutchar, locks).write)
  {
    assert TrapStep(x, TrapPutchar, locks) == Effect(Acquire(x, Io, Trapping(TrapPutcharDone)), locks, None);
    hide TrapStep, FateOf;
  }

  lemma PutcharDoneGoesOn(x: Hart, p: nat, f: Fate, locks: Locks)
    requires x.loc == Trapping(TrapPutcharDone) && Heads(x, p, f)
    ensures GoesOn(x, p, f, TrapStep(x, TrapPutcharDone, locks).hart, TrapStep(x, TrapPutcharDone, locks).write)
  {
    var y := x.(loc := SwitchingOff(OffEntry), frame := x.frame.(a0 := SignExtendInt(x.frame.a1)));
    assert TrapStep(x, TrapPutcharDone, locks) == Effect(y, locks, None);
    hide TrapStep, FateOf;
  }

  lemma DestroyGoesOn(x: Hart, p: nat, f: Fate, locks: Locks, slots: seq<Slot>)
    requires |slots| == PROCESSES_MAXIMUM && x.loc.Destroying? && Heads(x, p, f) && p < PROCESSES_MAXIMUM
    requires slots[p].state == Running && (x.loc.destroy in {DestroyId, DestroyState} ==> x.old_ < PROCESSES_MAXIMUM)
    ensures var e := DestroyStep(x, x.loc.destroy, locks, slots);
      GoesOn(x, p, f, e.hart, e.write)
  {
    DestroySteps(x, p, locks, slots);
    hide DestroyStep, FateOf;
  }

  lemma OffGoesOn(x: Hart, p: nat, f: Fate, locks: Locks, slots: seq<Slot>)
    requires |slots| == PROCESSES_MAXIMUM && x.loc.SwitchingOff? && Heads(x, p, f) && p < PROCESSES_MAXIMUM
    requires slots[p].state == Running
    ensures var e := OffStep(x, x.loc.off, locks, slots);
      GoesOn(x, p, f, e.hart, e.write)
  {
    hide FateOf, GoesOn;
    OffLeads(x, x.loc.off, p, locks, slots);
    hide OffStep;
    var e := OffStep(x, x.loc.off, locks, slots);
    OffArrives(x, e.hart, p, f, e.write);
  }

  lemma OffArrives(x: Hart, y: Hart, p: nat, f: Fate, write: Option<(nat, Slot)>)
    requires x.loc.SwitchingOff? && f == Waits && y.current == Some(p) && y.loc.SwitchingOff?
    requires write.Some? ==> write.value.0 == p
    requires if y.loc.off == OffClear then write.Some? && write.value.1.state == Runnable
             else write.Some? ==> write.value.1.state == Running
    ensures GoesOn(x, p, f, y, write)
  {
    hide FateOf, Undecided;
  }

  lemma OffLeads(x: Hart, at: OffAt, p: nat, locks: Locks, slots: seq<Slot>)
    requires |slots| == PROCESSES_MAXIMUM && x.current == Some(p) && p < PROCESSES_MAXIMUM && at != OffClear
    requires slots[p].state == Running
    ensures var e := OffStep(x, at, locks, slots);
      && e.hart.current == Some(p) && e.hart.loc.SwitchingOff? && (e.hart.loc.off == OffClear <==> at == OffPublish)
      && (e.write.Some? ==> e.write.value.0 == p)
      && (if at == OffPublish then e.write.Some? && e.write.value.1.state == Runnable
          else e.write.Some? ==> e.write.value.1.state == Running)
  {
    hide AddWord, PidNext;
    match at
    case OffEntry => assert OffStep(x, OffEntry, locks, slots).write == None;
    case OffSave => assert OffStep(x, OffSave, locks, slots).hart == x.(loc := SwitchingOff(OffPc));
    case OffPc => assert OffStep(x, OffPc, locks, slots).hart == x.(loc := SwitchingOff(OffNextId));
    case OffNextId => assert OffStep(x, OffNextId, locks, slots).write == None;
    case OffPublish => assert OffStep(x, OffPublish, locks, slots).hart == x.(loc := SwitchingOff(OffClear));
  }

  lemma CallGoesOn(x: Hart, p: nat, f: Fate, id: nat, locks: Locks)
    requires Local(x) && !x.phases.AllSettled() && Heads(x, p, f)
    ensures GoesOn(x, p, f, LockStep(x, locks, id, CallOf(x.phases)).0, None)
  {
    LockStepInHart(x, id, locks);
    hide LockStep, Local, InRange, FateOf;
  }

  lemma HartGoesOn(x: Hart, p: nat, f: Fate, id: nat, locks: Locks, slots: seq<Slot>, exits: Exits, a: Action)
    requires View(x, slots, exits) && Enabled(x, slots, a) && Heads(x, p, f)
    ensures var e := Exec(x, id, locks, slots, exits, a);
      GoesOn(x, p, f, e.hart, e.write)
  {
    assert p < PROCESSES_MAXIMUM && slots[p].state == Running;
    hide TrapStep, DestroyStep, OffStep, FateOf, GoesOn, InterruptsFit, PhasesFit, SlotFits, ContextFits, LockStep;
    if !x.phases.AllSettled() {
      CallGoesOn(x, p, f, id, locks);
    } else if x.phases.io == Held || x.loc.Panicked? || a == Print {
      CallStarts(x, p, f, id, locks, slots, exits, a);
    } else if x.loc.Trapping? {
      TrapGoesOn(x, p, f, locks);
    } else if x.loc.Destroying? {
      DestroyGoesOn(x, p, f, locks, slots);
    } else {
      OffGoesOn(x, p, f, locks, slots);
    }
  }

  /** A call of printf, or the end of one. */
  lemma CallStarts(x: Hart, p: nat, f: Fate, id: nat, locks: Locks, slots: seq<Slot>, exits: Exits, a: Action)
    requires |slots| == PROCESSES_MAXIMUM && InRange(x) && Enabled(x, slots, a) && Heads(x, p, f)
    requires x.phases.AllSettled() && (x.phases.io == Held || x.loc.Panicked? || a == Print)
    ensures var e := Exec(x, id, locks, slots, exits, a);
      GoesOn(x, p, f, e.hart, e.write)
  {
    hide MainStep, LockStep, FateOf, InRange;
  }

  /** Another hart leaves the slot alone. */
  lemma OtherLeavesSlot(s: State, g: nat, a: Action, h: nat, p: nat)
    requires Inv(s) && Possible(s, g, a) && h < |s.harts| && h != g && Owns(s.harts[h]) == Some(p)
    ensures var t := After(s, g, a);
      |t.harts| == |s.harts| && t.harts[h] == s.harts[h] && p < |s.slots| == |t.slots| && t.slots[p] == s.slots[p]
  {
    var x := s.harts[g];
    assert HartSlotFits(s.harts[h], s.slots, s.exits) && Local(s.harts[h]);
    assert Local(x) && HartSlotFits(x, s.slots, s.exits);
    ExecGood(x, g, s.locks, s.slots, s.exits, a);
    assert AtMostOneOwner(s);
    hide Exec, Local, Inv, HartSlotFits, SlotFits;
  }

  /** One step of any hart, while hart `h` has process `p` on its way. */
  lemma StepGoesOn(s: State, g: nat, a: Action, h: nat, p: nat, f: Fate)
    requires Inv(s) && Possible(s, g, a) && h < |s.harts| && Heads(s.harts[h], p, f)
    ensures var t := After(s, g, a);
      && h < |t.harts| && p < |s.slots| == |t.slots|
      && (|| (Heads(t.harts[h], p, f) && t.slots[p].state == Running)
          || (f == Waits && t.slots[p].state == Runnable && t.harts[h].loc == SwitchingOff(OffClear))
          || (f == Dies && t.slots[p].state == Unused && t.harts[h].loc == SwitchingOff(OffEntry)))
      && (s.harts[h].loc.Trapping? ==> Heads(t.harts[h], p, f))
  {
    var x := s.harts[h];
    assert Local(x) && HartSlotFits(x, s.slots, s.exits);
    assert p < |s.slots| && s.slots[p].state == Running;
    if g == h {
      HartGoesOn(x, p, f, h, s.locks, s.slots, s.exits, a);
    } else {
      OtherLeavesSlot(s, g, a, h, p);
    }
    hide Inv, Exec, Local, HartSlotFits, FateOf;
  }

  // ---------------------------------------------------------------- over runs

  /** In state `k` process `p` is still RUNNING, or hart `h` is still in handle_trap. */
  ghost predicate StillGoing(run: seq<State>, k: nat, h: nat, p: nat)
    requires k < |run|
  {
    || (p < |run[k].slots| && run[k].slots[p].state == Running)
    || (h < |run[k].harts| && run[k].harts[h].loc.Trapping?)
  }

  /** The fate of the process that traps in step `i`. */
  ghost function FateAt(run: seq<State>, moves: seq<(nat, Action)>, i: nat, p: nat): Fate
    requires |run| == |moves| + 1 && i < |moves| && TrapsAt(run, moves, i, p) && p < |run[i].slots|
  {
    FateOf(moves[i].1.cause, run[i].slots[p].kernel, run[i].harts[moves[i].0].regs.a0)
  }

  lemma TrapHeads(run: seq<State>, moves: seq<(nat, Action)>, i: nat, p: nat)
    requires IsRun(run, moves) && i < |moves| && Inv(run[i]) && p < PROCESSES_MAXIMUM && TrapsAt(run, moves, i, p)
    ensures p < |run[i].slots| && moves[i].0 < |run[i + 1].harts|
    ensures Heads(run[i + 1].harts[moves[i].0], p, FateAt(run, moves, i, p))
  {
    assert Local(run[i].harts[moves[i].0]);
    hide Inv, FateOf;
  }

  lemma {:induction false} HeadsAlong(run: seq<State>, moves: seq<(nat, Action)>, i: nat, j: nat, p: nat)
    requires FromStart(run, moves) && i < j <= |moves| && p < PROCESSES_MAXIMUM && TrapsAt(run, moves, i, p)
    requires forall k :: i < k <= j ==> StillGoing(run, k, moves[i].0, p)
    ensures p < |run[i].slots| && moves[i].0 < |run[j].harts|
    ensures Heads(run[j].harts[moves[i].0], p, FateAt(run, moves, i, p))
  {
    InitEstablishesInv(run[0]);
    InvAlong(run, moves, i);
    hide Inv, Init, FateOf;
    if j == i + 1 {
      TrapHeads(run, moves, i, p);
    } else {
      HeadsAlong(run, moves, i, j - 1, p);
      InvAlong(run, moves, j - 1);
      assert IsMove(run, moves, j - 1);
      hide Heads;
      StepGoesOn(run[j - 1], moves[j - 1].0, moves[j - 1].1, moves[i].0, p, FateAt(run, moves, i, p));
      assert StillGoing(run, j, moves[i].0, p);
    }
  }

  /** A kernel process makes no ecall. */
  lemma KernelTraps(run: seq<State>, moves: seq<(nat, Action)>, i: nat, p: nat)
    requires IsRun(run, moves) && i < |moves| && Inv(run[i]) && p < PROCESSES_MAXIMUM && TrapsAt(run, moves, i, p)
    ensures p < |run[i].slots| && (run[i].slots[p].kernel ==> moves[i].1.cause != EcallFromUser)
  {
    assert IsMove(run, moves, i);
    hide Inv, Exec;
  }

  /** What step `j` makes of the trap of step `i`, if the process is still on its way before. */
  lemma FateAfter(run: seq<State>, moves: seq<(nat, Action)>, i: nat, j: nat, p: nat)
    requires FromStart(run, moves) && i < j < |moves| && p < PROCESSES_MAXIMUM && TrapsAt(run, moves, i, p)
    requires forall k :: i < k <= j ==> StillGoing(run, k, moves[i].0, p)
    ensures p < |run[i].slots| && p < |run[j + 1].slots|
    ensures moves[i].0 < |run[j].harts| && moves[i].0 < |run[j + 1].harts|
    ensures run[i].slots[p].kernel ==> moves[i].1.cause != EcallFromUser
    ensures var f, t, h := FateAt(run, moves, i, p), run[j + 1], moves[i].0;
      || (Heads(t.harts[h], p, f) && t.slots[p].state == Running)
      || (f == Waits && t.slots[p].state == Runnable && t.harts[h].loc == SwitchingOff(OffClear))
      || (f == Dies && t.slots[p].state == Unused && t.harts[h].loc == SwitchingOff(OffEntry))
    ensures run[j].harts[moves[i].0].loc.Trapping? ==>
      Heads(run[j + 1].harts[moves[i].0], p, FateAt(run, moves, i, p))
  {
    InitEstablishesInv(run[0]);
    InvAlong(run, moves, i);
    InvAlong(run, moves, j);
    KernelTraps(run, moves, i, p);
    hide Inv, Init, Exec, Heads, FateOf, StillGoing;
    HeadsAlong(run, moves, i, j, p);
    assert IsMove(run, moves, j);
    StepGoesOn(run[j], moves[j].0, moves[j].1, moves[i].0, p, FateAt(run, moves, i, p));
  }

  /**
   What a trap does to its process, over whole runs and any interleaving: when the process that
   traps in step `i` leaves RUNNING for the first time, in step `j`, it becomes UNUSED if and only
   if it is a user process and the trap is an exception other than an ecall, a software interrupt,
   or an ecall with the number of the exit call; otherwise it becomes RUNNABLE. A process in kernel
   mode never leaves RUNNING after an exception.
   */
  lemma TrapEndsProcessExactlyIf(run: seq<State>, moves: seq<(nat, Action)>, i: nat, j: nat, p: nat)
    requires FromStart(run, moves) && i < j < |moves| && p < PROCESSES_MAXIMUM && TrapsAt(run, moves, i, p)
    requires forall k :: i < k <= j ==> p < |run[k].slots| && run[k].slots[p].state == Running
    requires p < |run[j + 1].slots| && run[j + 1].slots[p].state != Running
    ensures p < |run[i].slots|
    ensures var kernel, cause, a0 := run[i].slots[p].kernel, moves[i].1.cause, run[i].harts[moves[i].0].regs.a0;
      && (run[j + 1].slots[p].state == Unused <==>
          !kernel && (cause == OtherException || cause == Software || (cause == EcallFromUser && a0 == 0x0F)))
      && (run[j + 1].slots[p].state == Runnable <==>
          if kernel then cause != OtherException
          else cause == Timer || cause == External || (cause == EcallFromUser && a0 != 0x0F))
  {
    assert forall k :: i < k <= j ==> StillGoing(run, k, moves[i].0, p);
    FateAfter(run, moves, i, j, p);
  }

  /**
   Where handle_trap goes on: when the hart that took a trap of process `p` in step `i` leaves
   handle_trap, in step `j`, it panics if and only if the trap is an exception in kernel mode,
   it destroys the process in the cases above, and it switches to another process in all others.
   */
  lemma TrapPanicsExactlyIf(run: seq<State>, moves: seq<(nat, Action)>, i: nat, j: nat, p: nat)
    requires FromStart(run, moves) && i < j < |moves| && p < PROCESSES_MAXIMUM && TrapsAt(run, moves, i, p)
    requires forall k :: i < k <= j ==> moves[i].0 < |run[k].harts| && run[k].harts[moves[i].0].loc.Trapping?
    requires moves[i].0 < |run[j + 1].harts| && !run[j + 1].harts[moves[i].0].loc.Trapping?
    ensures p < |run[i].slots|
    ensures var kernel, cause, a0 := run[i].slots[p].kernel, moves[i].1.cause, run[i].harts[moves[i].0].regs.a0;
      var to := run[j + 1].harts[moves[i].0].loc;
      && (to == Panicked(FatalKernelTrap) <==> kernel && cause == OtherException)
      && (to.Destroying? <==>
          !kernel && (cause == OtherException || cause == Software || (cause == EcallFromUser && a0 == 0x0F)))
      && (to.Panicked? || to.Destroying? || to.SwitchingOff?)
  {
    assert forall k :: i < k <= j ==> StillGoing(run, k, moves[i].0, p);
    FateAfter(run, moves, i, j, p);
  }
}
