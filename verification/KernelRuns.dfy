/** What holds in every run of the kernel, for any number of harts and every interleaving. */
module KernelRuns {
  import opened Prelude
  import opened KernelState
  import opened KernelSteps
  import opened KernelInvariant
  import opened KernelPreservation

  // ---------------------------------------------------------------- runs

  /** Every hart is in kernel_main with traps off; nothing is locked and no process exists. */
  ghost predicate Init(s: State) {
    && |s.slots| == PROCESSES_MAXIMUM
    && (forall p :: 0 <= p < |s.slots| ==> s.slots[p].state == Unused)
    && (forall l: Lock :: !s.locks.Get(l).locked)
    && (forall h :: 0 <= h < |s.harts| ==> Starting(s.harts[h]))
  }

  predicate Starting(x: Hart) {
    && x.loc == Boot && x.phases == Phases(Out, Out, Out)
    && x.depth == 0 && !x.sie && x.current == None && !x.inTrap
  }

  ghost predicate Possible(s: State, h: nat, a: Action) {
    && |s.slots| == PROCESSES_MAXIMUM && h < |s.harts|
    && InRange(s.harts[h]) && Enabled(s.harts[h], s.slots, a)
    && var e := Exec(s.harts[h], h, s.locks, s.slots, s.exits, a);
    e.write.Some? ==> e.write.value.0 < |s.slots|
  }

  ghost function After(s: State, h: nat, a: Action): State
    requires Possible(s, h, a)
  {
    Apply(s, h, Exec(s.harts[h], h, s.locks, s.slots, s.exits, a))
  }

  /** In step `i` of a run, hart `moves[i].0` does `moves[i].1`. */
  ghost predicate IsRun(run: seq<State>, moves: seq<(nat, Action)>) {
    && |run| == |moves| + 1
    && (forall i :: 0 <= i < |moves| ==> IsMove(run, moves, i))
  }

  ghost predicate IsMove(run: seq<State>, moves: seq<(nat, Action)>, i: nat)
    requires |run| == |moves| + 1 && i < |moves|
  {
    Possible(run[i], moves[i].0, moves[i].1) && run[i + 1] == After(run[i], moves[i].0, moves[i].1)
  }

  ghost predicate FromStart(run: seq<State>, moves: seq<(nat, Action)>) {
    IsRun(run, moves) && Init(run[0])
  }

  lemma InitEstablishesInv(s: State)
    requires Init(s)
    ensures Inv(s)
  {
    forall h | 0 <= h < |s.harts|
      ensures Local(s.harts[h]) && HartSlotFits(s.harts[h], s.slots, s.exits) && Owns(s.harts[h]) == None
      ensures forall l: Lock :: s.harts[h].phases.Get(l) == Out
    {
      assert Starting(s.harts[h]);
    }
  }

  /** Along any run the invariant that held at its first state holds at every state. */
  lemma {:induction false} InvAlong(run: seq<State>, moves: seq<(nat, Action)>, i: nat)
    requires IsRun(run, moves) && Inv(run[0]) && i < |run|
    ensures Inv(run[i])
  {
    if i > 0 {
      InvAlong(run, moves, i - 1);
      assert IsMove(run, moves, i - 1);
      StepKeepsInv(run[i - 1], moves[i - 1].0, moves[i - 1].1);
    }
  }

  /** In an invariant state every enabled action can be carried out: no access is out of range. */
  lemma EnabledIsPossible(s: State, h: nat, a: Action)
    requires Inv(s) && h < |s.harts| && Enabled(s.harts[h], s.slots, a)
    ensures Possible(s, h, a)
  {
    assert Local(s.harts[h]) && HartSlotFits(s.harts[h], s.slots, s.exits);
    ExecGood(s.harts[h], h, s.locks, s.slots, s.exits, a);
  }

  // ---------------------------------------------------------------- ownership

  /**
   A process is RUNNING exactly when some hart owns it, and then exactly one does, although
   the store that gives it up is made without a lock.
   */
  lemma RunningIffOwned(run: seq<State>, moves: seq<(nat, Action)>, i: nat, p: nat)
    requires FromStart(run, moves) && i < |run| && p < PROCESSES_MAXIMUM
    ensures |run[i].slots| == PROCESSES_MAXIMUM == 32
    ensures run[i].slots[p].state == Running <==> SomeoneOwns(run[i], p)
    ensures forall h, g | 0 <= h < |run[i].harts| && 0 <= g < |run[i].harts| ::
      Owns(run[i].harts[h]) == Some(p) && Owns(run[i].harts[g]) == Some(p) ==> h == g
  {
    InitEstablishesInv(run[0]);
    InvAlong(run, moves, i);
    var s := run[i];
    if SomeoneOwns(s, p) {
      var h :| 0 <= h < |s.harts| && Owns(s.harts[h]) == Some(p);
      assert HartSlotFits(s.harts[h], s.slots, s.exits);
    }
  }

  /**
   Two harts can have the same `current_process`, but only while one of them has just
   published that process and has yet to clear its pointer.
   */
  lemma SamePointerOnlyWhenLeaving(run: seq<State>, moves: seq<(nat, Action)>, i: nat, h: nat, g: nat)
    requires FromStart(run, moves) && i < |run| && h < |run[i].harts| && g < |run[i].harts| && h != g
    requires run[i].harts[h].current.Some? && run[i].harts[h].current == run[i].harts[g].current
    ensures run[i].harts[h].loc == SwitchingOff(OffClear) || run[i].harts[g].loc == SwitchingOff(OffClear)
  {
    hide SlotFits, InterruptsFit, ContextFits;
    InitEstablishesInv(run[0]);
    InvAlong(run, moves, i);
    var s := run[i];
    var x, y := s.harts[h], s.harts[g];
    assert Local(x) && Local(y);
    assert HartSlotFits(x, s.slots, s.exits) && HartSlotFits(y, s.slots, s.exits);
    assert Owns(x).Some? ==> Owns(x) != Owns(y);
    assert !(Inside(x.phases.Get(Processes)) && Inside(y.phases.Get(Processes)));
  }

  // ---------------------------------------------------------------- locks and interrupts

  /**
   Each lock has at most one holder, its word is set exactly while it has one, and its owner is the
   holder, or -1 when the holder is about to clear the word.
   */
  lemma MutualExclusion(run: seq<State>, moves: seq<(nat, Action)>, i: nat, l: Lock)
    requires FromStart(run, moves) && i < |run|
    ensures run[i].locks.Get(l).locked <==> SomeoneInside(run[i], l)
    ensures forall h, g | 0 <= h < |run[i].harts| && 0 <= g < |run[i].harts| ::
      Inside(run[i].harts[h].phases.Get(l)) && Inside(run[i].harts[g].phases.Get(l)) ==> h == g
    ensures forall h | 0 <= h < |run[i].harts| ::
      && (run[i].harts[h].phases.Get(l) == Held ==> run[i].locks.Get(l).owner == h)
      && (run[i].harts[h].phases.Get(l) == Unlock ==> run[i].locks.Get(l).owner == -1)
  {
    InitEstablishesInv(run[0]);
    InvAlong(run, moves, i);
  }

  /** The hart that holds the lock, if any. */
  ghost predicate HeldBy(s: State, l: Lock, holder: Option<nat>) {
    match holder
    case None => !SomeoneInside(s, l)
    case Some(h) => h < |s.harts| && Inside(s.harts[h].phases.Get(l))
  }

  /**
   In every step of a run each lock keeps its holder, or is taken by the hart that moves while
   nobody holds it, or is given up by that hart: a lock is one field that names its holder.
   */
  lemma LockIsPassedOn(run: seq<State>, moves: seq<(nat, Action)>, i: nat, l: Lock)
    returns (was: Option<nat>, now: Option<nat>)
    requires FromStart(run, moves) && i < |moves|
    ensures HeldBy(run[i], l, was) && HeldBy(run[i + 1], l, now)
    ensures now == was || (was == None && now == Some(moves[i].0)) || (was == Some(moves[i].0) && now == None)
  {
    MutualExclusion(run, moves, i, l);
    MutualExclusion(run, moves, i + 1, l);
    hide Exec, SomeoneInside;
    assert IsMove(run, moves, i);
    was, now := HolderIn(run[i], l), HolderIn(run[i + 1], l);
    PassedOn(run[i], run[i + 1], moves[i].0, l, was, now);
  }

  lemma PassedOn(s: State, t: State, g: nat, l: Lock, was: Option<nat>, now: Option<nat>)
    requires |t.harts| == |s.harts| && g < |s.harts|
    requires forall k :: 0 <= k < |s.harts| && k != g ==> t.harts[k] == s.harts[k]
    requires HeldBy(s, l, was) && HeldBy(t, l, now)
    requires forall h, k | 0 <= h < |s.harts| && 0 <= k < |s.harts| ::
      Inside(s.harts[h].phases.Get(l)) && Inside(s.harts[k].phases.Get(l)) ==> h == k
    requires forall h, k | 0 <= h < |t.harts| && 0 <= k < |t.harts| ::
      Inside(t.harts[h].phases.Get(l)) && Inside(t.harts[k].phases.Get(l)) ==> h == k
    ensures now == was || (was == None && now == Some(g)) || (was == Some(g) && now == None)
  {
    assert was.Some? && was.value != g ==> Inside(t.harts[was.value].phases.Get(l));
    assert now.Some? && now.value != g ==> Inside(s.harts[now.value].phases.Get(l));
  }

  ghost function HolderIn(s: State, l: Lock): (holder: Option<nat>)
    ensures HeldBy(s, l, holder)
  {
    if SomeoneInside(s, l) then
      var h :| 0 <= h < |s.harts| && Inside(s.harts[h].phases.Get(l));
      Some(h)
    else None
  }

  /**
   lock_depth counts the locks that a hart holds, acquires or releases; while it is positive
   traps are off; and traps are on nowhere but in process code outside every lock. The only
   panics a run can reach are a full process table and an exception in kernel code.
   */
  lemma TrapsOnOnlyInProcessCode(run: seq<State>, moves: seq<(nat, Action)>, i: nat, h: nat)
    requires FromStart(run, moves) && i < |run| && h < |run[i].harts|
    ensures var x := run[i].harts[h];
      && x.depth == x.phases.Count()
      && (x.depth > 0 ==> !x.sie)
      && (x.sie && !x.loc.Panicked? ==> x.loc == Proc && x.depth == 0)
      && (x.loc == Proc && x.depth == 0 ==> x.sie)
      && (x.loc.Panicked? ==>
            x.loc.reason == NoSlotLeft || (x.loc.reason == FatalKernelTrap && x.cause == OtherException))
  {
    InitEstablishesInv(run[0]);
    InvAlong(run, moves, i);
    assert Local(run[i].harts[h]);
  }

  /** From the first acquire to the last release: the depth is positive strictly between. */
  ghost predicate Bracket(run: seq<State>, h: nat, i: nat, j: nat) {
    && i + 1 < j < |run|
    && (forall k :: i <= k <= j ==> h < |run[k].harts|)
    && run[i].harts[h].depth == 0 && run[j].harts[h].depth == 0
    && (forall k :: i < k < j ==> run[k].harts[h].depth > 0)
  }

  /** What one step may do to a hart's interrupt bookkeeping. */
  predicate Restores(x: Hart, y: Hart) {
    && (x.depth == 0 && y.depth > 0 ==> y.before == x.sie)
    && (x.depth > 0 && y.depth > 0 ==> y.before == x.before)
    && (x.depth > 0 && y.depth == 0 ==> y.sie == x.before)
  }

  lemma LockStepInterrupts(x: Hart, locks: Locks, id: nat)
    requires !x.phases.AllSettled() && x.depth > 0 && !x.sie
    ensures Restores(x, LockStep(x, locks, id, CallOf(x.phases)).0)
  {
  }

  lemma ExecInterrupts(x: Hart, id: nat, locks: Locks, slots: seq<Slot>, exits: Exits, a: Action)
    requires View(x, slots, exits) && Enabled(x, slots, a)
    ensures Restores(x, Exec(x, id, locks, slots, exits, a).hart)
  {
    if x.phases.AllSettled() {
      ExecGood(x, id, locks, slots, exits, a);
    } else {
      LockStepInterrupts(x, locks, id);
    }
  }

  lemma MoveRestores(run: seq<State>, moves: seq<(nat, Action)>, k: nat, h: nat)
    requires IsRun(run, moves) && Inv(run[0]) && k < |moves| && h < |run[k].harts|
    ensures h < |run[k + 1].harts| && Restores(run[k].harts[h], run[k + 1].harts[h])
  {
    InvAlong(run, moves, k);
    assert IsMove(run, moves, k);
    var s := run[k];
    var g := moves[k].0;
    assert Local(s.harts[g]) && HartSlotFits(s.harts[g], s.slots, s.exits);
    ExecInterrupts(s.harts[g], g, s.locks, s.slots, s.exits, moves[k].1);
  }

  lemma {:induction false} BeforeIsKept(run: seq<State>, moves: seq<(nat, Action)>, h: nat, i: nat, j: nat, k: nat)
    requires IsRun(run, moves) && Inv(run[0]) && Bracket(run, h, i, j) && i < k < j
    ensures run[k].harts[h].before == run[i].harts[h].sie
  {
    MoveRestores(run, moves, k - 1, h);
    if k - 1 > i {
      BeforeIsKept(run, moves, h, i, j, k - 1);
    }
  }

  /**
   However acquires and releases are nested between them, the last release leaves the
   interrupt state that the hart had before the first acquire.
   */
  lemma LastReleaseRestoresInterrupts(run: seq<State>, moves: seq<(nat, Action)>, h: nat, i: nat, j: nat)
    requires FromStart(run, moves) && Bracket(run, h, i, j)
    ensures run[j].harts[h].sie == run[i].harts[h].sie
  {
    InitEstablishesInv(run[0]);
    MoveRestores(run, moves, j - 1, h);
    BeforeIsKept(run, moves, h, i, j, j - 1);
  }

  /**
   The traps that can come: process code outside every lock can be interrupted at any time, in
   either mode, because traps are on there; any exception can happen to it, but an ecall only in
   user mode. Nowhere else can a trap come.
   */
  lemma TrapsThatCanCome(run: seq<State>, moves: seq<(nat, Action)>, i: nat, h: nat, cause: Cause)
    requires FromStart(run, moves) && i < |run| && h < |run[i].harts|
    ensures var x := run[i].harts[h];
      Enabled(x, run[i].slots, Trap(cause)) <==>
      && x.loc == Proc && x.depth == 0
      && (cause != EcallFromUser || (x.current.Some? && x.current.value < |run[i].slots|
                                     && !run[i].slots[x.current.value].kernel))
  {
    InitEstablishesInv(run[0]);
    InvAlong(run, moves, i);
    var x := run[i].harts[h];
    assert Local(x) && HartSlotFits(x, run[i].slots, run[i].exits);
  }

  // ---------------------------------------------------------------- what is written to a slot

  /** UNUSED, READY, RUNNING, then RUNNABLE and RUNNING in turn, and back from RUNNING to UNUSED. */
  predicate LifeCycle(from: ProcessState, to: ProcessState) {
    || from == to
    || (from == Unused && to == Ready)
    || (from == Ready && to == Running)
    || (from == Running && to == Runnable)
    || (from == Runnable && to == Running)
    || (from == Running && to == Unused)
  }

  predicate IsCreationOf(x: Hart, a: Action, p: nat) {
    a.Go? && AtMain(x) && x.loc == Creating(CreateInit(p))
  }

  predicate IsTrapOf(x: Hart, a: Action, p: nat) {
    a.Trap? && x.current == Some(p)
  }

  predicate WriteFits(x: Hart, slots: seq<Slot>, a: Action, p: nat, q: Slot)
    requires p < |slots|
  {
    && LifeCycle(slots[p].state, q.state)
    && (!IsCreationOf(x, a, p) ==>
          && q.kernel == slots[p].kernel && q.satp == slots[p].satp
          && (!IsTrapOf(x, a, p) ==> q.origin == slots[p].origin)
          && (Owns(x) != Some(p) ==> q.frame == slots[p].frame)
          && (q.starts == slots[p].starts ||
              (x.loc == SwitchingOn(OnPick) && x.first && q.starts == slots[p].starts + 1)))
  }

  lemma EarlyWriteFits(x: Hart, locks: Locks, slots: seq<Slot>, exits: Exits)
    requires View(x, slots, exits) && AtMain(x) && (x.loc.Creating? || x.loc.Destroying? || x.loc.SwitchingOff?)
    ensures var e := MainStep(x, locks, slots, exits);
      e.write.Some? ==> e.write.value.0 < |slots| && WriteFits(x, slots, Go, e.write.value.0, e.write.value.1)
  {
  }

  lemma LateWriteFits(x: Hart, locks: Locks, slots: seq<Slot>, exits: Exits)
    requires View(x, slots, exits) && AtMain(x) && !(x.loc.Creating? || x.loc.Destroying? || x.loc.SwitchingOff?)
    ensures var e := MainStep(x, locks, slots, exits);
      e.write.Some? ==> e.write.value.0 < |slots| && WriteFits(x, slots, Go, e.write.value.0, e.write.value.1)
  {
  }

  /** What any step of any hart does to the slot of process `p`. */
  lemma StepAndSlot(s: State, h: nat, a: Action, p: nat)
    requires Inv(s) && Possible(s, h, a) && p < PROCESSES_MAXIMUM
    ensures WriteFits(s.harts[h], s.slots, a, p, After(s, h, a).slots[p])
  {
    var x := s.harts[h];
    assert Local(x) && HartSlotFits(x, s.slots, s.exits);
    if AtMain(x) {
      if x.loc.Creating? || x.loc.Destroying? || x.loc.SwitchingOff? {
        EarlyWriteFits(x, s.locks, s.slots, s.exits);
      } else {
        LateWriteFits(x, s.locks, s.slots, s.exits);
      }
    }
  }

  /** In every run each slot only goes through the life cycle of a process. */
  lemma SlotsFollowLifeCycle(run: seq<State>, moves: seq<(nat, Action)>, i: nat, p: nat)
    requires FromStart(run, moves) && i < |moves| && p < PROCESSES_MAXIMUM
    ensures |run[i].slots| == PROCESSES_MAXIMUM && |run[i + 1].slots| == PROCESSES_MAXIMUM
    ensures LifeCycle(run[i].slots[p].state, run[i + 1].slots[p].state)
    ensures run[i].slots[p].state == Unused && run[i + 1].slots[p].state == Ready ==> run[i + 1].slots[p].starts == 0
    ensures run[i + 1].slots[p].state == Runnable ==> run[i + 1].slots[p].starts == 1
    ensures run[i + 1].slots[p].state == Unused && run[i].slots[p].state == Running ==> run[i].slots[p].starts == 1
  {
    InitEstablishesInv(run[0]);
    InvAlong(run, moves, i);
    InvAlong(run, moves, i + 1);
    assert IsMove(run, moves, i);
    StepAndSlot(run[i], moves[i].0, moves[i].1, p);
    var s := run[i];
    var x := s.harts[moves[i].0];
    assert Local(x) && HartSlotFits(x, s.slots, s.exits);
    assert SlotFits(p, run[i + 1].slots[p], s.exits);
    if run[i + 1].slots[p].state == Unused && s.slots[p].state == Running {
      ExecGood(x, moves[i].0, s.locks, s.slots, s.exits, moves[i].1);
      assert Owns(x) == Some(p);
    }
  }

  /**
   The id of a process in use is its index, with one exception: Process_destroy_current
   stores -1 as the id while the process is still RUNNING. So the id is wrong exactly while
   a hart stands between those two stores.
   */
  lemma IdIsIndex(run: seq<State>, moves: seq<(nat, Action)>, i: nat, p: nat)
    requires FromStart(run, moves) && i < |run| && p < PROCESSES_MAXIMUM
    ensures |run[i].slots| == PROCESSES_MAXIMUM
    ensures run[i].slots[p].state != Unused ==>
      (run[i].slots[p].id == p <==>
       !exists h :: 0 <= h < |run[i].harts| && BetweenStores(run[i].harts[h], p))
    ensures run[i].slots[p].state != Unused ==> run[i].slots[p].id == p || run[i].slots[p].id == 255
  {
    InitEstablishesInv(run[0]);
    InvAlong(run, moves, i);
    var s := run[i];
    if s.slots[p].state == Running {
      assert SomeoneOwns(s, p);
      var h :| 0 <= h < |s.harts| && Owns(s.harts[h]) == Some(p);
      assert HartSlotFits(s.harts[h], s.slots, s.exits);
      assert s.slots[p].id != p ==> BetweenStores(s.harts[h], p);
    }
    forall h | 0 <= h < |s.harts| && BetweenStores(s.harts[h], p)
      ensures s.slots[p].state == Running && s.slots[p].id == NO_PID
    {
      assert HartSlotFits(s.harts[h], s.slots, s.exits);
    }
    assert SlotFits(p, s.slots[p], s.exits);
  }

  predicate BetweenStores(x: Hart, p: nat) {
    x.loc == Destroying(DestroyState) && x.old_ == p
  }

  // ---------------------------------------------------------------- context switches

  /** Step `k` is a trap of process `p`. */
  ghost predicate TrapsAt(run: seq<State>, moves: seq<(nat, Action)>, k: nat, p: nat)
    requires |run| == |moves| + 1 && k < |moves|
  {
    IsMove(run, moves, k) && IsTrapOf(run[k].harts[moves[k].0], moves[k].1, p)
  }

  /** In step `k` slot `p` is filled for a new process. */
  ghost predicate CreatedAt(run: seq<State>, moves: seq<(nat, Action)>, k: nat, p: nat)
    requires |run| == |moves| + 1 && k < |moves|
  {
    IsMove(run, moves, k) && IsCreationOf(run[k].harts[moves[k].0], moves[k].1, p)
  }

  /** Between steps `i` and `j`, process `p` neither traps nor is created. */
  ghost predicate Undisturbed(run: seq<State>, moves: seq<(nat, Action)>, p: nat, i: nat, j: nat)
    requires IsRun(run, moves) && j <= |moves|
  {
    forall k :: i <= k < j ==> IsMove(run, moves, k) && !TrapsAt(run, moves, k, p) && !CreatedAt(run, moves, k, p)
  }

  lemma {:induction false} OriginIsKept(run: seq<State>, moves: seq<(nat, Action)>, p: nat, i: nat, j: nat)
    requires IsRun(run, moves) && Inv(run[0]) && p < PROCESSES_MAXIMUM && i <= j <= |moves|
    requires Undisturbed(run, moves, p, i, j)
    ensures |run[i].slots| == |run[j].slots| == PROCESSES_MAXIMUM && run[i].exits == run[j].exits
    ensures run[j].slots[p].origin == run[i].slots[p].origin
    ensures run[j].slots[p].kernel == run[i].slots[p].kernel && run[j].slots[p].satp == run[i].slots[p].satp
  {
    InvAlong(run, moves, j);
    if i < j {
      OriginIsKept(run, moves, p, i, j - 1);
      InvAlong(run, moves, j - 1);
      assert IsMove(run, moves, j - 1);
      StepAndSlot(run[j - 1], moves[j - 1].0, moves[j - 1].1, p);
    }
  }

  /** Hart `g` enters process `p` by sret. */
  ghost predicate Enters(s: State, g: nat, a: Action, p: nat) {
    && Possible(s, g, a) && a == Go && AtMain(s.harts[g])
    && s.harts[g].loc == SwitchingOn(OnRestore) && s.harts[g].current == Some(p)
  }

  /** The low 32 bits of a word as a signed number, in 64 bits again. */
  function WidenedInt(w: Word): Word {
    if w % 0x1_0000_0000 < 0x8000_0000 then w % 0x1_0000_0000
    else w % 0x1_0000_0000 + 0xFFFF_FFFF_0000_0000
  }

  /**
   Context preservation over whole runs: process `p` traps on hart `moves[i].0` in step `i`
   and is entered next in step `j`, on whichever hart. It gets back the registers it had,
   with a0 changed only by a putchar call, at its old program counter if it is a kernel
   process and 4 bytes further if it is a user process, under its own page table, in its own
   mode and with traps enabled.
   */
  lemma ContextIsPreserved(run: seq<State>, moves: seq<(nat, Action)>, i: nat, j: nat, p: nat)
    requires FromStart(run, moves) && i < j < |moves| && p < PROCESSES_MAXIMUM
    requires TrapsAt(run, moves, i, p)
    requires Undisturbed(run, moves, p, i + 1, j)
    requires Enters(run[j], moves[j].0, moves[j].1, p)
    ensures |run[i].slots| == PROCESSES_MAXIMUM && moves[j].0 < |run[j + 1].harts|
    ensures var regs, y := run[i].harts[moves[i].0].regs, run[j + 1].harts[moves[j].0];
      && (y.regs.ra, y.regs.sp, y.regs.a1, y.regs.others) == (regs.ra, regs.sp, regs.a1, regs.others)
      && (moves[i].1.cause == EcallFromUser && regs.a0 == 0xAA ==> y.regs.a0 == WidenedInt(regs.a1))
      && (moves[i].1.cause != EcallFromUser || regs.a0 != 0xAA ==> y.regs.a0 == regs.a0)
      && (run[i].slots[p].kernel ==> y.regs.pc == regs.pc)
      && (!run[i].slots[p].kernel ==> y.regs.pc == (regs.pc + 4) % 0x1_0000_0000_0000_0000)
      && y.loc == Proc && y.current == Some(p) && y.sie
      && run[j].harts[moves[j].0].frame.satp == run[i].slots[p].satp
      && run[j].harts[moves[j].0].sppKernel == run[i].slots[p].kernel
  {
    hide SlotFits, InterruptsFit, PhasesFit, Written;
    InitEstablishesInv(run[0]);
    InvAlong(run, moves, i);
    InvAlong(run, moves, j);
    assert IsMove(run, moves, i) && IsMove(run, moves, j);
    OriginIsKept(run, moves, p, i + 1, j);
    var x := run[i].harts[moves[i].0];
    assert Local(x);
    var q := run[i + 1].slots[p];
    assert q.origin == Trapped(x.regs.(satp := x.frame.satp), moves[i].1.cause);
    assert HartSlotFits(run[j].harts[moves[j].0], run[j].slots, run[j].exits);
  }

  /** A process that was just created starts at its entry address, with the exit function as return address. */
  lemma FirstEntry(run: seq<State>, moves: seq<(nat, Action)>, i: nat, j: nat, p: nat)
    requires FromStart(run, moves) && i < j < |moves| && p < PROCESSES_MAXIMUM
    requires CreatedAt(run, moves, i, p)
    requires Undisturbed(run, moves, p, i + 1, j)
    requires Enters(run[j], moves[j].0, moves[j].1, p)
    ensures moves[j].0 < |run[j + 1].harts|
    ensures var args, regs := run[i].harts[moves[i].0].args, run[j + 1].harts[moves[j].0].regs;
      && regs.pc == args.entry && regs.sp == args.sp
      && regs.ra == (if args.kernel then run[i].exits.kernel else run[i].exits.user)
      && regs.a0 == 0 && regs.a1 == 0
      && |regs.others| == 27 && (forall k :: 0 <= k < 27 ==> regs.others[k] == 0)
    ensures var x, y, args := run[j].harts[moves[j].0], run[j + 1].harts[moves[j].0], run[i].harts[moves[i].0].args;
      && y.loc == Proc && y.current == Some(p) && y.sie
      && x.frame.satp == args.satp && x.sppKernel == args.kernel
  {
    hide SlotFits, InterruptsFit, PhasesFit, Written;
    InitEstablishesInv(run[0]);
    InvAlong(run, moves, i);
    InvAlong(run, moves, j);
    assert IsMove(run, moves, i) && IsMove(run, moves, j);
    OriginIsKept(run, moves, p, i + 1, j);
    var x := run[i].harts[moves[i].0];
    assert Local(x);
    assert run[i + 1].slots[p].origin == Created(x.args.entry, x.args.sp);
    assert HartSlotFits(run[j].harts[moves[j].0], run[j].slots, run[j].exits);
  }

  /** Where the architecture wants a process to continue: after an ecall, but at an interrupted instruction. */
  function ArchitecturalPc(pc: Word, cause: Cause): Word {
    if cause == EcallFromUser then AddWord(pc, 4) else pc
  }

  /**
   kernel_switch adds 4 to the program counter of a user process for every trap. So a process
   that traps in step `i` and is entered next in step `j` continues where it should if and only
   if it is a kernel process or made an ecall: a user process loses an instruction at each timer
   or external interrupt.
   */
  lemma PcIsRightExactlyFor(run: seq<State>, moves: seq<(nat, Action)>, i: nat, j: nat, p: nat)
    requires FromStart(run, moves) && i < j < |moves| && p < PROCESSES_MAXIMUM
    requires TrapsAt(run, moves, i, p)
    requires Undisturbed(run, moves, p, i + 1, j)
    requires Enters(run[j], moves[j].0, moves[j].1, p)
    ensures |run[i].slots| == PROCESSES_MAXIMUM && moves[j].0 < |run[j + 1].harts|
    ensures run[j + 1].harts[moves[j].0].regs.pc ==
            ArchitecturalPc(run[i].harts[moves[i].0].regs.pc, moves[i].1.cause)
      <==> run[i].slots[p].kernel || moves[i].1.cause == EcallFromUser
  {
    ContextIsPreserved(run, moves, i, j, p);
    InitEstablishesInv(run[0]);
    InvAlong(run, moves, i);
    var x := run[i].harts[moves[i].0];
    assert IsMove(run, moves, i) && Local(x);
    assert AddWord(x.regs.pc, 4) != x.regs.pc;
  }
}
