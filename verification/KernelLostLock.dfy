/** Process_create panics with processes_lock held when no slot is left: the lock is lost for ever. */
module KernelLostLock {
  import opened Prelude
  import opened KernelState
  import opened KernelSteps
  import opened KernelInvariant
  import opened KernelPreservation
  import opened KernelRuns
  import opened KernelProgress
  import opened KernelHope

  // ---------------------------------------------------------------- a lost lock stays lost

  /** Where a lock call is after its next step. */
  function NextPhase(p: LockPhase, locked: bool): LockPhase
    requires !Settled(p)
  {
    match p
    case Test => if locked then Test else Swap
    case Swap => if locked then Test else SetOwner
    case SetOwner => Held
    case ClearOwner => Unlock
    case Unlock => Post
    case Post => Out
  }

  lemma CallMoves(x: Hart, locks: Locks, id: nat, l: Lock)
    requires x.depth > 0 && !Settled(x.phases.Get(l))
    ensures LockStep(x, locks, id, l).0.phases ==
            x.phases.Set(l, NextPhase(x.phases.Get(l), locks.Get(l).locked))
    ensures forall m: Lock :: m != l ==> LockStep(x, locks, id, l).1.Get(m) == locks.Get(m)
  {
    if x.phases.Get(l) != Post {
      var (p, k) := LockMove(x.phases.Get(l), locks.Get(l), id);
      forall m: Lock | m != l
        ensures locks.Set(l, k).Get(m) == locks.Get(m)
      {
        SetGet(x.phases, p, locks, k, l, m);
      }
    }
  }

  lemma KeeperInCall(x: Hart, id: nat, locks: Locks, slots: seq<Slot>)
    requires |slots| == PROCESSES_MAXIMUM && Local(x) && !x.phases.AllSettled() && KeepsLock(x, slots)
    ensures var y := LockStep(x, locks, id, CallOf(x.phases)).0;
      KeepsLock(y, slots) && !y.loc.SwitchingOn?
  {
    LockStepInHart(x, id, locks);
    CallMoves(x, locks, id, CallOf(x.phases));
    hide LockStep;
  }

  lemma KeeperScans(x: Hart, locks: Locks, slots: seq<Slot>, exits: Exits)
    requires View(x, slots, exits) && AtMain(x) && KeepsLock(x, slots) && !x.loc.Panicked?
    ensures var e := MainStep(x, locks, slots, exits);
      KeepsLock(e.hart, slots) && e.write == None && !e.hart.loc.SwitchingOn?
  {
    var k := x.loc.create.k;
    if k >= PROCESSES_MAXIMUM {
      assert CreateStep(x, CreateScan(k), locks, slots) == Move(x, locks, Panicked(NoSlotLeft));
    } else {
      assert CreateStep(x, CreateScan(k), locks, slots) == Move(x, locks, Creating(CreateScan(k + 1)));
    }
  }

  lemma KeeperKeeps(x: Hart, id: nat, locks: Locks, slots: seq<Slot>, exits: Exits, a: Action)
    requires View(x, slots, exits) && Enabled(x, slots, a) && KeepsLock(x, slots)
    ensures var e := Exec(x, id, locks, slots, exits, a);
      KeepsLock(e.hart, slots) && e.write == None && !e.hart.loc.SwitchingOn?
  {
    if !x.phases.AllSettled() {
      KeeperInCall(x, id, locks, slots);
    } else if a.Go? && x.phases.io != Held {
      KeeperScans(x, locks, slots, exits);
    } else {
      hide MainStep, LockStep;
    }
  }

  /** The write makes no slot unused. */
  predicate FreesNone(slots: seq<Slot>, write: Option<(nat, Slot)>) {
    write.Some? && write.value.0 < |slots| && write.value.1.state == Unused ==> slots[write.value.0].state == Unused
  }

  /** Without processes_lock no hart frees a slot, and none takes a process. */
  predicate NoGain(slots: seq<Slot>, y: Hart, write: Option<(nat, Slot)>) {
    !y.loc.SwitchingOn? && FreesNone(slots, write)
  }

  lemma OutsideInCall(x: Hart, id: nat, locks: Locks, slots: seq<Slot>)
    requires Local(x) && !x.phases.AllSettled() && !x.loc.SwitchingOn?
    ensures NoGain(slots, LockStep(x, locks, id, CallOf(x.phases)).0, None)
  {
    LockStepInHart(x, id, locks);
  }

  lemma OutsideTrap(x: Hart, at: TrapAt, locks: Locks, slots: seq<Slot>)
    ensures NoGain(slots, TrapStep(x, at, locks).hart, TrapStep(x, at, locks).write)
  {
    TrapLockKeeps(x, locks);
    TrapDispatchKeeps(x, locks);
    TrapPutcharKeeps(x, locks);
    TrapPutcharDoneKeeps(x, locks);
    assert TrapStep(x, at, locks).write == None by {
      hide Dispatch;
    }
    hide TrapStep, Dispatch;
  }

  lemma OutsideOff(x: Hart, at: OffAt, locks: Locks, slots: seq<Slot>)
    requires |slots| == PROCESSES_MAXIMUM
    requires at != OffEntry ==> x.current.Some? && x.current.value < PROCESSES_MAXIMUM
    requires at != OffEntry && at != OffClear ==> slots[x.current.value].state == Running
    ensures NoGain(slots, OffStep(x, at, locks, slots).hart, OffStep(x, at, locks, slots).write)
  {
    hide AddWord;
    match at
    case OffEntry => assert OffStep(x, OffEntry, locks, slots).write == None;
    case OffSave => OffKeeps(x, locks, slots);
    case OffPc => OffKeeps(x, locks, slots);
    case OffNextId => assert OffStep(x, OffNextId, locks, slots).write == None;
    case OffPublish => OffKeeps(x, locks, slots);
    case OffClear => assert OffStep(x, OffClear, locks, slots).write == None;
  }

  lemma OutsideCall(x: Hart, locks: Locks, slots: seq<Slot>)
    requires |slots| == PROCESSES_MAXIMUM
    ensures NoGain(slots, DestroyStep(x, DestroyLock, locks, slots).hart, DestroyStep(x, DestroyLock, locks,
      slots).write)
    ensures NoGain(slots, ChooseStep(x, ChooseLock, locks, slots).hart, ChooseStep(x, ChooseLock, locks, slots).write)
  {
  }

  lemma OutsideMain(x: Hart, locks: Locks, slots: seq<Slot>, exits: Exits)
    requires View(x, slots, exits) && AtMain(x) && x.phases.processes == Out && !x.loc.SwitchingOn?
    ensures var e := MainStep(x, locks, slots, exits);
      NoGain(slots, e.hart, e.write)
  {
    hide CreateStep, TrapStep, DestroyStep, OffStep, ChooseStep, OnStep, InterruptsFit, ContextFits, SlotFits;
    if x.loc.Trapping? {
      OutsideTrap(x, x.loc.trap, locks, slots);
    } else if x.loc.SwitchingOff? {
      OutsideOff(x, x.loc.off, locks, slots);
    } else {
      OutsideCall(x, locks, slots);
    }
  }

  lemma OutsideAction(x: Hart, id: nat, locks: Locks, slots: seq<Slot>, exits: Exits, a: Action)
    requires View(x, slots, exits) && Enabled(x, slots, a) && x.phases.AllSettled() && !x.loc.SwitchingOn?
    requires a.Go? ==> x.phases.io == Held
    ensures var e := Exec(x, id, locks, slots, exits, a);
      NoGain(slots, e.hart, e.write)
  {
    hide MainStep, LockStep;
  }

  lemma OutsideLock(x: Hart, id: nat, locks: Locks, slots: seq<Slot>, exits: Exits, a: Action)
    requires View(x, slots, exits) && Enabled(x, slots, a) && !Inside(x.phases.processes) && !x.loc.SwitchingOn?
    ensures var e := Exec(x, id, locks, slots, exits, a);
      NoGain(slots, e.hart, e.write)
  {
    hide NoGain;
    if !x.phases.AllSettled() {
      OutsideInCall(x, id, locks, slots);
    } else if a.Go? && x.phases.io != Held {
      OutsideMain(x, locks, slots, exits);
    } else {
      OutsideAction(x, id, locks, slots, exits, a);
    }
  }

  lemma OnlyKeeperInside(s: State, k: nat, g: nat)
    requires Inv(s) && k < |s.harts| && g < |s.harts| && k != g && Inside(s.harts[k].phases.processes)
    ensures !Inside(s.harts[g].phases.processes)
  {
    assert Inside(s.harts[k].phases.Get(Processes));
    assert !Inside(s.harts[g].phases.Get(Processes));
  }

  /** A hart that enters a process frees no slot. */
  lemma EnteringFreesNone(x: Hart, id: nat, locks: Locks, slots: seq<Slot>, exits: Exits, a: Action)
    requires View(x, slots, exits) && Enabled(x, slots, a) && x.loc.SwitchingOn?
    ensures FreesNone(slots, Exec(x, id, locks, slots, exits, a).write)
  {
    hide LockStep, InterruptsFit, ContextFits, SlotFits;
    if a.Go? && AtMain(x) {
      assert MainStep(x, locks, slots, exits) == OnStep(x, x.loc.on, locks, slots, exits);
    }
  }

  /** What a step of hart `g` does to the lock that hart `k` keeps. */
  lemma LostStep(s: State, k: nat, g: nat, a: Action)
    requires Inv(s) && Possible(s, g, a) && k < |s.harts| && KeepsLock(s.harts[k], s.slots)
    ensures var e := Exec(s.harts[g], g, s.locks, s.slots, s.exits, a);
      && (g == k ==> KeepsLock(e.hart, s.slots) && e.write == None)
      && FreesNone(s.slots, e.write)
      && (e.hart.loc.SwitchingOn? ==> s.harts[g].loc.SwitchingOn?)
  {
    var x := s.harts[g];
    assert Local(x) && HartSlotFits(x, s.slots, s.exits);
    if g == k {
      KeeperKeeps(x, g, s.locks, s.slots, s.exits, a);
    } else if x.loc.SwitchingOn? {
      EnteringFreesNone(x, g, s.locks, s.slots, s.exits, a);
    } else {
      OnlyKeeperInside(s, k, g);
      OutsideLock(x, g, s.locks, s.slots, s.exits, a);
    }
  }

  lemma LostStaysLost(s: State, g: nat, a: Action)
    requires Inv(s) && Possible(s, g, a) && LockIsLost(s)
    ensures LockIsLost(After(s, g, a)) && (Entering(After(s, g, a)) ==> Entering(s))
  {
    hide Inv, Exec;
    var t := After(s, g, a);
    var k :| 0 <= k < |s.harts| && KeepsLock(s.harts[k], s.slots);
    LostStep(s, k, g, a);
    assert KeepsLock(t.harts[k], t.slots);
  }

  lemma {:induction false} LostAlong(run: seq<State>, moves: seq<(nat, Action)>, i: nat, j: nat)
    requires IsRun(run, moves) && Inv(run[0]) && i <= j < |run| && LockIsLost(run[i])
    ensures LockIsLost(run[j]) && (Entering(run[j]) ==> Entering(run[i]))
  {
    if i < j {
      LostAlong(run, moves, i, j - 1);
      InvAlong(run, moves, j - 1);
      assert IsMove(run, moves, j - 1);
      LostStaysLost(run[j - 1], moves[j - 1].0, moves[j - 1].1);
    }
  }

  /** A lost lock is locked. */
  lemma LostIsLocked(s: State)
    requires Inv(s) && LockIsLost(s)
    ensures s.locks.processes.locked
  {
    var k :| 0 <= k < |s.harts| && KeepsLock(s.harts[k], s.slots);
    assert Inside(s.harts[k].phases.Get(Processes));
    assert s.locks.Get(Processes).locked <==> SomeoneInside(s, Processes);
  }

  /**
   Process_create panics with processes_lock held when no slot is left. From then on no process
   is ever entered, except by a hart that is entering one already.
   */
  lemma LostLockStopsEverything(run: seq<State>, moves: seq<(nat, Action)>, i: nat, j: nat)
    requires FromStart(run, moves) && i <= j < |run| && LockIsLost(run[i]) && !Entering(run[i])
    ensures !Entering(run[j])
  {
    InitEstablishesInv(run[0]);
    LostAlong(run, moves, i, j);
  }
}
