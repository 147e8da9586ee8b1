/** Without hope the kernel stands still: no process is ever entered again, and hope never returns. */
module KernelStarvation {
  import opened Prelude
  import opened KernelState
  import opened KernelSteps
  import opened KernelInvariant
  import opened KernelPreservation
  import opened KernelRuns
  import opened KernelProgress
  import opened KernelFate
  import opened KernelHope
  import opened KernelLostLock

  // ---------------------------------------------------------------- without hope there is never hope again

  /** No process of hart `x` can come to wait by a trap that has trap_print_lock. */
  predicate Barren(x: Hart) {
    !(Publishes(x) && Inside(x.phases.trapPrint))
  }

  /** What a step of one hart does to its part in the hope. */
  predicate QuietHart(x: Hart, y: Hart) {
    && !y.loc.SwitchingOn?
    && (y.loc == Proc ==> x.loc == Proc)
    && (MayPublish(y) ==> MayPublish(x))
    && (Destroys(y) ==> Destroys(x) || x.loc == Proc)
    && (Closes(x) ==> Closes(y))
  }

  /** What a step of one hart can do while no process waits and none can be created. */
  ghost predicate QuietEffect(x: Hart, slots: seq<Slot>, y: Hart, write: Option<(nat, Slot)>) {
    && (write.Some? ==> write.value.0 < |slots|)
    && var after := Written(slots, write);
    && QuietHart(x, y)
    && (MayCreate(y, after) ==> MayCreate(x, slots))
    && (MayFree(y, after) ==> MayFree(x, slots) || (Destroys(x) && Inside(x.phases.trapPrint)))
    && (write.Some? ==>
          var was, q := slots[write.value.0], write.value.1;
          && !Waiting(q) && (was.state != Unused ==> q.kernel == was.kernel)
          && (q.state == Unused && was.state != Unused ==> MayFree(x, slots) && !MayCreate(y, after)))
  }

  /** Calls on other locks leave trap_print_lock with the hart that closes it. */
  lemma CloserInCall(x: Hart, id: nat, locks: Locks)
    requires Local(x) && !x.phases.AllSettled() && Closes(x)
    ensures Inside(LockStep(x, locks, id, CallOf(x.phases)).0.phases.trapPrint)
  {
    CallMoves(x, locks, id, CallOf(x.phases));
    hide LockStep;
    assert x.phases.trapPrint in {SetOwner, Held};
    if CallOf(x.phases) != TrapPrint {
      var l := CallOf(x.phases);
      assert x.phases.Set(l, NextPhase(x.phases.Get(l), locks.Get(l).locked)).trapPrint == x.phases.trapPrint;
    }
  }

  lemma QuietLockStep(x: Hart, id: nat, locks: Locks, slots: seq<Slot>)
    requires |slots| == PROCESSES_MAXIMUM && Local(x) && !x.phases.AllSettled() && !x.loc.SwitchingOn?
    ensures QuietEffect(x, slots, LockStep(x, locks, id, CallOf(x.phases)).0, None)
  {
    LockStepInHart(x, id, locks);
    if Closes(x) {
      CloserInCall(x, id, locks);
    }
    hide LockStep, Local, InRange, CallOf;
  }

  lemma QuietAction(x: Hart, id: nat, locks: Locks, slots: seq<Slot>, exits: Exits, a: Action)
    requires View(x, slots, exits) && Enabled(x, slots, a) && x.phases.AllSettled()
    requires a.Go? ==> x.phases.io == Held
    requires NoneWaits(slots) && !x.loc.SwitchingOn?
    ensures var e := Exec(x, id, locks, slots, exits, a);
      QuietEffect(x, slots, e.hart, e.write)
  {
    hide FateOf, MainStep, LockStep;
  }

  ghost predicate NoneWaits(slots: seq<Slot>) {
    forall p :: 0 <= p < |slots| ==> !Waiting(slots[p])
  }

  lemma QuietCreate(x: Hart, locks: Locks, slots: seq<Slot>, exits: Exits)
    requires View(x, slots, exits) && AtMain(x) && x.loc.Creating? && !SomeUnused(slots)
    ensures var e := MainStep(x, locks, slots, exits);
      QuietEffect(x, slots, e.hart, e.write)
  {
    var k := x.loc.create.k;
    assert x.loc == Creating(CreateScan(k));
    assert k < PROCESSES_MAXIMUM ==> slots[k].state != Unused;
    CreateScanMoves(x, k, locks, slots);
    hide CreateStep, InterruptsFit, ContextFits, SlotFits;
  }

  lemma QuietTrapLock(x: Hart, locks: Locks, slots: seq<Slot>)
    requires |slots| == PROCESSES_MAXIMUM && x.loc == Trapping(TrapLock) && x.phases.trapPrint == Out
    ensures QuietEffect(x, slots, TrapStep(x, TrapLock, locks).hart, TrapStep(x, TrapLock, locks).write)
  {
    assert TrapStep(x, TrapLock, locks)
      == Effect(Acquire(x, TrapPrint, Trapping(TrapDispatch)).(inTrap := true), locks, None);
    hide TrapStep, FateOf;
  }

  lemma QuietDispatch(x: Hart, locks: Locks, slots: seq<Slot>)
    requires |slots| == PROCESSES_MAXIMUM && x.loc == Trapping(TrapDispatch) && x.phases.trapPrint == Held && Barren(x)
    requires x.current.Some?
    ensures QuietEffect(x, slots, TrapStep(x, TrapDispatch, locks).hart, TrapStep(x, TrapDispatch, locks).write)
  {
    DecisionStep(x, locks);
    hide TrapStep, FateOf;
  }

  lemma QuietTrap(x: Hart, locks: Locks, slots: seq<Slot>, exits: Exits)
    requires View(x, slots, exits) && AtMain(x) && x.loc.Trapping? && Barren(x)
    ensures var e := MainStep(x, locks, slots, exits);
      QuietEffect(x, slots, e.hart, e.write)
  {
    assert PhasesFit(x);
    hide TrapStep, QuietEffect, InterruptsFit, ContextFits, SlotFits;
    if x.loc == Trapping(TrapLock) {
      QuietTrapLock(x, locks, slots);
    } else {
      assert x.loc == Trapping(TrapDispatch);
      QuietDispatch(x, locks, slots);
    }
  }

  lemma QuietDestroyStep(x: Hart, at: DestroyAt, locks: Locks, slots: seq<Slot>)
    requires |slots| == PROCESSES_MAXIMUM && x.loc == Destroying(at)
    requires at == DestroyTake ==> x.current.Some?
    requires at == DestroyId || at == DestroyState ==>
      x.current == None && x.old_ < PROCESSES_MAXIMUM && slots[x.old_].state == Running
    ensures var e := DestroyStep(x, at, locks, slots);
      QuietEffect(x, slots, e.hart, e.write)
  {
    DestroySteps(x, if at == DestroyTake then x.current.value else 0, locks, slots);
    hide DestroyStep, FateOf, QuietEffect;
    var e := DestroyStep(x, at, locks, slots);
    if at == DestroyState {
      QuietlyFrees(x, e.hart, slots);
    } else {
      QuietlyDestroys(x, e.hart, slots, e.write);
    }
  }

  lemma QuietlyDestroys(x: Hart, y: Hart, slots: seq<Slot>, write: Option<(nat, Slot)>)
    requires x.loc.Destroying? && y.loc.Destroying? && y.phases.trapPrint == x.phases.trapPrint
    requires write.Some? ==>
      write.value.0 < |slots| && write.value.1 == slots[write.value.0].(id := NO_PID) && write.value.1.state == Running
    ensures QuietEffect(x, slots, y, write)
  {
    hide FateOf;
  }

  lemma QuietlyFrees(x: Hart, y: Hart, slots: seq<Slot>)
    requires x.loc.Destroying? && x.current == None && x.old_ < |slots|
    requires y == Release(x, Processes, SwitchingOff(OffEntry))
    ensures QuietEffect(x, slots, y, Some((x.old_, slots[x.old_].(state := Unused))))
  {
    hide FateOf;
  }

  lemma QuietDestroy(x: Hart, locks: Locks, slots: seq<Slot>, exits: Exits)
    requires View(x, slots, exits) && AtMain(x) && x.loc.Destroying?
    ensures var e := MainStep(x, locks, slots, exits);
      QuietEffect(x, slots, e.hart, e.write)
  {
    hide CreateStep, TrapStep, DestroyStep, OffStep, ChooseStep, OnStep, InterruptsFit, PhasesFit, ContextFits,
      SlotFits, QuietEffect;
    QuietDestroyStep(x, x.loc.destroy, locks, slots);
  }

  /** A search that finds nothing. */
  lemma QuietScan(x: Hart, k: nat, locks: Locks, slots: seq<Slot>)
    requires |slots| == PROCESSES_MAXIMUM && x.loc == Choosing(ChooseScan(k)) && NoneWaits(slots)
    ensures var e := ChooseStep(x, ChooseScan(k), locks, slots);
      QuietEffect(x, slots, e.hart, e.write)
  {
    if k >= PROCESSES_MAXIMUM {
      assert ChooseStep(x, ChooseScan(k), locks, slots) ==
        Effect(Release(x, Processes, Choosing(ChooseLock)), locks, None);
    } else {
      assert !Waiting(slots[ScanId(x.start, k)]);
      assert ChooseStep(x, ChooseScan(k), locks, slots) == Move(x, locks, Choosing(ChooseScan(k + 1)));
    }
  }

  lemma QuietCall(x: Hart, locks: Locks, slots: seq<Slot>)
    requires |slots| == PROCESSES_MAXIMUM && x.loc == Choosing(ChooseLock)
    ensures var e := ChooseStep(x, ChooseLock, locks, slots);
      QuietEffect(x, slots, e.hart, e.write)
  {
    assert ChooseStep(x, ChooseLock, locks, slots) ==
      Effect(Acquire(x, Processes, Choosing(ChooseScan(0))), locks, None);
  }

  lemma QuietOff(x: Hart, locks: Locks, slots: seq<Slot>)
    requires |slots| == PROCESSES_MAXIMUM && x.loc.SwitchingOff? && Owns(x) == None && InRange(x)
    ensures var e := OffStep(x, x.loc.off, locks, slots);
      QuietEffect(x, slots, e.hart, e.write)
  {
    OffSteps(x, locks, slots);
    hide OffStep, FateOf;
    if x.loc.off == OffClear {
      QuietlyChooses(x, x.(current := None, loc := Choosing(ChooseLock)), slots);
    } else {
      QuietlyChooses(x, x.(start := 0, loc := Choosing(ChooseLock)), slots);
    }
  }

  lemma QuietlyChooses(x: Hart, y: Hart, slots: seq<Slot>)
    requires y.loc == Choosing(ChooseLock) && y.phases == x.phases
    ensures QuietEffect(x, slots, y, None)
  {
    hide FateOf;
  }

  lemma QuietSearch(x: Hart, locks: Locks, slots: seq<Slot>, exits: Exits)
    requires View(x, slots, exits) && AtMain(x) && (x.loc.Choosing? || x.loc.SwitchingOff?)
    requires NoneWaits(slots) && Barren(x)
    ensures var e := MainStep(x, locks, slots, exits);
      QuietEffect(x, slots, e.hart, e.write)
  {
    hide CreateStep, TrapStep, DestroyStep, OffStep, ChooseStep, OnStep, InterruptsFit, ContextFits, SlotFits,
      QuietEffect;
    if x.loc.SwitchingOff? {
      QuietOff(x, locks, slots);
    } else if x.loc.choose.ChooseScan? {
      QuietScan(x, x.loc.choose.k, locks, slots);
    } else {
      QuietCall(x, locks, slots);
    }
  }

  lemma QuietStep(x: Hart, id: nat, locks: Locks, slots: seq<Slot>, exits: Exits, a: Action)
    requires View(x, slots, exits) && Enabled(x, slots, a)
    requires NoneWaits(slots) && !x.loc.SwitchingOn? && Barren(x)
    requires MayCreate(x, slots) ==> !SomeUnused(slots)
    ensures var e := Exec(x, id, locks, slots, exits, a);
      QuietEffect(x, slots, e.hart, e.write)
  {
    hide QuietEffect, Barren;
    if !x.phases.AllSettled() {
      QuietLockStep(x, id, locks, slots);
    } else if !a.Go? || x.phases.io == Held {
      QuietAction(x, id, locks, slots, exits, a);
    } else if x.loc.Creating? {
      QuietCreate(x, locks, slots, exits);
    } else if x.loc.Trapping? {
      QuietTrap(x, locks, slots, exits);
    } else if x.loc.Destroying? {
      QuietDestroy(x, locks, slots, exits);
    } else {
      QuietSearch(x, locks, slots, exits);
    }
  }

  /** trap_print_lock is taken only while it is free, and then traps are not closed. */
  lemma TakenWhileOpen(s: State, g: nat, a: Action)
    requires Inv(s) && Possible(s, g, a) && !Inside(s.harts[g].phases.trapPrint)
    requires Inside(After(s, g, a).harts[g].phases.trapPrint)
    ensures !TrapsAreClosed(s)
  {
    var x := s.harts[g];
    assert Local(x) && HartSlotFits(x, s.slots, s.exits);
    assert s.locks.Get(TrapPrint).locked <==> SomeoneInside(s, TrapPrint);
    ExecLocks(x, g, s.locks, s.slots, s.exits, a, TrapPrint);
    hide Exec, Local, HartSlotFits, SlotFits, Seeks, Destroys;
    assert !Inside(x.phases.Get(TrapPrint));
    assert forall k :: 0 <= k < |s.harts| ==> !Inside(s.harts[k].phases.Get(TrapPrint));
  }

  /** No hart that could give hope by its trap has trap_print_lock. */
  lemma HopelessIsBarren(s: State, g: nat)
    requires g < |s.harts| && !SomeHope(s)
    ensures Barren(s.harts[g]) && NoneWaits(s.slots)
    ensures MayCreate(s.harts[g], s.slots) ==> !SomeUnused(s.slots)
  {
    hide Publishes, MayCreate, CanFree, Waiting;
  }

  /** One step, of hart `g`, without hope. */
  ghost predicate QuietMove(s: State, t: State, g: nat, e: Effect)
    requires g < |s.harts|
  {
    && QuietEffect(s.harts[g], s.slots, e.hart, e.write)
    && t == Apply(s, g, e)
    && (Inside(e.hart.phases.trapPrint) && !Inside(s.harts[g].phases.trapPrint) ==> !TrapsAreClosed(s))
    && (forall f :: 0 <= f < |t.harts| && f != g ==>
          && (MayCreate(t.harts[f], t.slots) ==> MayCreate(s.harts[f], s.slots))
          && (MayFree(t.harts[f], t.slots) ==> MayFree(s.harts[f], s.slots)))
  }

  lemma QuietEverywhere(s: State, g: nat, a: Action)
    requires Inv(s) && !Entering(s) && !SomeHope(s) && Possible(s, g, a)
    ensures QuietMove(s, After(s, g, a), g, Exec(s.harts[g], g, s.locks, s.slots, s.exits, a))
  {
    var x := s.harts[g];
    assert Local(x) && HartSlotFits(x, s.slots, s.exits);
    HopelessIsBarren(s, g);
    QuietStep(x, g, s.locks, s.slots, s.exits, a);
    var t := After(s, g, a);
    if Inside(t.harts[g].phases.trapPrint) && !Inside(x.phases.trapPrint) {
      TakenWhileOpen(s, g, a);
    }
    hide Inv, Exec, MayCreate, MayFree, QuietEffect, TrapsAreClosed;
    forall f | 0 <= f < |t.harts| && f != g
      ensures MayCreate(t.harts[f], t.slots) ==> MayCreate(s.harts[f], s.slots)
      ensures MayFree(t.harts[f], t.slots) ==> MayFree(s.harts[f], s.slots)
    {
      KindsKept(s, g, a, f);
    }
  }

  /** Traps that are closed stay closed. */
  lemma StaysClosed(s: State, t: State, g: nat, e: Effect)
    requires g < |s.harts| && QuietMove(s, t, g, e)
    ensures TrapsAreClosed(s) ==> TrapsAreClosed(t)
    ensures forall f :: 0 <= f < |t.harts| && GetsIn(t, t.harts[f]) ==> GetsIn(s, s.harts[f])
  {
    hide Closes, MayCreate, MayFree, MayPublish, Destroys;
    if k :| 0 <= k < |s.harts| && Closes(s.harts[k]) {
      assert Closes(t.harts[k]);
    }
  }

  lemma NoPublisher(s: State, t: State, g: nat, e: Effect)
    requires g < |s.harts| && QuietMove(s, t, g, e) && !SomePublisher(s)
    ensures !SomePublisher(t)
  {
    StaysClosed(s, t, g, e);
    hide Closes, MayCreate, MayFree, MayPublish, Destroys, GetsIn, TrapsAreClosed;
    forall f | 0 <= f < |t.harts| && MayPublish(t.harts[f])
      ensures !GetsIn(t, t.harts[f])
    {
      assert MayPublish(s.harts[f]);
    }
  }

  /** A hart that can free a slot after the step could do so before. */
  lemma FreesBefore(s: State, t: State, g: nat, e: Effect, d: nat)
    requires g < |s.harts| && QuietMove(s, t, g, e) && !SomePublisher(s)
    requires d < |t.harts| && CanFree(t, t.harts[d])
    ensures CanFree(s, s.harts[d])
  {
    StaysClosed(s, t, g, e);
    hide Closes, MayCreate, MayFree, TrapsAreClosed;
    assert GetsIn(s, s.harts[d]) ==> !MayPublish(s.harts[d]);
  }

  lemma NoPair(s: State, t: State, g: nat, e: Effect)
    requires g < |s.harts| && QuietMove(s, t, g, e) && !SomeHope(s)
    ensures !SomePair(t)
  {
    forall c, d | 0 <= c < |t.harts| && 0 <= d < |t.harts| && c != d && MayCreate(t.harts[c], t.slots)
      ensures !CanFree(t, t.harts[d])
    {
      assert MayCreate(s.harts[c], s.slots);
      assert !CanFree(s, s.harts[d]);
      if CanFree(t, t.harts[d]) {
        FreesBefore(s, t, g, e, d);
      }
    }
  }

  /** A slot is freed only where nobody could fill it. */
  lemma NoRoom(s: State, t: State, g: nat, e: Effect)
    requires g < |s.harts| && QuietMove(s, t, g, e) && !SomeHope(s)
    ensures !SomeWaits(t.slots) && !(SomeCreator(t) && SomeUnused(t.slots))
  {
    hide MayCreate, MayFree, SomePublisher, QuietHart, TrapsAreClosed;
    if c :| 0 <= c < |t.harts| && MayCreate(t.harts[c], t.slots) {
      forall p | 0 <= p < |t.slots|
        ensures t.slots[p].state != Unused
      {
        assert MayCreate(s.harts[c], s.slots);
        assert s.slots[p].state != Unused;
        assert c != g ==> !CanFree(s, s.harts[g]);
      }
    }
  }

  lemma NoHopeAfter(s: State, t: State, g: nat, e: Effect)
    requires g < |s.harts| && QuietMove(s, t, g, e) && !SomeHope(s) && !Entering(s)
    ensures !SomeHope(t) && !Entering(t)
  {
    NoRoom(s, t, g, e);
    NoPair(s, t, g, e);
    NoPublisher(s, t, g, e);
    hide MayCreate, MayFree, MayPublish, SomePublisher, SomePair, CanFree, TrapsAreClosed;
  }

  lemma HopelessStep(s: State, g: nat, a: Action)
    requires Inv(s) && !Hopeful(s) && Possible(s, g, a)
    ensures !Hopeful(After(s, g, a))
  {
    if LockIsLost(s) {
      LostStaysLost(s, g, a);
    } else {
      QuietEverywhere(s, g, a);
      hide Inv, Exec, SomeHope, LockIsLost, QuietMove;
      NoHopeAfter(s, After(s, g, a), g, Exec(s.harts[g], g, s.locks, s.slots, s.exits, a));
    }
  }

  lemma {:induction false} HopelessAlong(run: seq<State>, moves: seq<(nat, Action)>, i: nat, j: nat)
    requires IsRun(run, moves) && Inv(run[0]) && i <= j < |run| && !Hopeful(run[i])
    ensures !Hopeful(run[j])
  {
    hide Inv, Hopeful;
    if i < j {
      HopelessAlong(run, moves, i, j - 1);
      InvAlong(run, moves, j - 1);
      assert IsMove(run, moves, j - 1);
      HopelessStep(run[j - 1], moves[j - 1].0, moves[j - 1].1);
    }
  }

  /** Without hope no process is ever entered again, and there is never hope again. */
  lemma HopelessSearchNeverEnds(run: seq<State>, moves: seq<(nat, Action)>, i: nat, j: nat)
    requires FromStart(run, moves) && i <= j < |run| && !Hopeful(run[i])
    ensures !Entering(run[j]) && !Hopeful(run[j])
  {
    InitEstablishesInv(run[0]);
    HopelessAlong(run, moves, i, j);
  }
}
