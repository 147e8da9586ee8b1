/** Every step keeps the invariant. */
module KernelPreservation {
  import opened Prelude
  import opened KernelState
  import opened KernelSteps
  import opened KernelInvariant

  // ---------------------------------------------------------------- from one hart to all

  /** A good effect of one hart leaves what is known about every other hart intact. */
  lemma OtherHartsUndisturbed(s: State, h: nat, e: Effect, g: nat)
    requires Inv(s) && h < |s.harts| && g < |s.harts| && g != h
    requires GoodEffect(s.harts[h], s.slots, s.exits, e)
    ensures HartSlotFits(s.harts[g], Written(s.slots, e.write), s.exits)
  {
    hide ContextFits, SlotFits, LockBitsFit, RunningHasOwner, InterruptsFit, CallsOrdered;
    var x, y := s.harts[h], s.harts[g];
    assert Local(y) && HartSlotFits(y, s.slots, s.exits);
    if e.write.Some? {
      var p := e.write.value.0;
      assert !(Inside(x.phases.Get(Processes)) && Inside(y.phases.Get(Processes)));
      if Owns(x) == Some(p) {
        assert HartSlotFits(x, s.slots, s.exits);
        assert s.slots[p].state == Running;
      }
    }
  }

  lemma OwnershipKept(s: State, h: nat, e: Effect)
    requires Inv(s) && h < |s.harts|
    requires GoodEffect(s.harts[h], s.slots, s.exits, e)
    ensures AtMostOneOwner(Apply(s, h, e)) && RunningHasOwner(Apply(s, h, e))
  {
    hide InterruptsFit, PhasesFit, ContextFits, SlotFits, LockBitsFit;
    var t := Apply(s, h, e);
    var x := s.harts[h];
    forall g, f | 0 <= g < |t.harts| && 0 <= f < |t.harts| && g != f && Owns(t.harts[g]).Some?
      ensures Owns(t.harts[g]) != Owns(t.harts[f])
    {
      var other := if g == h then f else g;
      assert HartSlotFits(s.harts[other], s.slots, s.exits);
      assert Owns(s.harts[g]).Some? ==> Owns(s.harts[g]) != Owns(s.harts[f]);
      assert Owns(s.harts[f]).Some? ==> Owns(s.harts[f]) != Owns(s.harts[g]);
    }
    forall p | 0 <= p < |t.slots| && t.slots[p].state == Running
      ensures SomeoneOwns(t, p)
    {
      if e.write.Some? && e.write.value.0 == p {
        assert Owns(t.harts[h]) == Some(p);
      } else {
        assert t.slots[p] == s.slots[p];
        assert SomeoneOwns(s, p);
        var g :| 0 <= g < |s.harts| && Owns(s.harts[g]) == Some(p);
        assert Owns(t.harts[g]) == Some(p);
      }
    }
  }

  lemma LocksKept(s: State, h: nat, e: Effect, l: Lock)
    requires AtMostOneInside(s) && LockBitsFit(s) && h < |s.harts|
    requires e.write.Some? ==> e.write.value.0 < |s.slots|
    requires GoodLockEffect(s.harts[h], h, s.locks, e, l)
    ensures var t := Apply(s, h, e);
      && (t.locks.Get(l).locked <==> SomeoneInside(t, l))
      && (forall f, g :: 0 <= f < |t.harts| && 0 <= g < |t.harts| && f != g ==>
            !(Inside(t.harts[f].phases.Get(l)) && Inside(t.harts[g].phases.Get(l))))
      && (forall g :: 0 <= g < |t.harts| ==> OwnerFits(t.harts[g].phases.Get(l), t.locks.Get(l).owner, g))
  {
    var t := Apply(s, h, e);
    var x := s.harts[h];
    assert s.locks.Get(l).locked <==> SomeoneInside(s, l);
    if SomeoneInside(s, l) {
      var g :| 0 <= g < |s.harts| && Inside(s.harts[g].phases.Get(l));
      assert g != h ==> Inside(t.harts[g].phases.Get(l));
    }
    assert Inside(e.hart.phases.Get(l)) ==> Inside(t.harts[h].phases.Get(l));
    forall g | 0 <= g < |t.harts|
      ensures OwnerFits(t.harts[g].phases.Get(l), t.locks.Get(l).owner, g)
    {
      if g != h {
        assert OwnerFits(s.harts[g].phases.Get(l), s.locks.Get(l).owner, g);
        assert Inside(x.phases.Get(l)) ==> !Inside(s.harts[g].phases.Get(l));
      }
    }
  }

  /** The whole invariant follows from the local conditions. */
  lemma EffectKeepsInv(s: State, h: nat, e: Effect)
    requires Inv(s) && h < |s.harts|
    requires GoodEffect(s.harts[h], s.slots, s.exits, e)
    requires forall l: Lock :: GoodLockEffect(s.harts[h], h, s.locks, e, l)
    ensures Inv(Apply(s, h, e))
  {
    var t := Apply(s, h, e);
    assert t.slots == Written(s.slots, e.write);
    forall g | 0 <= g < |t.harts|
      ensures Local(t.harts[g]) && HartSlotFits(t.harts[g], t.slots, t.exits)
    {
      if g != h {
        OtherHartsUndisturbed(s, h, e, g);
      }
    }
    OwnershipKept(s, h, e);
    assert AtMostOneInside(t) by {
      forall l: Lock, f, g | 0 <= f < |t.harts| && 0 <= g < |t.harts| && f != g
        ensures !(Inside(t.harts[f].phases.Get(l)) && Inside(t.harts[g].phases.Get(l)))
      {
        LocksKept(s, h, e, l);
      }
    }
    forall l: Lock
      ensures t.locks.Get(l).locked <==> SomeoneInside(t, l)
      ensures forall g :: 0 <= g < |t.harts| ==> OwnerFits(t.harts[g].phases.Get(l), t.locks.Get(l).owner, g)
    {
      LocksKept(s, h, e, l);
    }
  }

  // ---------------------------------------------------------------- one hart, step by step

  /** What one hart may rely on. */
  ghost predicate View(x: Hart, slots: seq<Slot>, exits: Exits) {
    && |slots| == PROCESSES_MAXIMUM
    && Local(x) && HartSlotFits(x, slots, exits)
    && (forall p :: 0 <= p < |slots| ==> SlotFits(p, slots[p], exits))
  }

  /** One step of a lock call that does not finish it. */
  predicate Follows(p: LockPhase, q: LockPhase) {
    || (Acquiring(p) && (Acquiring(q) || q == Held))
    || (Releasing(p) && Releasing(q))
  }

  lemma NeedKept(p: LockPhase, q: LockPhase, need: Need)
    requires Follows(p, q) || (p == Post && q == Out)
    requires Meets(p, need)
    ensures Meets(q, need)
  {
  }

  lemma PhaseMove(x: Hart, l: Lock, q: LockPhase)
    requires Local(x) && !x.phases.AllSettled() && l == CallOf(x.phases)
    requires Follows(x.phases.Get(l), q)
    ensures Local(x.(phases := x.phases.Set(l, q)))
  {
    if l == TrapPrint {
      NeedKept(x.phases.Get(l), q, NeedOfTrapPrint(x.loc, x.inTrap));
    } else if l == Processes {
      NeedKept(x.phases.Get(l), q, NeedOfProcesses(x.loc));
    }
  }

  lemma PostPhases(x: Hart, l: Lock)
    requires Local(x) && !x.phases.AllSettled() && l == CallOf(x.phases)
    requires x.phases.Get(l) == Post
    ensures x.depth > 0 && PhasesFit(PostRelease(x, l))
  {
    if l == TrapPrint {
      NeedKept(Post, Out, NeedOfTrapPrint(x.loc, x.inTrap));
    } else if l == Processes {
      NeedKept(Post, Out, NeedOfProcesses(x.loc));
    }
  }

  /** The last release turns traps on again exactly if they were on before the first acquire. */
  lemma PostInterrupts(x: Hart, l: Lock)
    requires InterruptsFit(x) && x.phases.Get(l) == Post
    ensures x.depth > 0 && InterruptsFit(PostRelease(x, l))
  {
    match l
    case TrapPrint =>
    case Processes =>
    case Io =>
  }

  lemma MoveFollows(p: LockPhase, k: SpinLock, id: nat)
    requires !Settled(p) && p != Post
    ensures Follows(p, LockMove(p, k, id).0)
  {
  }

  lemma LockStepLocal(x: Hart, id: nat, locks: Locks)
    requires Local(x) && !x.phases.AllSettled()
    ensures Local(LockStep(x, locks, id, CallOf(x.phases)).0)
  {
    var l := CallOf(x.phases);
    if x.phases.Get(l) == Post {
      PostPhases(x, l);
      PostInterrupts(x, l);
    } else {
      MoveFollows(x.phases.Get(l), locks.Get(l), id);
      PhaseMove(x, l, LockMove(x.phases.Get(l), locks.Get(l), id).0);
    }
  }

  /** Lock calls do not touch processes. */
  lemma SlotsUntouched(x: Hart, y: Hart, slots: seq<Slot>, exits: Exits)
    requires |slots| == PROCESSES_MAXIMUM && InRange(x) && InRange(y)
    requires y == x.(phases := y.phases, sie := y.sie, depth := y.depth, before := y.before)
    requires HartSlotFits(x, slots, exits)
    ensures HartSlotFits(y, slots, exits) && Owns(x) == Owns(y)
  {
  }

  /** A lock call changes only the interrupt bookkeeping of its hart. */
  lemma LockStepInHart(x: Hart, id: nat, locks: Locks)
    requires Local(x) && !x.phases.AllSettled()
    ensures var y := LockStep(x, locks, id, CallOf(x.phases)).0;
      && y == x.(phases := y.phases, sie := y.sie, depth := y.depth)
      && InRange(x) && InRange(y)
  {
    assert x.depth > 0;
  }

  lemma LockStepGood(x: Hart, id: nat, locks: Locks, slots: seq<Slot>, exits: Exits)
    requires View(x, slots, exits) && !x.phases.AllSettled()
    ensures var (x', locks') := LockStep(x, locks, id, CallOf(x.phases));
      GoodEffect(x, slots, exits, Effect(x', locks', None))
  {
    LockStepLocal(x, id, locks);
    LockStepInHart(x, id, locks);
    hide Local, InRange, LockStep, HartSlotFits, SlotFits;
    SlotsUntouched(x, LockStep(x, locks, id, CallOf(x.phases)).0, slots, exits);
  }

  lemma SetGet(ph: Phases, p: LockPhase, locks: Locks, k: SpinLock, m: Lock, l: Lock)
    ensures ph.Set(m, p).Get(l) == if l == m then p else ph.Get(l)
    ensures locks.Set(m, k).Get(l) == if l == m then k else locks.Get(l)
  {
  }

  lemma LockMoveGood(p: LockPhase, k: SpinLock, id: nat)
    requires !Settled(p) && p != Post
    requires OwnerFits(p, k.owner, id)
    requires Inside(p) ==> k.locked
    ensures var (p', k') := LockMove(p, k, id);
      && (|| (Inside(p) == Inside(p') && k'.locked == k.locked)
          || (!Inside(p) && Inside(p') && !k.locked && k'.locked)
          || (Inside(p) && !Inside(p') && !k'.locked))
      && (k'.owner != k.owner ==> Inside(p))
      && OwnerFits(p', k'.owner, id)
  {
  }

  lemma LockStepOwnLock(x: Hart, id: nat, locks: Locks, l: Lock)
    requires x.depth > 0 && !Settled(x.phases.Get(l))
    requires OwnerFits(x.phases.Get(l), locks.Get(l).owner, id)
    requires Inside(x.phases.Get(l)) ==> locks.Get(l).locked
    ensures var (x', locks') := LockStep(x, locks, id, l);
      GoodLockEffect(x, id, locks, Effect(x', locks', None), l)
  {
    if x.phases.Get(l) != Post {
      var (p, k) := LockMove(x.phases.Get(l), locks.Get(l), id);
      LockMoveGood(x.phases.Get(l), locks.Get(l), id);
      SetGet(x.phases, p, locks, k, l, l);
    } else {
      SetGet(x.phases, Out, locks, locks.Get(l), l, l);
    }
  }

  lemma LockStepOtherLock(x: Hart, id: nat, locks: Locks, m: Lock, l: Lock)
    requires x.depth > 0 && !Settled(x.phases.Get(m)) && l != m
    requires OwnerFits(x.phases.Get(l), locks.Get(l).owner, id)
    ensures var (x', locks') := LockStep(x, locks, id, m);
      GoodLockEffect(x, id, locks, Effect(x', locks', None), l)
  {
    if x.phases.Get(m) != Post {
      var (p, k) := LockMove(x.phases.Get(m), locks.Get(m), id);
      SetGet(x.phases, p, locks, k, m, l);
    } else {
      SetGet(x.phases, Out, locks, locks.Get(m), m, l);
    }
  }

  lemma CreateScanFailedGood(x: Hart, locks: Locks, slots: seq<Slot>, exits: Exits)
    requires View(x, slots, exits) && AtMain(x) && x.loc.Creating? && x.loc.create.CreateScan?
    requires x.loc.create.k >= PROCESSES_MAXIMUM
    ensures GoodStep(x, slots, exits, locks, CreateStep(x, x.loc.create, locks, slots))
  {
  }

  lemma CreateScanFoundGood(x: Hart, locks: Locks, slots: seq<Slot>, exits: Exits)
    requires View(x, slots, exits) && AtMain(x) && x.loc.Creating? && x.loc.create.CreateScan?
    requires x.loc.create.k < PROCESSES_MAXIMUM && slots[x.loc.create.k].state == Unused
    ensures GoodStep(x, slots, exits, locks, CreateStep(x, x.loc.create, locks, slots))
  {
  }

  lemma CreateScanNextGood(x: Hart, locks: Locks, slots: seq<Slot>, exits: Exits)
    requires View(x, slots, exits) && AtMain(x) && x.loc.Creating? && x.loc.create.CreateScan?
    requires x.loc.create.k < PROCESSES_MAXIMUM && slots[x.loc.create.k].state != Unused
    ensures GoodStep(x, slots, exits, locks, CreateStep(x, x.loc.create, locks, slots))
  {
  }

  lemma CreateScanGood(x: Hart, locks: Locks, slots: seq<Slot>, exits: Exits)
    requires View(x, slots, exits) && AtMain(x) && x.loc.Creating? && x.loc.create.CreateScan?
    ensures GoodStep(x, slots, exits, locks, CreateStep(x, x.loc.create, locks, slots))
  {
    if x.loc.create.k >= PROCESSES_MAXIMUM {
      CreateScanFailedGood(x, locks, slots, exits);
    } else if x.loc.create.k < PROCESSES_MAXIMUM && slots[x.loc.create.k].state == Unused {
      CreateScanFoundGood(x, locks, slots, exits);
    } else {
      CreateScanNextGood(x, locks, slots, exits);
    }
  }

  lemma CreateInitGood(x: Hart, locks: Locks, slots: seq<Slot>, exits: Exits)
    requires View(x, slots, exits) && AtMain(x) && x.loc.Creating? && x.loc.create.CreateInit?
    ensures GoodStep(x, slots, exits, locks, CreateStep(x, x.loc.create, locks, slots))
  {
  }

  lemma CreatePublishGood(x: Hart, locks: Locks, slots: seq<Slot>, exits: Exits)
    requires View(x, slots, exits) && AtMain(x) && x.loc.Creating? && x.loc.create.CreatePublish?
    ensures GoodStep(x, slots, exits, locks, CreateStep(x, x.loc.create, locks, slots))
  {
  }

  lemma TrapLockGood(x: Hart, locks: Locks, slots: seq<Slot>, exits: Exits)
    requires View(x, slots, exits) && AtMain(x) && x.loc == Trapping(TrapLock)
    ensures GoodStep(x, slots, exits, locks, TrapStep(x, TrapLock, locks))
  {
  }

  lemma TrapDispatchFatalGood(x: Hart, locks: Locks, slots: seq<Slot>, exits: Exits)
    requires View(x, slots, exits) && AtMain(x) && x.loc == Trapping(TrapDispatch)
    requires Fatal(x.cause, x.wasKernel, x.current.Some?)
    ensures GoodStep(x, slots, exits, locks, TrapStep(x, TrapDispatch, locks))
  {
    hide SlotFits;
  }

  lemma TrapDispatchPutcharGood(x: Hart, locks: Locks, slots: seq<Slot>, exits: Exits)
    requires View(x, slots, exits) && AtMain(x) && x.loc == Trapping(TrapDispatch)
    requires !Fatal(x.cause, x.wasKernel, x.current.Some?) && x.cause == EcallFromUser && x.frame.a0 == SYSCALL_PUTCHAR
    ensures GoodStep(x, slots, exits, locks, TrapStep(x, TrapDispatch, locks))
  {
  }

  lemma TrapDispatchExitGood(x: Hart, locks: Locks, slots: seq<Slot>, exits: Exits)
    requires View(x, slots, exits) && AtMain(x) && x.loc == Trapping(TrapDispatch)
    requires !Fatal(x.cause, x.wasKernel, x.current.Some?) && x.cause == EcallFromUser && x.frame.a0 == SYSCALL_EXIT
    ensures GoodStep(x, slots, exits, locks, TrapStep(x, TrapDispatch, locks))
  {
  }

  lemma TrapDispatchSwitchGood(x: Hart, locks: Locks, slots: seq<Slot>, exits: Exits)
    requires View(x, slots, exits) && AtMain(x) && x.loc == Trapping(TrapDispatch)
    requires !Fatal(x.cause, x.wasKernel, x.current.Some?) && (x.cause == EcallFromUser ==>
      x.frame.a0 != SYSCALL_PUTCHAR && x.frame.a0 != SYSCALL_EXIT)
    ensures GoodStep(x, slots, exits, locks, TrapStep(x, TrapDispatch, locks))
  {
  }

  lemma TrapDispatchGood(x: Hart, locks: Locks, slots: seq<Slot>, exits: Exits)
    requires View(x, slots, exits) && AtMain(x) && x.loc == Trapping(TrapDispatch)
    ensures GoodStep(x, slots, exits, locks, TrapStep(x, TrapDispatch, locks))
  {
    if Fatal(x.cause, x.wasKernel, x.current.Some?) {
      TrapDispatchFatalGood(x, locks, slots, exits);
    } else if !Fatal(x.cause, x.wasKernel, x.current.Some?) && x.cause == EcallFromUser &&
      x.frame.a0 == SYSCALL_PUTCHAR {
      TrapDispatchPutcharGood(x, locks, slots, exits);
    } else if !Fatal(x.cause, x.wasKernel, x.current.Some?) && x.cause == EcallFromUser && x.frame.a0 == SYSCALL_EXIT {
      TrapDispatchExitGood(x, locks, slots, exits);
    } else {
      TrapDispatchSwitchGood(x, locks, slots, exits);
    }
  }

  lemma TrapPutcharGood(x: Hart, locks: Locks, slots: seq<Slot>, exits: Exits)
    requires View(x, slots, exits) && AtMain(x) && x.loc == Trapping(TrapPutchar)
    ensures GoodStep(x, slots, exits, locks, TrapStep(x, TrapPutchar, locks))
  {
  }

  lemma TrapPutcharDoneGood(x: Hart, locks: Locks, slots: seq<Slot>, exits: Exits)
    requires View(x, slots, exits) && AtMain(x) && x.loc == Trapping(TrapPutcharDone)
    ensures GoodStep(x, slots, exits, locks, TrapStep(x, TrapPutcharDone, locks))
  {
  }

  lemma DestroyLockGood(x: Hart, locks: Locks, slots: seq<Slot>, exits: Exits)
    requires View(x, slots, exits) && AtMain(x) && x.loc == Destroying(DestroyLock)
    ensures GoodStep(x, slots, exits, locks, DestroyStep(x, DestroyLock, locks, slots))
  {
  }

  lemma DestroyTakeGood(x: Hart, locks: Locks, slots: seq<Slot>, exits: Exits)
    requires View(x, slots, exits) && AtMain(x) && x.loc == Destroying(DestroyTake)
    ensures GoodStep(x, slots, exits, locks, DestroyStep(x, DestroyTake, locks, slots))
  {
  }

  lemma DestroyIdGood(x: Hart, locks: Locks, slots: seq<Slot>, exits: Exits)
    requires View(x, slots, exits) && AtMain(x) && x.loc == Destroying(DestroyId)
    ensures GoodStep(x, slots, exits, locks, DestroyStep(x, DestroyId, locks, slots))
  {
  }

  lemma DestroyStateGood(x: Hart, locks: Locks, slots: seq<Slot>, exits: Exits)
    requires View(x, slots, exits) && AtMain(x) && x.loc == Destroying(DestroyState)
    ensures GoodStep(x, slots, exits, locks, DestroyStep(x, DestroyState, locks, slots))
  {
  }

  lemma OffEntryGood(x: Hart, locks: Locks, slots: seq<Slot>, exits: Exits)
    requires View(x, slots, exits) && AtMain(x) && x.loc == SwitchingOff(OffEntry)
    ensures GoodStep(x, slots, exits, locks, OffStep(x, OffEntry, locks, slots))
  {
  }

  lemma OffSaveGood(x: Hart, locks: Locks, slots: seq<Slot>, exits: Exits)
    requires View(x, slots, exits) && AtMain(x) && x.loc == SwitchingOff(OffSave)
    ensures GoodStep(x, slots, exits, locks, OffStep(x, OffSave, locks, slots))
  {
  }

  lemma OffPcKernelGood(x: Hart, locks: Locks, slots: seq<Slot>, exits: Exits)
    requires View(x, slots, exits) && AtMain(x) && x.loc == SwitchingOff(OffPc)
    requires slots[x.current.value].kernel
    ensures GoodStep(x, slots, exits, locks, OffStep(x, OffPc, locks, slots))
  {
  }

  lemma OffPcUserGood(x: Hart, locks: Locks, slots: seq<Slot>, exits: Exits)
    requires View(x, slots, exits) && AtMain(x) && x.loc == SwitchingOff(OffPc)
    requires !slots[x.current.value].kernel
    ensures GoodStep(x, slots, exits, locks, OffStep(x, OffPc, locks, slots))
  {
  }

  lemma OffPcGood(x: Hart, locks: Locks, slots: seq<Slot>, exits: Exits)
    requires View(x, slots, exits) && AtMain(x) && x.loc == SwitchingOff(OffPc)
    ensures GoodStep(x, slots, exits, locks, OffStep(x, OffPc, locks, slots))
  {
    if slots[x.current.value].kernel {
      OffPcKernelGood(x, locks, slots, exits);
    } else {
      OffPcUserGood(x, locks, slots, exits);
    }
  }

  lemma OffNextIdGood(x: Hart, locks: Locks, slots: seq<Slot>, exits: Exits)
    requires View(x, slots, exits) && AtMain(x) && x.loc == SwitchingOff(OffNextId)
    ensures GoodStep(x, slots, exits, locks, OffStep(x, OffNextId, locks, slots))
  {
  }

  lemma OffPublishGood(x: Hart, locks: Locks, slots: seq<Slot>, exits: Exits)
    requires View(x, slots, exits) && AtMain(x) && x.loc == SwitchingOff(OffPublish)
    ensures GoodStep(x, slots, exits, locks, OffStep(x, OffPublish, locks, slots))
  {
  }

  lemma OffClearGood(x: Hart, locks: Locks, slots: seq<Slot>, exits: Exits)
    requires View(x, slots, exits) && AtMain(x) && x.loc == SwitchingOff(OffClear)
    ensures GoodStep(x, slots, exits, locks, OffStep(x, OffClear, locks, slots))
  {
  }

  lemma ChooseScanFailedGood(x: Hart, locks: Locks, slots: seq<Slot>, exits: Exits)
    requires View(x, slots, exits) && AtMain(x) && x.loc.Choosing? && x.loc.choose.ChooseScan?
    requires x.loc.choose.k >= PROCESSES_MAXIMUM
    ensures GoodStep(x, slots, exits, locks, ChooseStep(x, x.loc.choose, locks, slots))
  {
  }

  lemma ChooseScanFoundGood(x: Hart, locks: Locks, slots: seq<Slot>, exits: Exits)
    requires View(x, slots, exits) && AtMain(x) && x.loc.Choosing? && x.loc.choose.ChooseScan?
    requires x.loc.choose.k < PROCESSES_MAXIMUM && Waiting(slots[ScanId(x.start, x.loc.choose.k)])
    ensures GoodStep(x, slots, exits, locks, ChooseStep(x, x.loc.choose, locks, slots))
  {
  }

  lemma ChooseScanNextGood(x: Hart, locks: Locks, slots: seq<Slot>, exits: Exits)
    requires View(x, slots, exits) && AtMain(x) && x.loc.Choosing? && x.loc.choose.ChooseScan?
    requires x.loc.choose.k < PROCESSES_MAXIMUM && !Waiting(slots[ScanId(x.start, x.loc.choose.k)])
    ensures GoodStep(x, slots, exits, locks, ChooseStep(x, x.loc.choose, locks, slots))
  {
  }

  lemma ChooseScanGood(x: Hart, locks: Locks, slots: seq<Slot>, exits: Exits)
    requires View(x, slots, exits) && AtMain(x) && x.loc.Choosing? && x.loc.choose.ChooseScan?
    ensures GoodStep(x, slots, exits, locks, ChooseStep(x, x.loc.choose, locks, slots))
  {
    if x.loc.choose.k >= PROCESSES_MAXIMUM {
      ChooseScanFailedGood(x, locks, slots, exits);
    } else if x.loc.choose.k < PROCESSES_MAXIMUM && Waiting(slots[ScanId(x.start, x.loc.choose.k)]) {
      ChooseScanFoundGood(x, locks, slots, exits);
    } else {
      ChooseScanNextGood(x, locks, slots, exits);
    }
  }

  lemma ChooseLockGood(x: Hart, locks: Locks, slots: seq<Slot>, exits: Exits)
    requires View(x, slots, exits) && AtMain(x) && x.loc == Choosing(ChooseLock)
    ensures GoodStep(x, slots, exits, locks, ChooseStep(x, ChooseLock, locks, slots))
  {
  }

  lemma ChooseTakeGood(x: Hart, locks: Locks, slots: seq<Slot>, exits: Exits)
    requires View(x, slots, exits) && AtMain(x) && x.loc == Choosing(ChooseTake)
    ensures GoodStep(x, slots, exits, locks, ChooseStep(x, ChooseTake, locks, slots))
  {
  }

  lemma ChooseFirstGood(x: Hart, locks: Locks, slots: seq<Slot>, exits: Exits)
    requires View(x, slots, exits) && AtMain(x) && x.loc == Choosing(ChooseFirst)
    ensures GoodStep(x, slots, exits, locks, ChooseStep(x, ChooseFirst, locks, slots))
  {
  }

  lemma ChooseRunGood(x: Hart, locks: Locks, slots: seq<Slot>, exits: Exits)
    requires View(x, slots, exits) && AtMain(x) && x.loc == Choosing(ChooseRun)
    ensures GoodStep(x, slots, exits, locks, ChooseStep(x, ChooseRun, locks, slots))
  {
  }

  lemma OnPickGood(x: Hart, locks: Locks, slots: seq<Slot>, exits: Exits)
    requires View(x, slots, exits) && AtMain(x) && x.loc == SwitchingOn(OnPick)
    ensures GoodStep(x, slots, exits, locks, OnStep(x, OnPick, locks, slots, exits))
  {
  }

  lemma OnSetRaGood(x: Hart, locks: Locks, slots: seq<Slot>, exits: Exits)
    requires View(x, slots, exits) && AtMain(x) && x.loc == SwitchingOn(OnSetRa)
    ensures GoodStep(x, slots, exits, locks, OnStep(x, OnSetRa, locks, slots, exits))
  {
  }

  lemma OnReturnGood(x: Hart, locks: Locks, slots: seq<Slot>, exits: Exits)
    requires View(x, slots, exits) && AtMain(x) && x.loc == SwitchingOn(OnReturn)
    ensures GoodStep(x, slots, exits, locks, OnStep(x, OnReturn, locks, slots, exits))
  {
  }

  lemma OnLoadGood(x: Hart, locks: Locks, slots: seq<Slot>, exits: Exits)
    requires View(x, slots, exits) && AtMain(x) && x.loc == SwitchingOn(OnLoad)
    ensures GoodStep(x, slots, exits, locks, OnStep(x, OnLoad, locks, slots, exits))
  {
  }

  lemma OnDoneGood(x: Hart, locks: Locks, slots: seq<Slot>, exits: Exits)
    requires View(x, slots, exits) && AtMain(x) && x.loc == SwitchingOn(OnDone)
    ensures GoodStep(x, slots, exits, locks, OnStep(x, OnDone, locks, slots, exits))
  {
    hide SlotFits;
  }

  lemma OnRestoreGood(x: Hart, locks: Locks, slots: seq<Slot>, exits: Exits)
    requires View(x, slots, exits) && AtMain(x) && x.loc == SwitchingOn(OnRestore)
    ensures GoodStep(x, slots, exits, locks, OnStep(x, OnRestore, locks, slots, exits))
  {
  }

  lemma MainStepGood(x: Hart, locks: Locks, slots: seq<Slot>, exits: Exits)
    requires View(x, slots, exits) && Enabled(x, slots, Go) && AtMain(x)
    ensures GoodStep(x, slots, exits, locks, MainStep(x, locks, slots, exits))
  {
    match x.loc
    case Creating(CreateScan(_)) => CreateScanGood(x, locks, slots, exits);
    case Creating(CreateInit(_)) => CreateInitGood(x, locks, slots, exits);
    case Creating(CreatePublish(_)) => CreatePublishGood(x, locks, slots, exits);
    case Trapping(TrapLock) => TrapLockGood(x, locks, slots, exits);
    case Trapping(TrapDispatch) => TrapDispatchGood(x, locks, slots, exits);
    case Trapping(TrapPutchar) => TrapPutcharGood(x, locks, slots, exits);
    case Trapping(TrapPutcharDone) => TrapPutcharDoneGood(x, locks, slots, exits);
    case Destroying(DestroyLock) => DestroyLockGood(x, locks, slots, exits);
    case Destroying(DestroyTake) => DestroyTakeGood(x, locks, slots, exits);
    case Destroying(DestroyId) => DestroyIdGood(x, locks, slots, exits);
    case Destroying(DestroyState) => DestroyStateGood(x, locks, slots, exits);
    case SwitchingOff(OffEntry) => OffEntryGood(x, locks, slots, exits);
    case SwitchingOff(OffSave) => OffSaveGood(x, locks, slots, exits);
    case SwitchingOff(OffPc) => OffPcGood(x, locks, slots, exits);
    case SwitchingOff(OffNextId) => OffNextIdGood(x, locks, slots, exits);
    case SwitchingOff(OffPublish) => OffPublishGood(x, locks, slots, exits);
    case SwitchingOff(OffClear) => OffClearGood(x, locks, slots, exits);
    case Choosing(ChooseLock) => ChooseLockGood(x, locks, slots, exits);
    case Choosing(ChooseScan(_)) => ChooseScanGood(x, locks, slots, exits);
    case Choosing(ChooseTake) => ChooseTakeGood(x, locks, slots, exits);
    case Choosing(ChooseFirst) => ChooseFirstGood(x, locks, slots, exits);
    case Choosing(ChooseRun) => ChooseRunGood(x, locks, slots, exits);
    case SwitchingOn(OnPick) => OnPickGood(x, locks, slots, exits);
    case SwitchingOn(OnSetRa) => OnSetRaGood(x, locks, slots, exits);
    case SwitchingOn(OnReturn) => OnReturnGood(x, locks, slots, exits);
    case SwitchingOn(OnLoad) => OnLoadGood(x, locks, slots, exits);
    case SwitchingOn(OnDone) => OnDoneGood(x, locks, slots, exits);
    case SwitchingOn(OnRestore) => OnRestoreGood(x, locks, slots, exits);
    case _ =>
  }

  lemma TakeTrapGood(x: Hart, locks: Locks, slots: seq<Slot>, exits: Exits, cause: Cause)
    requires View(x, slots, exits) && Enabled(x, slots, Trap(cause))
    ensures GoodStep(x, slots, exits, locks, TakeTrap(x, locks, slots, cause))
  {
  }

  lemma PrintGood(x: Hart, id: nat, locks: Locks, slots: seq<Slot>, exits: Exits)
    requires View(x, slots, exits) && Enabled(x, slots, Print)
    ensures GoodStep(x, slots, exits, locks, Exec(x, id, locks, slots, exits, Print))
  {
    hide HartSlotFits, SlotFits;
    SlotsUntouched(x, Exec(x, id, locks, slots, exits, Print).hart, slots, exits);
  }

  lemma PrintedGood(x: Hart, id: nat, locks: Locks, slots: seq<Slot>, exits: Exits)
    requires View(x, slots, exits) && x.phases.AllSettled() && x.phases.io == Held
    ensures GoodStep(x, slots, exits, locks, Exec(x, id, locks, slots, exits, Go))
  {
    SlotsUntouched(x, Exec(x, id, locks, slots, exits, Go).hart, slots, exits);
  }

  lemma ProcessStepGood(x: Hart, id: nat, locks: Locks, slots: seq<Slot>, exits: Exits, a: Action)
    requires View(x, slots, exits) && Enabled(x, slots, a)
    requires a.Compute? || a.Create? || a.Exit? || a.Jump?
    ensures GoodStep(x, slots, exits, locks, Exec(x, id, locks, slots, exits, a))
  {
    hide SlotFits;
  }

  lemma ExecGood(x: Hart, id: nat, locks: Locks, slots: seq<Slot>, exits: Exits, a: Action)
    requires View(x, slots, exits) && Enabled(x, slots, a)
    ensures var e := Exec(x, id, locks, slots, exits, a);
      && GoodEffect(x, slots, exits, e)
      && (x.phases.AllSettled() ==> GoodStep(x, slots, exits, locks, e))
  {
    if !x.phases.AllSettled() {
      LockStepGood(x, id, locks, slots, exits);
    } else if a.Trap? {
      TakeTrapGood(x, locks, slots, exits, a.cause);
    } else if a.Print? {
      PrintGood(x, id, locks, slots, exits);
    } else if a.Go? && x.phases.io == Held {
      PrintedGood(x, id, locks, slots, exits);
    } else if a.Go? {
      MainStepGood(x, locks, slots, exits);
    } else {
      ProcessStepGood(x, id, locks, slots, exits, a);
    }
  }

  lemma ExecLocks(x: Hart, id: nat, locks: Locks, slots: seq<Slot>, exits: Exits, a: Action, l: Lock)
    requires View(x, slots, exits) && Enabled(x, slots, a)
    requires OwnerFits(x.phases.Get(l), locks.Get(l).owner, id)
    requires Inside(x.phases.Get(l)) ==> locks.Get(l).locked
    ensures GoodLockEffect(x, id, locks, Exec(x, id, locks, slots, exits, a), l)
  {
    hide HartSlotFits, SlotFits, PhasesFit;
    if !x.phases.AllSettled() {
      if l == CallOf(x.phases) {
        LockStepOwnLock(x, id, locks, l);
      } else {
        LockStepOtherLock(x, id, locks, CallOf(x.phases), l);
      }
    } else {
      ExecGood(x, id, locks, slots, exits, a);
    }
  }

  /** Main result of this module: every step of every hart keeps the invariant. */
  lemma StepKeepsInv(s: State, h: nat, a: Action)
    requires Inv(s) && h < |s.harts| && Enabled(s.harts[h], s.slots, a)
    ensures Inv(Apply(s, h, Exec(s.harts[h], h, s.locks, s.slots, s.exits, a)))
  {
    var x := s.harts[h];
    assert Local(x) && HartSlotFits(x, s.slots, s.exits);
    ExecGood(x, h, s.locks, s.slots, s.exits, a);
    var e := Exec(x, h, s.locks, s.slots, s.exits, a);
    forall l: Lock
      ensures GoodLockEffect(x, h, s.locks, e, l)
    {
      assert s.locks.Get(l).locked <==> SomeoneInside(s, l);
      ExecLocks(x, h, s.locks, s.slots, s.exits, a, l);
    }
    EffectKeepsInv(s, h, e);
  }
}
