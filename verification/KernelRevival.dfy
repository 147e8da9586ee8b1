/** While there is hope, the harts can be scheduled so that a process is entered. */
module KernelRevival {
  import opened KernelState
  import opened KernelSteps
  import opened KernelInvariant
  import opened KernelRuns
  import opened KernelFate
  import opened KernelHope
  import opened KernelLostLock
  import opened KernelReach
  import opened KernelWork
  import opened KernelSearch
  import opened KernelPublishing
  import opened KernelStarvation

  // ---------------------------------------------------------------- the search ends

  ghost predicate CanEnter(s: State) {
    exists t :: Reaches(s, t) && Entering(t)
  }

  lemma CanEnterFrom(s: State, t: State)
    requires Reaches(s, t) && CanEnter(t)
    ensures CanEnter(s)
  {
    var u :| Reaches(t, u) && Entering(u);
    ReachesOn(s, t, u);
  }

  lemma CanEnterNow(s: State)
    requires Entering(s)
    ensures CanEnter(s)
  {
    ReachesItself(s);
  }

  lemma WaitingIsEntered(s: State, h: nat)
    requires Inv(s) && h < |s.harts| && Seeks(s.harts[h]) && !s.locks.processes.locked && SomeWaits(s.slots)
    ensures CanEnter(s)
  {
    var p :| 0 <= p < |s.slots| && Waiting(s.slots[p]);
    var u := s;
    ReachesItself(s);
    if s.harts[h].loc.Destroying? {
      u := Destroyed(s, h);
    }
    if Entering(u) {
      CanEnterNow(u);
    } else {
      var t := Searched(u, h, p);
      assert t.harts[h].loc.SwitchingOn?;
      CanEnterNow(t);
      CanEnterFrom(u, t);
    }
    CanEnterFrom(s, u);
  }

  lemma FilledIsEntered(s: State, h: nat, c: nat)
    requires Inv(s) && h < |s.harts| && Seeks(s.harts[h]) && !s.locks.processes.locked
    requires c < |s.harts| && MayCreate(s.harts[c], s.slots) && SomeUnused(s.slots)
    ensures CanEnter(s)
  {
    assert c != h;
    var t := SlotFilled(s, c);
    if Entering(t) {
      CanEnterNow(t);
    } else {
      SeeksOn(s.harts[h], t.harts[h]);
      WaitingIsEntered(t, h);
    }
    CanEnterFrom(s, t);
  }

  lemma PairIsEntered(s: State, h: nat, c: nat, d: nat)
    requires Inv(s) && h < |s.harts| && Seeks(s.harts[h]) && !s.locks.processes.locked
    requires c < |s.harts| && d < |s.harts| && c != d
    requires MayCreate(s.harts[c], s.slots) && MayFree(s.harts[d], s.slots)
    ensures CanEnter(s)
  {
    var t := SlotFreed(s, d);
    if Entering(t) {
      CanEnterNow(t);
    } else {
      if h != d {
        SeeksOn(s.harts[h], t.harts[h]);
      }
      FilledIsEntered(t, h, c);
    }
    CanEnterFrom(s, t);
  }

  // ---------------------------------------------------------------- hope by a trap

  /** What the harts still are after one that had trap_print_lock has left it. */
  ghost predicate KeepsParts(s: State, t: State) {
    && |t.harts| == |s.harts|
    && (forall f :: 0 <= f < |s.harts| && Seeks(s.harts[f]) ==> Seeks(t.harts[f]))
    && (forall f :: 0 <= f < |s.harts| && MayCreate(s.harts[f], s.slots) ==> MayCreate(t.harts[f], t.slots))
    && (SomeWaits(t.slots) || forall f :: 0 <= f < |s.harts| && MayPublish(s.harts[f]) ==> MayPublish(t.harts[f]))
    && (SomeWaits(t.slots) || forall f :: 0 <= f < |s.harts| && Destroys(s.harts[f]) ==> Destroys(t.harts[f]))
  }

  /** Unless traps are closed, trap_print_lock can be freed, or its holder makes its process wait. */
  lemma Opened(s: State) returns (t: State)
    requires Inv(s) && !s.locks.processes.locked && !Entering(s) && !TrapsAreClosed(s)
    ensures Reaches(s, t) && Inv(t) && !t.locks.processes.locked && KeepsParts(s, t)
    ensures SomeWaits(t.slots) || !t.locks.trapPrint.locked
  {
    ReachesItself(s);
    t := s;
    if s.locks.trapPrint.locked {
      var k := HolderOf(s, TrapPrint);
      assert !Closes(s.harts[k]) && !s.harts[k].loc.SwitchingOn?;
      hide Inv, Closes, MayPublish, Entering, TrapsAreClosed;
      t := TrapLockLeft(s, k);
      PartsKept(s, t, k);
    }
  }

  /** The kind of a hart does not depend on its lock calls. */
  lemma SameKind(x: Hart, y: Hart)
    requires SameButCalls(x, y)
    ensures Seeks(x) == Seeks(y) && MayPublish(x) == MayPublish(y) && Destroys(x) == Destroys(y)
  {
    hide FateOf;
  }

  /** The holder of trap_print_lock is in handle_trap, or has panicked there. */
  lemma TrapHolderKind(s: State, k: nat)
    requires Inv(s) && k < |s.harts| && Inside(s.harts[k].phases.trapPrint) && !Closes(s.harts[k])
    requires !s.harts[k].loc.SwitchingOn?
    ensures !Seeks(s.harts[k]) && !Destroys(s.harts[k]) && !MayCreate(s.harts[k], s.slots)
  {
    TrapHolderIsKnown(s, k);
    hide FateOf;
  }

  lemma PartsKept(s: State, t: State, k: nat)
    requires Inv(s) && k < |s.harts| && GoesOnFree(s, t, k)
    requires Inside(s.harts[k].phases.trapPrint) && !Closes(s.harts[k]) && !s.harts[k].loc.SwitchingOn?
    requires SomeWaits(t.slots) || !MayPublish(s.harts[k])
    ensures KeepsParts(s, t)
  {
    TrapHolderKind(s, k);
    hide Inv, Seeks, MayPublish, Destroys, MayCreate, MayFree, SomeWaits, SparesSlots, SameButCalls;
    forall f | 0 <= f < |s.harts| && f != k
      ensures Seeks(s.harts[f]) == Seeks(t.harts[f]) && MayPublish(s.harts[f]) == MayPublish(t.harts[f])
      ensures Destroys(s.harts[f]) == Destroys(t.harts[f])
    {
      SameKind(s.harts[f], t.harts[f]);
    }
  }

  /** Hart `g` makes its process wait, and hart `h` finds it. */
  lemma PublisherIsEntered(s: State, h: nat, g: nat)
    requires Inv(s) && h < |s.harts| && Seeks(s.harts[h]) && !s.locks.processes.locked && !Entering(s)
    requires g < |s.harts| && MayPublish(s.harts[g]) && GetsIn(s, s.harts[g])
    ensures CanEnter(s)
  {
    if Inside(s.harts[g].phases.trapPrint) {
      InsideIsInTrap(s, g);
      var t := PublisherInside(s, g);
      SeeksOn(s.harts[h], t.harts[h]);
      WaitingIsEntered(t, h);
      CanEnterFrom(s, t);
    } else {
      var u := Opened(s);
      hide Inv, MayPublish;
      if SomeWaits(u.slots) {
        WaitingIsEntered(u, h);
      } else {
        MadeToWaitIsEntered(u, h, g);
      }
      CanEnterFrom(s, u);
    }
  }

  lemma InsideIsInTrap(s: State, g: nat)
    requires Inv(s) && g < |s.harts| && Inside(s.harts[g].phases.trapPrint)
    ensures s.harts[g].loc != Proc
  {
    assert Local(s.harts[g]);
  }

  lemma MadeToWaitIsEntered(s: State, h: nat, g: nat)
    requires Inv(s) && h < |s.harts| && Seeks(s.harts[h]) && !s.locks.processes.locked
    requires g < |s.harts| && MayPublish(s.harts[g]) && !s.locks.trapPrint.locked
    ensures CanEnter(s)
  {
    var t := MadeToWait(s, g);
    assert h != g;
    SeeksOn(s.harts[h], t.harts[h]);
    hide Inv;
    WaitingIsEntered(t, h);
    CanEnterFrom(s, t);
  }

  /** Hart `d` destroys its process, hart `c` creates one in its slot, and hart `h` finds it. */
  lemma DestroyerIsEntered(s: State, h: nat, c: nat, d: nat)
    requires Inv(s) && h < |s.harts| && Seeks(s.harts[h]) && !s.locks.processes.locked && !Entering(s)
    requires c < |s.harts| && d < |s.harts| && c != d
    requires MayCreate(s.harts[c], s.slots) && Destroys(s.harts[d]) && GetsIn(s, s.harts[d])
    ensures CanEnter(s)
  {
    if Inside(s.harts[d].phases.trapPrint) {
      TrapLockInside(s, d);
      DestroyedIsEntered(s, h, c, d);
    } else {
      var u := Opened(s);
      hide Inv, MayCreate, Destroys, Seeks;
      if SomeWaits(u.slots) {
        WaitingIsEntered(u, h);
      } else {
        GotInIsEntered(u, h, c, d);
      }
      CanEnterFrom(s, u);
    }
  }

  lemma TrapLockInside(s: State, d: nat)
    requires Inv(s) && d < |s.harts| && Inside(s.harts[d].phases.trapPrint) && Destroys(s.harts[d])
    ensures s.harts[d].loc == Trapping(TrapDispatch)
  {
    assert Local(s.harts[d]);
  }

  lemma GotInIsEntered(s: State, h: nat, c: nat, d: nat)
    requires Inv(s) && h < |s.harts| && Seeks(s.harts[h]) && !s.locks.processes.locked && !s.locks.trapPrint.locked
    requires c < |s.harts| && d < |s.harts| && c != d && MayCreate(s.harts[c], s.slots) && Destroys(s.harts[d])
    ensures CanEnter(s)
  {
    assert h != d;
    hide Inv, MayCreate, FateOf, Seeks, Destroys, MayFree, SparesSlots, SameButCalls;
    var t := GotIn(s, d);
    SeeksOn(s.harts[h], t.harts[h]);
    StillDestroys(s.harts[d], t.harts[d]);
    DestroyedIsEntered(t, h, c, d);
    CanEnterFrom(s, t);
  }

  lemma StillDestroys(x: Hart, y: Hart)
    requires Destroys(x) && SameTrap(x, y) && y.loc == Trapping(TrapDispatch)
    ensures Destroys(y)
  {
    hide FateOf;
  }

  lemma DestroyedIsEntered(s: State, h: nat, c: nat, d: nat)
    requires Inv(s) && h < |s.harts| && Seeks(s.harts[h]) && !s.locks.processes.locked
    requires c < |s.harts| && d < |s.harts| && c != d && MayCreate(s.harts[c], s.slots) && Destroys(s.harts[d])
    requires s.harts[d].loc == Trapping(TrapDispatch) && Inside(s.harts[d].phases.trapPrint)
    ensures CanEnter(s)
  {
    var t := Decided(s, d);
    assert h != d;
    SeeksOn(s.harts[h], t.harts[h]);
    hide Inv, MayCreate, FateOf, Seeks;
    PairIsEntered(t, h, c, d);
    CanEnterFrom(s, t);
  }

  // ---------------------------------------------------------------- hope outlasts the wait for processes_lock

  /** What hart `x` can give hope by, hart `y` can too, unless its work has given hope already. */
  predicate KeepsPart(x: Hart, y: Hart) {
    && (Seeks(x) ==> Seeks(y)) && (MayPublish(x) ==> MayPublish(y)) && (Destroys(x) ==> Destroys(y))
    && y.phases.trapPrint == x.phases.trapPrint && (Closes(y) ==> Closes(x))
  }

  /** Nothing that gives hope is lost from `s` to `t`. */
  ghost predicate KeepsHope(s: State, t: State) {
    && |t.harts| == |s.harts| && SparesSlots(s.slots, t.slots)
    && (forall k :: 0 <= k < |s.harts| ==> KeepsPart(s.harts[k], t.harts[k]))
    && (SomeWaits(t.slots) ||
        forall k :: 0 <= k < |s.harts| && MayCreate(s.harts[k], s.slots) ==> MayCreate(t.harts[k], t.slots))
    && (SomeUnused(t.slots) ||
        forall k :: 0 <= k < |s.harts| && MayFree(s.harts[k], s.slots) ==> MayFree(t.harts[k], t.slots))
  }

  /** Unless processes_lock is lost it can be freed, and hope remains. */
  lemma LockFreed(s: State) returns (t: State)
    requires Inv(s) && !LockIsLost(s) && !Entering(s)
    ensures Reaches(s, t) && Inv(t)
    ensures Entering(t) || (!t.locks.processes.locked && KeepsHope(s, t))
  {
    ReachesItself(s);
    t := s;
    if s.locks.processes.locked {
      var g := HolderOf(s, Processes);
      assert !KeepsLock(s.harts[g], s.slots) && !s.harts[g].loc.SwitchingOn?;
      HolderIsKnown(s, g);
      hide Inv, KeepsLock, MayFree, MayCreate;
      t := Freed(s, g);
      if !Entering(t) {
        KeptByHolder(s, t, g);
      }
    }
  }

  /** The holder of processes_lock either works under it, or is leaving it. */
  lemma HolderIsKnown(s: State, g: nat)
    requires Inv(s) && g < |s.harts| && Inside(s.harts[g].phases.processes) && !s.harts[g].loc.SwitchingOn?
    ensures s.harts[g].phases.processes in {ClearOwner, Unlock} || Seeks(s.harts[g]) ||
      (s.harts[g].loc.Creating? && s.harts[g].phases.trapPrint == Out) || s.harts[g].loc.Panicked?
  {
    assert Local(s.harts[g]);
  }

  lemma HolderKeepsPart(x: Hart, y: Hart)
    requires y.phases.trapPrint == x.phases.trapPrint && (Seeks(x) ==> Seeks(y))
    requires x.phases.processes in {ClearOwner, Unlock} ==> SameButCalls(x, y)
    requires x.phases.processes in {ClearOwner, Unlock} || Seeks(x) || (x.loc.Creating? && x.phases.trapPrint == Out)
    ensures KeepsPart(x, y)
  {
    hide FateOf;
  }

  lemma OtherKeepsPart(x: Hart, y: Hart)
    requires SameButCalls(x, y) && y.phases.trapPrint == x.phases.trapPrint
    ensures KeepsPart(x, y)
  {
    hide FateOf;
  }

  lemma KeptByHolder(s: State, t: State, g: nat)
    requires g < |s.harts| && LetGo(s, t, g) && !s.harts[g].loc.Panicked?
    requires s.harts[g].phases.processes in {ClearOwner, Unlock} || Seeks(s.harts[g]) ||
      (s.harts[g].loc.Creating? && s.harts[g].phases.trapPrint == Out)
    ensures KeepsHope(s, t)
  {
    hide SparesSlots, Closes, MayPublish, Destroys, Waiting;
    forall k | 0 <= k < |s.harts|
      ensures KeepsPart(s.harts[k], t.harts[k])
    {
      if k == g {
        HolderKeepsPart(s.harts[k], t.harts[k]);
      } else {
        OtherKeepsPart(s.harts[k], t.harts[k]);
      }
    }
  }

  /** While there is hope, the harts can be scheduled so that the search finds a process. */
  lemma SearchCanEnd(s: State, h: nat)
    requires Inv(s) && h < |s.harts| && Seeks(s.harts[h]) && Hopeful(s)
    ensures CanEnter(s)
  {
    if Entering(s) {
      CanEnterNow(s);
    } else {
      var t := LockFreed(s);
      if Entering(t) {
        CanEnterNow(t);
      } else {
        HopeRemains(s, t);
        SearchEndsFrom(t, h);
      }
      CanEnterFrom(s, t);
    }
  }

  lemma HopeRemains(s: State, t: State)
    requires SomeHope(s) && KeepsHope(s, t)
    ensures SomeHope(t)
  {
    if SomeWaits(s.slots) {
      var p :| 0 <= p < |s.slots| && Waiting(s.slots[p]);
      assert Waiting(t.slots[p]);
    } else if SomePublisher(s) {
      PublisherRemains(s, t);
    } else if SomeCreator(s) && SomeUnused(s.slots) {
      CreatorRemains(s, t);
    } else {
      PairRemains(s, t);
    }
  }

  lemma GetsInStill(s: State, t: State, f: nat)
    requires KeepsHope(s, t) && f < |s.harts| && GetsIn(s, s.harts[f])
    ensures GetsIn(t, t.harts[f])
  {
    hide Closes, MayPublish, Destroys, Seeks, MayCreate, MayFree;
    assert KeepsPart(s.harts[f], t.harts[f]);
    if k :| 0 <= k < |t.harts| && Closes(t.harts[k]) {
      assert KeepsPart(s.harts[k], t.harts[k]);
    }
  }

  lemma PublisherRemains(s: State, t: State)
    requires SomePublisher(s) && KeepsHope(s, t)
    ensures SomePublisher(t)
  {
    hide MayPublish, GetsIn, Closes, Destroys, Seeks, MayCreate, MayFree;
    var g :| 0 <= g < |s.harts| && MayPublish(s.harts[g]) && GetsIn(s, s.harts[g]);
    GetsInStill(s, t, g);
    assert KeepsPart(s.harts[g], t.harts[g]);
  }

  lemma CreatorRemains(s: State, t: State)
    requires SomeCreator(s) && SomeUnused(s.slots) && KeepsHope(s, t)
    ensures SomeWaits(t.slots) || (SomeCreator(t) && SomeUnused(t.slots))
  {
    hide KeepsPart, MayCreate, MayFree;
    var p :| 0 <= p < |s.slots| && s.slots[p].state == Unused;
    var c :| 0 <= c < |s.harts| && MayCreate(s.harts[c], s.slots);
    assert t.slots[p].state == Unused || Waiting(t.slots[p]);
    assert SomeWaits(t.slots) || MayCreate(t.harts[c], t.slots);
  }

  lemma PairRemains(s: State, t: State)
    requires SomePair(s) && KeepsHope(s, t)
    ensures SomeWaits(t.slots) || (SomeCreator(t) && SomeUnused(t.slots)) || SomePair(t)
  {
    hide GetsIn, Closes, MayPublish, Destroys, Seeks, MayCreate, MayFree;
    var c, d :| 0 <= c < |s.harts| && 0 <= d < |s.harts| && c != d
      && MayCreate(s.harts[c], s.slots) && CanFree(s, s.harts[d]);
    assert SomeWaits(t.slots) || MayCreate(t.harts[c], t.slots);
    assert KeepsPart(s.harts[d], t.harts[d]);
    if GetsIn(s, s.harts[d]) {
      GetsInStill(s, t, d);
    }
    assert SomeUnused(t.slots) || CanFree(t, t.harts[d]);
  }

  lemma SearchEndsFrom(s: State, h: nat)
    requires Inv(s) && h < |s.harts| && Seeks(s.harts[h]) && !s.locks.processes.locked && SomeHope(s)
    ensures CanEnter(s)
  {
    hide Inv, Seeks, MayPublish, MayCreate, MayFree, Destroys, GetsIn;
    if Entering(s) {
      CanEnterNow(s);
    } else if SomeWaits(s.slots) {
      WaitingIsEntered(s, h);
    } else if SomePublisher(s) {
      var g :| 0 <= g < |s.harts| && MayPublish(s.harts[g]) && GetsIn(s, s.harts[g]);
      PublisherIsEntered(s, h, g);
    } else if SomeCreator(s) && SomeUnused(s.slots) {
      var c :| 0 <= c < |s.harts| && MayCreate(s.harts[c], s.slots);
      FilledIsEntered(s, h, c);
    } else {
      var c, d :| 0 <= c < |s.harts| && 0 <= d < |s.harts| && c != d
        && MayCreate(s.harts[c], s.slots) && CanFree(s, s.harts[d]);
      if MayFree(s.harts[d], s.slots) {
        PairIsEntered(s, h, c, d);
      } else {
        DestroyerIsEntered(s, h, c, d);
      }
    }
  }

  /**
   Main result: when a hart looks for a process, some interleaving of the harts leads to a process
   being entered if and only if there is hope. Otherwise the kernel stands still for ever.
   */
  lemma SearchCanEndExactlyIf(run: seq<State>, moves: seq<(nat, Action)>, i: nat, h: nat)
    requires FromStart(run, moves) && i < |run| && h < |run[i].harts| && Seeks(run[i].harts[h])
    ensures CanEnter(run[i]) <==> Hopeful(run[i])
  {
    InitEstablishesInv(run[0]);
    InvAlong(run, moves, i);
    hide Inv;
    if Hopeful(run[i]) {
      SearchCanEnd(run[i], h);
    } else {
      NoHopeNoEntry(run[i]);
    }
  }

  lemma NoHopeNoEntry(s: State)
    requires Inv(s) && !Hopeful(s)
    ensures !CanEnter(s)
  {
    hide Inv, SomeHope, LockIsLost;
    forall t | Reaches(s, t)
      ensures !Entering(t)
    {
      var run, moves :| Leads(s, t, run, moves);
      HopelessAlong(run, moves, 0, |moves|);
    }
  }

  /**
   Main result: in every state of every run, processes_lock can come to be free again if and only
   if it is not lost; and a process can come to be entered, or the lock to be free, if and only if
   one is being entered already or the lock is not lost.
   */
  lemma LockIsLostExactlyIf(run: seq<State>, moves: seq<(nat, Action)>, i: nat)
    requires FromStart(run, moves) && i < |run|
    ensures CanUnlock(run[i]) <==> !LockIsLost(run[i])
    ensures CanEnter(run[i]) || CanUnlock(run[i]) <==> Entering(run[i]) || !LockIsLost(run[i])
  {
    InitEstablishesInv(run[0]);
    InvAlong(run, moves, i);
    hide Inv;
    if LockIsLost(run[i]) {
      LostForever(run[i]);
      if Entering(run[i]) {
        CanEnterNow(run[i]);
      }
    } else {
      LockCanBeFreed(run[i]);
    }
  }

  lemma LostForever(s: State)
    requires Inv(s) && LockIsLost(s)
    ensures !CanUnlock(s) && (CanEnter(s) ==> Entering(s))
  {
    forall t | Reaches(s, t)
      ensures t.locks.processes.locked && (Entering(t) ==> Entering(s))
    {
      var run, moves :| Leads(s, t, run, moves);
      InvAlong(run, moves, |moves|);
      LostAlong(run, moves, 0, |moves|);
      LostIsLocked(t);
    }
  }
}
