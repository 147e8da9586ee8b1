/** A search that has something to find, and how a slot is freed and filled. */
module KernelSearch {
  import opened Prelude
  import opened KernelState
  import opened KernelSteps
  import opened KernelInvariant
  import opened KernelProgress
  import opened KernelHope
  import opened KernelReach
  import opened KernelWork
  import opened ProcessSearch

  // ---------------------------------------------------------------- a search with something to find

  /** Hart `h` has stayed outside processes_lock, which is free. */
  lemma StaysFree(s: State, t: State, h: nat)
    requires Inv(s) && Inv(t) && h < |s.harts| == |t.harts| && !s.locks.processes.locked
    requires forall k :: 0 <= k < |s.harts| && k != h ==> t.harts[k].phases.processes == s.harts[k].phases.processes
    requires !Inside(t.harts[h].phases.processes)
    ensures !t.locks.processes.locked
  {
    assert t.locks.Get(Processes).locked <==> SomeoneInside(t, Processes);
    assert s.locks.Get(Processes).locked <==> SomeoneInside(s, Processes);
    forall k | 0 <= k < |t.harts|
      ensures !Inside(t.harts[k].phases.Get(Processes))
    {
      assert k != h ==> !Inside(s.harts[k].phases.Get(Processes));
    }
  }

  /** Every hart but `h` is where it was, up to its calls on io_spinlock. */
  predicate OthersSame(s: State, t: State, h: nat) {
    && |t.harts| == |s.harts| && t.exits == s.exits
    && (forall k :: 0 <= k < |s.harts| && k != h ==>
          && SameButCalls(s.harts[k], t.harts[k])
          && t.harts[k].phases.trapPrint == s.harts[k].phases.trapPrint
          && t.harts[k].phases.processes == s.harts[k].phases.processes)
  }

  /** Hart `h` is about to enter a process that waited; all other slots are as they were. */
  ghost predicate Picked(s: State, t: State, h: nat) {
    && OthersSame(s, t, h) && h < |s.harts| && |t.slots| == |s.slots|
    && var x, y := s.harts[h], t.harts[h];
    && y.loc == SwitchingOn(OnPick) && y.phases.processes == ClearOwner && y.inTrap == x.inTrap
    && y.phases.trapPrint == x.phases.trapPrint && y.current.Some?
    && (forall r :: 0 <= r < |s.slots| && Some(r) != y.current ==> t.slots[r] == s.slots[r])
    && (y.current.value < |s.slots| ==>
          && Waiting(s.slots[y.current.value])
          && t.slots[y.current.value] == s.slots[y.current.value].(state := Running))
  }

  /** Hart `h` has gone on without touching a slot. */
  predicate GoneOn(s: State, t: State, h: nat) {
    && OthersSame(s, t, h) && t.slots == s.slots
    && (h < |s.harts| ==>
          && t.harts[h].inTrap == s.harts[h].inTrap
          && t.harts[h].phases.trapPrint == s.harts[h].phases.trapPrint)
  }

  lemma PickedLater(s: State, t: State, u: State, h: nat)
    requires Reaches(s, t) && GoneOn(s, t, h) && Reaches(t, u) && Picked(t, u, h)
    ensures Reaches(s, u) && Picked(s, u, h)
  {
    ReachesOn(s, t, u);
  }

  lemma CallsGoOn(s: State, t: State, h: nat)
    requires OnlyCalls(s, t, h)
    ensures GoneOn(s, t, h)
  {
  }

  /** Where a search goes in its next main step, before the store that ends it. */
  function SearchTo(x: Hart, slots: seq<Slot>): Hart
    requires |slots| == PROCESSES_MAXIMUM && Seeks(x) && !x.loc.Destroying? && x.loc != Choosing(ChooseRun)
    requires x.current.Some? ==> x.current.value < PROCESSES_MAXIMUM
  {
    match x.loc
    case SwitchingOff(o) =>
      if o == OffClear then x.(current := None, loc := Choosing(ChooseLock))
      else x.(start := 0, loc := Choosing(ChooseLock))
    case Choosing(ChooseLock) => Acquire(x, Processes, Choosing(ChooseScan(0)))
    case Choosing(ChooseScan(k)) =>
      if k >= PROCESSES_MAXIMUM then Release(x, Processes, Choosing(ChooseLock))
      else if Waiting(slots[ScanId(x.start, k)]) then x.(next := ScanId(x.start, k), loc := Choosing(ChooseTake))
      else x.(loc := Choosing(ChooseScan(k + 1)))
    case Choosing(ChooseTake) => x.(current := Some(x.next), loc := Choosing(ChooseFirst))
    case Choosing(_) =>
      x.(first := if x.current.Some? then slots[x.current.value].state == Ready else false, loc := Choosing(ChooseRun))
  }

  lemma ChooseSteps(x: Hart, locks: Locks, slots: seq<Slot>)
    requires |slots| == PROCESSES_MAXIMUM
    ensures ChooseStep(x, ChooseLock, locks, slots) ==
      Effect(Acquire(x, Processes, Choosing(ChooseScan(0))), locks, None)
    ensures ChooseStep(x, ChooseTake, locks, slots) ==
      Effect(x.(current := Some(x.next), loc := Choosing(ChooseFirst)), locks, None)
  {
  }

  lemma LateChooseSteps(x: Hart, locks: Locks, slots: seq<Slot>)
    requires |slots| == PROCESSES_MAXIMUM && x.current.Some? && x.current.value < PROCESSES_MAXIMUM
    ensures ChooseStep(x, ChooseFirst, locks, slots) ==
      Effect(x.(first := slots[x.current.value].state == Ready, loc := Choosing(ChooseRun)), locks, None)
    ensures ChooseStep(x, ChooseRun, locks, slots) ==
      Effect(Release(x, Processes, SwitchingOn(OnPick)), locks,
             Some((x.current.value, slots[x.current.value].(state := Running))))
  {
  }

  lemma SearchMoves(x: Hart, locks: Locks, slots: seq<Slot>, exits: Exits)
    requires |slots| == PROCESSES_MAXIMUM && InRange(x)
    requires Seeks(x) && !x.loc.Destroying? && x.loc != Choosing(ChooseRun)
    ensures MainStep(x, locks, slots, exits) == Effect(SearchTo(x, slots), locks, None)
  {
    hide CreateStep, TrapStep, DestroyStep, OffStep, ChooseStep, OnStep, Acquire, Release;
    match x.loc
    case SwitchingOff(_) => OffSteps(x, locks, slots);
    case Choosing(ChooseScan(k)) => ChooseScanMoves(x, k, locks, slots);
    case Choosing(ChooseFirst) => LateChooseSteps(x, locks, slots);
    case Choosing(_) => ChooseSteps(x, locks, slots);
  }

  /** A hart that searches is still in its trap, if any, and calls no other lock. */
  predicate StaysInSearch(x: Hart, y: Hart) {
    y.inTrap == x.inTrap && y.phases.trapPrint == x.phases.trapPrint && y.loc.Choosing?
  }

  lemma ScanStays(x: Hart, k: nat, slots: seq<Slot>)
    requires |slots| == PROCESSES_MAXIMUM && x.loc == Choosing(ChooseScan(k))
    requires x.current.Some? ==> x.current.value < PROCESSES_MAXIMUM
    ensures StaysInSearch(x, SearchTo(x, slots))
  {
    if k >= PROCESSES_MAXIMUM {
      assert SearchTo(x, slots) == Release(x, Processes, Choosing(ChooseLock));
    } else if Waiting(slots[ScanId(x.start, k)]) {
      assert SearchTo(x, slots) == x.(next := ScanId(x.start, k), loc := Choosing(ChooseTake));
    } else {
      assert SearchTo(x, slots) == x.(loc := Choosing(ChooseScan(k + 1)));
    }
  }

  lemma CallStays(x: Hart, slots: seq<Slot>)
    requires |slots| == PROCESSES_MAXIMUM && Seeks(x)
    requires x.loc == Choosing(ChooseLock) || x.loc.SwitchingOff?
    requires x.current.Some? ==> x.current.value < PROCESSES_MAXIMUM
    ensures StaysInSearch(x, SearchTo(x, slots))
  {
    if x.loc.Choosing? {
      assert SearchTo(x, slots) == Acquire(x, Processes, Choosing(ChooseScan(0)));
    } else if x.loc.off == OffClear {
      assert SearchTo(x, slots) == x.(current := None, loc := Choosing(ChooseLock));
    } else {
      assert SearchTo(x, slots) == x.(start := 0, loc := Choosing(ChooseLock));
    }
  }

  lemma TakeStays(x: Hart, slots: seq<Slot>)
    requires |slots| == PROCESSES_MAXIMUM && (x.loc == Choosing(ChooseTake) || x.loc == Choosing(ChooseFirst))
    requires x.current.Some? ==> x.current.value < PROCESSES_MAXIMUM
    ensures StaysInSearch(x, SearchTo(x, slots))
  {
  }

  lemma SearchStays(x: Hart, slots: seq<Slot>)
    requires |slots| == PROCESSES_MAXIMUM && Seeks(x) && !x.loc.Destroying? && x.loc != Choosing(ChooseRun)
    requires x.current.Some? ==> x.current.value < PROCESSES_MAXIMUM
    ensures StaysInSearch(x, SearchTo(x, slots))
  {
    hide SearchTo, StaysInSearch;
    match x.loc
    case Choosing(ChooseScan(k)) => ScanStays(x, k, slots);
    case Choosing(ChooseTake) => TakeStays(x, slots);
    case Choosing(ChooseFirst) => TakeStays(x, slots);
    case _ => CallStays(x, slots);
  }

  /** A main step of the searching hart that touches no slot. */
  lemma SearchMoved(s: State, h: nat) returns (t: State)
    requires Inv(s) && h < |s.harts| && AtMain(s.harts[h])
    requires Seeks(s.harts[h]) && !s.harts[h].loc.Destroying? && s.harts[h].loc != Choosing(ChooseRun)
    ensures InRange(s.harts[h]) && |s.slots| == PROCESSES_MAXIMUM
    ensures Reaches(s, t) && Inv(t) && GoneOn(s, t, h)
    ensures t.harts[h] == SearchTo(s.harts[h], s.slots)
  {
    assert Local(s.harts[h]);
    SearchMoves(s.harts[h], s.locks, s.slots, s.exits);
    SearchStays(s.harts[h], s.slots);
    hide SearchTo, MainStep;
    t := Moved(s, h, Go);
  }

  /** The end of a search: the process is taken. */
  lemma Took(s: State, h: nat) returns (t: State)
    requires Inv(s) && h < |s.harts| && AtMain(s.harts[h]) && s.harts[h].loc == Choosing(ChooseTake)
    ensures Reaches(s, t) && Inv(t) && Picked(s, t, h)
  {
    assert Local(s.harts[h]) && HartSlotFits(s.harts[h], s.slots, s.exits);
    var u := SearchMoved(s, h);
    assert u.harts[h] == s.harts[h].(current := Some(s.harts[h].next), loc := Choosing(ChooseFirst));
    var v := SearchMoved(u, h);
    var x := v.harts[h];
    assert x == u.harts[h].(first := x.first, loc := Choosing(ChooseRun));
    t := RunMoved(v, h);
    PickedLater(u, v, t, h);
    PickedLater(s, u, t, h);
  }

  lemma RunMoved(s: State, h: nat) returns (t: State)
    requires Inv(s) && h < |s.harts| && AtMain(s.harts[h]) && s.harts[h].loc == Choosing(ChooseRun)
    ensures Reaches(s, t) && Inv(t) && Picked(s, t, h)
  {
    ChosenWaits(s, h);
    LateChooseSteps(s.harts[h], s.locks, s.slots);
    RunIsNext(s.harts[h], h, s.locks, s.slots, s.exits);
    hide Inv, Exec, Enabled, ChooseStep, Waiting, InRange;
    t := Moved(s, h, Go);
  }

  lemma RunIsNext(x: Hart, id: nat, locks: Locks, slots: seq<Slot>, exits: Exits)
    requires |slots| == PROCESSES_MAXIMUM && InRange(x) && AtMain(x) && x.loc == Choosing(ChooseRun)
    ensures Enabled(x, slots, Go)
    ensures Exec(x, id, locks, slots, exits, Go) == ChooseStep(x, ChooseRun, locks, slots)
  {
    hide ChooseStep;
  }

  lemma ChosenWaits(s: State, h: nat)
    requires Inv(s) && h < |s.harts| && s.harts[h].loc == Choosing(ChooseRun)
    ensures |s.slots| == PROCESSES_MAXIMUM && InRange(s.harts[h])
    ensures s.harts[h].current.Some? && s.harts[h].current.value < |s.slots|
    ensures Waiting(s.slots[s.harts[h].current.value]) && s.harts[h].phases.processes == Held
  {
    assert Local(s.harts[h]) && HartSlotFits(s.harts[h], s.slots, s.exits);
  }

  /** The scan comes to a waiting process at the latest `m` places after its start. */
  lemma {:induction false} Scanned(s: State, h: nat, k: nat, m: nat) returns (t: State)
    requires Inv(s) && |s.slots| == PROCESSES_MAXIMUM && h < |s.harts| && AtMain(s.harts[h])
    requires s.harts[h].loc == Choosing(ChooseScan(k)) && k <= m < PROCESSES_MAXIMUM
    requires Waiting(s.slots[ScanId(s.harts[h].start, m)])
    ensures Reaches(s, t) && Inv(t) && Picked(s, t, h)
    decreases m - k
  {
    hide Inv, Waiting;
    var u := SearchMoved(s, h);
    if Waiting(s.slots[ScanId(s.harts[h].start, k)]) {
      t := Took(u, h);
    } else {
      t := Scanned(u, h, k + 1, m);
    }
    PickedLater(s, u, t, h);
  }

  /** Where a searching hart is while processes_lock is free. */
  lemma SearcherIsSettled(s: State, h: nat)
    requires Inv(s) && h < |s.harts| && Seeks(s.harts[h]) && !s.locks.processes.locked
    ensures Settled(s.harts[h].phases.trapPrint)
    ensures Calm(s.harts[h].phases.processes) == Held ==>
      s.harts[h].loc in {Destroying(DestroyTake), Choosing(ChooseScan(0))}
    ensures Calm(s.harts[h].phases.processes) == Out ==>
      s.harts[h].loc in {Destroying(DestroyLock), SwitchingOff(OffEntry), SwitchingOff(OffClear), Choosing(ChooseLock)}
    ensures !(s.harts[h].phases.processes in {ClearOwner, Unlock})
  {
    var x := s.harts[h];
    assert Local(x);
    assert s.locks.Get(Processes).locked <==> SomeoneInside(s, Processes);
    assert !Inside(x.phases.Get(Processes));
  }

  lemma ScanReaches(start: nat, p: nat) returns (m: nat)
    requires p < PROCESSES_MAXIMUM
    ensures m < PROCESSES_MAXIMUM && ScanId(start, m) == p
  {
    GoesRound(start % PROCESSES_MAXIMUM, p);
    m :| m < PROCESSES_MAXIMUM && ScanId(start % PROCESSES_MAXIMUM, m) == p;
    AddSlots(start, m);
  }

  lemma AddSlots(start: nat, m: nat)
    ensures ScanId(start % PROCESSES_MAXIMUM, m) == ScanId(start, m)
  {
  }

  function SearchRank(loc: Loc): nat {
    if loc.SwitchingOff? then 3 else if loc == Choosing(ChooseLock) then 2 else 1
  }

  /** The way to the next scan. */
  lemma SearchGoesOn(s: State, h: nat) returns (t: State)
    requires Inv(s) && h < |s.harts| && AtMain(s.harts[h]) && !s.locks.processes.locked
    requires Seeks(s.harts[h]) &&
      s.harts[h].loc in {SwitchingOff(OffEntry), SwitchingOff(OffClear), Choosing(ChooseLock)}
    requires s.harts[h].phases.processes == Out
    ensures Reaches(s, t) && Inv(t) && GoneOn(s, t, h) && !t.locks.processes.locked
    ensures t.harts[h].loc.Choosing? && SearchRank(t.harts[h].loc) < SearchRank(s.harts[h].loc)
  {
    t := SearchMoved(s, h);
    StaysFree(s, t, h);
  }

  /** Calm before the scan, or on the way to it. */
  lemma SearcherCalmed(s: State, h: nat) returns (t: State)
    requires Inv(s) && h < |s.harts| && Seeks(s.harts[h]) && !s.harts[h].loc.Destroying? && !s.locks.processes.locked
    ensures Reaches(s, t) && Inv(t) && GoneOn(s, t, h) && AtMain(t.harts[h])
    ensures SameButCalls(s.harts[h], t.harts[h])
    ensures t.harts[h].loc == Choosing(ChooseScan(0)) ||
      (&& t.harts[h].phases.processes == Out && !t.locks.processes.locked
       && t.harts[h].loc in {SwitchingOff(OffEntry), SwitchingOff(OffClear), Choosing(ChooseLock)})
  {
    SearcherIsSettled(s, h);
    hide Inv, Seeks;
    t := Calmed(s, h);
    CallsGoOn(s, t, h);
    if t.harts[h].phases.processes == Out {
      StaysFree(s, t, h);
    }
  }

  /** While processes_lock is free and a process waits, a searching hart picks a process. */
  lemma {:induction false} Searched(s: State, h: nat, p: nat) returns (t: State)
    requires Inv(s) && h < |s.harts| && Seeks(s.harts[h]) && !s.harts[h].loc.Destroying?
    requires !s.locks.processes.locked && p < |s.slots| == PROCESSES_MAXIMUM && Waiting(s.slots[p])
    ensures Reaches(s, t) && Inv(t) && Picked(s, t, h)
    decreases SearchRank(s.harts[h].loc)
  {
    var u := SearcherCalmed(s, h);
    SeeksOn(s.harts[h], u.harts[h]);
    hide Inv, Waiting, Picked, SameButCalls, AtMain, SearchRank;
    if u.harts[h].loc == Choosing(ChooseScan(0)) {
      var m := ScanReaches(u.harts[h].start, p);
      t := Scanned(u, h, 0, m);
    } else {
      var v := SearchGoesOn(u, h);
      t := Searched(v, h, p);
      PickedLater(u, v, t, h);
    }
    PickedLater(s, u, t, h);
  }

  // ---------------------------------------------------------------- freeing a slot and filling one

  lemma LetGoLater(s: State, t: State, u: State, g: nat)
    requires g < |s.harts| && Reaches(s, t) && Spares(s, t, g) && Reaches(t, u) && LetGo(t, u, g)
    requires Seeks(s.harts[g]) ==> Seeks(t.harts[g])
    requires s.harts[g].loc.Destroying? ==> t.harts[g].loc.Destroying?
    requires s.harts[g].loc.Creating? ==> t.harts[g].loc.Creating?
    requires t.harts[g].inTrap == s.harts[g].inTrap && t.harts[g].phases.trapPrint == s.harts[g].phases.trapPrint
    requires !(s.harts[g].phases.processes in {ClearOwner, Unlock})
    ensures Reaches(s, u) && LetGo(s, u, g)
  {
    SparesOn(s, t, u, g);
  }

  /** A hart that gives up its process comes to the end of it. */
  lemma Destroyed(s: State, d: nat) returns (t: State)
    requires Inv(s) && d < |s.harts| && s.harts[d].loc.Destroying? && !s.locks.processes.locked
    ensures Reaches(s, t) && Inv(t)
    ensures Entering(t) || LetGo(s, t, d)
  {
    SearcherIsSettled(s, d);
    hide Inv, MayCreate, MayFree, LetGo, KeepsLock;
    var u := Calmed(s, d);
    CallsSpare(s, u, d);
    if u.harts[d].phases.processes == Held {
      t := DestroyerFreed(u, d);
    } else {
      StaysFree(s, u, d);
      var v := DestroyBegun(u, d);
      t := DestroyerFreed(v, d);
      ReachesOn(u, v, t);
      if !Entering(t) {
        LetGoLater(u, v, t, d);
      }
    }
    ReachesOn(s, u, t);
    if !Entering(t) {
      LetGoLater(s, u, t, d);
    }
  }

  lemma DestroyerFreed(s: State, d: nat) returns (t: State)
    requires Inv(s) && d < |s.harts| && AtMain(s.harts[d]) && s.harts[d].phases.processes == Held
    requires s.harts[d].loc.Destroying?
    ensures Reaches(s, t) && Inv(t)
    ensures Entering(t) || LetGo(s, t, d)
  {
    t := HeldFreed(s, d);
  }

  /** Into Process_destroy_current, as far as processes_lock. */
  lemma DestroyBegun(s: State, d: nat) returns (t: State)
    requires Inv(s) && d < |s.harts| && AtMain(s.harts[d]) && s.harts[d].phases.processes == Out
    requires s.harts[d].loc == Destroying(DestroyLock) && !s.locks.processes.locked
    ensures Reaches(s, t) && Inv(t) && Spares(s, t, d)
    ensures var x, y := s.harts[d], t.harts[d];
      && AtMain(y) && y.phases.processes == Held && y.loc == Destroying(DestroyTake)
      && y.inTrap == x.inTrap && y.phases.trapPrint == x.phases.trapPrint
  {
    assert DestroyStep(s.harts[d], DestroyLock, s.locks, s.slots)
      == Effect(Acquire(s.harts[d], Processes, Destroying(DestroyTake)), s.locks, None);
    var u := MovedOn(s, d, Go);
    StaysFree(s, u, d);
    hide Inv, MayCreate, MayFree;
    t := Calmed(u, d);
    CallsSpare(u, t, d);
    SparesOn(s, u, t, d);
  }

  /** Where kernel code outside traps is while processes_lock is free. */
  lemma CreatorIsSettled(s: State, c: nat)
    requires Inv(s) && c < |s.harts| && !s.locks.processes.locked
    requires s.harts[c].loc == Boot || s.harts[c].loc == Proc || s.harts[c].loc.Creating?
    ensures Settled(s.harts[c].phases.trapPrint) && !Inside(s.harts[c].phases.processes)
    ensures if s.harts[c].loc.Creating? then
      s.harts[c].loc == Creating(CreateScan(0)) && Acquiring(s.harts[c].phases.processes)
      else Calm(s.harts[c].phases.processes) == Out
  {
    var x := s.harts[c];
    assert Local(x);
    assert s.locks.Get(Processes).locked <==> SomeoneInside(s, Processes);
    assert !Inside(x.phases.Get(Processes));
  }

  /** A kernel process comes to Process_destroy_current. */
  lemma ExitBegun(s: State, d: nat) returns (t: State)
    requires Inv(s) && d < |s.harts| && AtMain(s.harts[d]) && s.harts[d].phases.processes == Out
    requires s.harts[d].loc == Proc && InKernelMode(s.harts[d], s.slots) && !s.locks.processes.locked
    ensures Reaches(s, t) && Inv(t) && Spares(s, t, d) && !t.locks.processes.locked && t.slots == s.slots
    ensures t.harts[d].loc == Destroying(DestroyLock)
  {
    t := MovedOn(s, d, Exit);
    StaysFree(s, t, d);
  }

  /** While processes_lock is free, a hart that can free a slot does so. */
  lemma SlotFreed(s: State, d: nat) returns (t: State)
    requires Inv(s) && d < |s.harts| && MayFree(s.harts[d], s.slots) && !s.locks.processes.locked
    ensures Reaches(s, t) && Inv(t)
    ensures Entering(t) ||
      (Spares(s, t, d) && !t.locks.processes.locked && SomeUnused(t.slots) && (Seeks(s.harts[d]) ==> Seeks(t.harts[d])))
  {
    if s.harts[d].loc.Destroying? {
      t := Destroyed(s, d);
    } else {
      CreatorIsSettled(s, d);
      hide Inv, MayCreate, SparesSlots;
      var u := Calmed(s, d);
      CallsSpare(s, u, d);
      StaysFree(s, u, d);
      var v := ExitBegun(u, d);
      SparesOn(s, u, v, d);
      t := Destroyed(v, d);
      ReachesOn(s, v, t);
      if !Entering(t) {
        SparesOn(s, v, t, d);
      }
    }
  }

  /** Into Process_create, as far as processes_lock. */
  lemma CreateBegun(s: State, c: nat, args: Arguments) returns (t: State)
    requires Inv(s) && c < |s.harts| && AtMain(s.harts[c]) && s.harts[c].phases.processes == Out
    requires s.harts[c].loc == Boot || (s.harts[c].loc == Proc && InKernelMode(s.harts[c], s.slots))
    requires !s.locks.processes.locked
    ensures Reaches(s, t) && Inv(t) && Spares(s, t, c) && !t.locks.processes.locked && t.slots == s.slots
    ensures OthersSame(s, t, c) && t.harts[c].inTrap == s.harts[c].inTrap && t.harts[c].current == s.harts[c].current
    ensures t.harts[c].loc == Creating(CreateScan(0)) && t.harts[c].args == args
    ensures t.harts[c].phases == s.harts[c].phases.(processes := Test)
  {
    t := MovedOn(s, c, Create(args));
    StaysFree(s, t, c);
  }

  /** Process_create up to its scan. */
  lemma CreatorAtScan(s: State, c: nat) returns (t: State)
    requires Inv(s) && c < |s.harts| && MayCreate(s.harts[c], s.slots) && !s.locks.processes.locked
    ensures Reaches(s, t) && Inv(t) && Spares(s, t, c) && t.slots == s.slots
    ensures AtMain(t.harts[c]) && t.harts[c].phases.processes == Held && t.harts[c].loc == Creating(CreateScan(0))
  {
    CreatorIsSettled(s, c);
    hide Inv, MayFree, SparesSlots;
    var u := Calmed(s, c);
    CallsSpare(s, u, c);
    if s.harts[c].loc.Creating? {
      t := u;
    } else {
      StaysFree(s, u, c);
      var v := CreateBegun(u, c, u.harts[c].args);
      SparesOn(s, u, v, c);
      CreatorIsSettled(v, c);
      t := Calmed(v, c);
      CallsSpare(v, t, c);
      SparesOn(s, v, t, c);
    }
  }

  /** While processes_lock is free and a slot is unused, kernel code can create a process. */
  lemma SlotFilled(s: State, c: nat) returns (t: State)
    requires Inv(s) && c < |s.harts| && MayCreate(s.harts[c], s.slots) && !s.locks.processes.locked
    requires SomeUnused(s.slots)
    ensures Reaches(s, t) && Inv(t)
    ensures Entering(t) || (Spares(s, t, c) && !t.locks.processes.locked && SomeWaits(t.slots))
  {
    var u := CreatorAtScan(s, c);
    assert !KeepsLock(u.harts[c], u.slots);
    hide Inv, KeepsLock, MayCreate, MayFree, SparesSlots;
    t := HeldFreed(u, c);
    ReachesOn(s, u, t);
    if !Entering(t) {
      SparesOn(s, u, t, c);
    }
  }
}
