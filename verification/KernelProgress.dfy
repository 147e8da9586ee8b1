/** What the kernel guarantees, and does not guarantee, about harts and processes that wait. */
module KernelProgress {
  import opened Prelude
  import opened KernelState
  import opened KernelSteps
  import opened KernelInvariant
  import opened KernelPreservation
  import opened KernelRuns

  // ---------------------------------------------------------------- no deadlock

  /** The hart spins in `SpinLock_acquire` on a lock that is taken. */
  predicate WaitsFor(s: State, h: nat, l: Lock) {
    h < |s.harts| && s.harts[h].phases.Get(l) in {Test, Swap} && s.locks.Get(l).locked
  }

  predicate Holds(s: State, h: nat, l: Lock) {
    h < |s.harts| && Inside(s.harts[h].phases.Get(l))
  }

  /** Locks are only ever acquired in the order trap_print_lock, processes_lock, io_spinlock. */
  lemma AcquiredInOrder(run: seq<State>, moves: seq<(nat, Action)>, i: nat, h: nat, m: Lock, l: Lock)
    requires FromStart(run, moves) && i < |run|
    requires Holds(run[i], h, m) && WaitsFor(run[i], h, l)
    ensures Rank(m) < Rank(l)
  {
    InitEstablishesInv(run[0]);
    InvAlong(run, moves, i);
    assert Local(run[i].harts[h]);
  }

  /** Hart `hs[k]` waits for lock `ls[k]`, which hart `hs[k + 1]` holds. */
  predicate WaitChain(s: State, hs: seq<nat>, ls: seq<Lock>) {
    && |hs| == |ls| + 1
    && (forall k :: 0 <= k < |ls| ==> WaitsFor(s, hs[k], ls[k]) && Holds(s, hs[k + 1], ls[k]))
  }

  lemma {:induction false} RanksRise(run: seq<State>, moves: seq<(nat, Action)>, i: nat, hs: seq<nat>, ls: seq<Lock>,
                                     k: nat)
    requires FromStart(run, moves) && i < |run| && WaitChain(run[i], hs, ls) && k < |ls|
    ensures Rank(ls[0]) + k <= Rank(ls[k])
  {
    if k > 0 {
      RanksRise(run, moves, i, hs, ls, k - 1);
      AcquiredInOrder(run, moves, i, hs[k], ls[k - 1], ls[k]);
    }
  }

  /** No cycle of harts waiting for each other, of any length, in any reachable state. */
  lemma NoWaitCycle(run: seq<State>, moves: seq<(nat, Action)>, i: nat, hs: seq<nat>, ls: seq<Lock>)
    requires FromStart(run, moves) && i < |run| && WaitChain(run[i], hs, ls) && |ls| > 0
    ensures hs[0] != hs[|ls|]
    ensures |ls| <= 3
  {
    var n := |ls| - 1;
    RanksRise(run, moves, i, hs, ls, n);
    if hs[0] == hs[|ls|] {
      AcquiredInOrder(run, moves, i, hs[0], ls[n], ls[0]);
    }
  }

  /** A hart that holds a lock has a next step of its own to take, or has panicked. */
  lemma HolderCanStep(x: Hart, slots: seq<Slot>, l: Lock)
    requires Local(x) && Inside(x.phases.Get(l))
    ensures Enabled(x, slots, Go) || x.loc.Panicked?
  {
  }

  /** A hart that waits is waiting, in the end, for a hart that does not. */
  lemma {:induction false} SomeHolderIsFree(run: seq<State>, moves: seq<(nat, Action)>, i: nat, h: nat, l: Lock)
    returns (g: nat)
    requires FromStart(run, moves) && i < |run| && WaitsFor(run[i], h, l)
    ensures g < |run[i].harts| && (exists m: Lock :: Holds(run[i], g, m))
    ensures forall m: Lock :: !WaitsFor(run[i], g, m)
    ensures Enabled(run[i].harts[g], run[i].slots, Go) || run[i].harts[g].loc.Panicked?
    decreases 2 - Rank(l)
  {
    hide HartSlotFits, SlotFits, Local, Enabled;
    MutualExclusion(run, moves, i, l);
    g :| 0 <= g < |run[i].harts| && Inside(run[i].harts[g].phases.Get(l));
    assert Holds(run[i], g, l);
    if m: Lock :| WaitsFor(run[i], g, m) {
      AcquiredInOrder(run, moves, i, g, l, m);
      g := SomeHolderIsFree(run, moves, i, g, m);
    } else {
      InitEstablishesInv(run[0]);
      InvAlong(run, moves, i);
      HolderCanStep(run[i].harts[g], run[i].slots, l);
    }
  }

  // ---------------------------------------------------------------- bounded waiting

  /** The number of steps from slot `from` forward to slot `to`, going round. */
  function Ahead(from: int, to: int): (d: int)
    ensures 0 <= d < PROCESSES_MAXIMUM
  {
    (to - from) % PROCESSES_MAXIMUM
  }

  lemma AheadGoesRound(from: int, to: int)
    ensures Ahead(from % PROCESSES_MAXIMUM, to) == Ahead(from, to)
    ensures Ahead(from, to) > 0 ==> Ahead(from + 1, to) == Ahead(from, to) - 1
    ensures 0 <= from < PROCESSES_MAXIMUM && 0 <= to < PROCESSES_MAXIMUM ==> (Ahead(from, to) == 0 <==> from == to)
    ensures Ahead(from + PROCESSES_MAXIMUM, to) == Ahead(from, to)
  {
    var n := PROCESSES_MAXIMUM;
    assert from == n * (from / n) + from % n;
    var d := to - from;
    assert d == n * (d / n) + d % n;
    assert to - from % n == n * (d / n + from / n) + d % n;
    assert d - n == n * (d / n - 1) + d % n;
  }

  /** The slot that the search of the hart looks at next, once it has fixed where to start. */
  function SearchPosition(x: Hart): Option<int> {
    match x.loc
    case SwitchingOff(o) => if o == OffPublish || o == OffClear then Some(x.start) else None
    case Choosing(c) =>
      (match c
       case ChooseLock => Some(x.start)
       case ChooseScan(k) => Some(x.start + k)
       case _ => None)
    case _ => None
  }

  /** The process of the hart, or the one it has just chosen. */
  function Latest(x: Hart): Option<nat> {
    if x.loc == Choosing(ChooseTake) then Some(x.next) else x.current
  }

  /** How many slots the hart can still pass over before it comes to process `p`. */
  function Distance(x: Hart, p: nat): int {
    match SearchPosition(x)
    case Some(at) => Ahead(at, p) + 1
    case None => if Latest(x).Some? then Ahead(Latest(x).value, p) else Ahead(0, p) + 1
  }

  /** `Process_find_next` returns a process. */
  predicate Chooses(x: Hart, y: Hart) {
    x.loc.Choosing? && x.loc.choose.ChooseScan? && y.loc == Choosing(ChooseTake)
  }

  predicate Gone(x: Hart) {
    x.loc.Destroying? || x.loc.Panicked?
  }

  /** One step of hart `x` to `y` while `p` waits. */
  predicate ComesCloser(x: Hart, y: Hart, p: nat) {
    && Distance(y, p) <= Distance(x, p)
    && (Chooses(x, y) ==> Distance(y, p) < Distance(x, p) && (y.next != p ==> Distance(y, p) >= 1))
  }

  /** A step that neither moves the search nor changes the process of the hart. */
  predicate InPlace(x: Hart, y: Hart) {
    SearchPosition(y) == SearchPosition(x) && Latest(y) == Latest(x) && !Chooses(x, y)
  }

  lemma SamePlace(x: Hart, y: Hart, p: nat)
    requires InPlace(x, y)
    ensures ComesCloser(x, y, p)
  {
  }

  /** The hart keeps what its search depends on. */
  predicate Keeps(x: Hart, y: Hart) {
    y.current == x.current && y.start == x.start && y.next == x.next
  }

  lemma TakingInPlace(x: Hart, at: ChooseAt, locks: Locks, slots: seq<Slot>)
    requires |slots| == PROCESSES_MAXIMUM && x.loc == Choosing(at) && at in {ChooseTake, ChooseFirst, ChooseRun}
    requires at != ChooseTake ==> x.current.Some? && x.current.value < PROCESSES_MAXIMUM
    ensures InPlace(x, ChooseStep(x, at, locks, slots).hart)
  {
  }

  lemma OffKeeps(x: Hart, locks: Locks, slots: seq<Slot>)
    requires |slots| == PROCESSES_MAXIMUM && x.current.Some? && x.current.value < PROCESSES_MAXIMUM
    ensures OffStep(x, OffSave, locks, slots).hart == x.(loc := SwitchingOff(OffPc))
    ensures OffStep(x, OffPc, locks, slots).hart == x.(loc := SwitchingOff(OffNextId))
    ensures OffStep(x, OffPublish, locks, slots).hart == x.(loc := SwitchingOff(OffClear))
  {
  }

  lemma OffSteps(x: Hart, locks: Locks, slots: seq<Slot>)
    requires |slots| == PROCESSES_MAXIMUM
    ensures x.current == None ==>
      OffStep(x, OffEntry, locks, slots) == Effect(x.(start := 0, loc := Choosing(ChooseLock)), locks, None)
    ensures x.current.Some? && x.current.value < PROCESSES_MAXIMUM ==>
      OffStep(x, OffClear, locks, slots) == Effect(x.(current := None, loc := Choosing(ChooseLock)), locks, None)
  {
  }

  lemma CreateScanMoves(x: Hart, k: nat, locks: Locks, slots: seq<Slot>)
    requires |slots| == PROCESSES_MAXIMUM
    ensures CreateStep(x, CreateScan(k), locks, slots) ==
      Move(x, locks, if k >= PROCESSES_MAXIMUM then Panicked(NoSlotLeft)
                     else if slots[k].state == Unused then Creating(CreateInit(k)) else Creating(CreateScan(k + 1)))
  {
  }

  lemma LateCreateSteps(x: Hart, k: nat, locks: Locks, slots: seq<Slot>)
    requires |slots| == PROCESSES_MAXIMUM && k < PROCESSES_MAXIMUM
    ensures CreateStep(x, CreateInit(k), locks, slots) ==
      Effect(x.(loc := Creating(CreatePublish(k))), locks,
             Some((k, Slot(k, Unused, CreatedFrame(x.args.entry, x.args.sp), x.args.kernel, x.args.satp,
                           Created(x.args.entry, x.args.sp), 0))))
    ensures CreateStep(x, CreatePublish(k), locks, slots) ==
      Effect(Release(x, Processes, if x.current == None then Boot else Proc), locks,
             Some((k, slots[k].(state := Ready))))
  {
    hide CreatedFrame;
  }

  lemma DestroySteps(x: Hart, p: nat, locks: Locks, slots: seq<Slot>)
    requires |slots| == PROCESSES_MAXIMUM
    ensures DestroyStep(x, DestroyLock, locks, slots)
         == Effect(Acquire(x, Processes, Destroying(DestroyTake)), locks, None)
    ensures x.current == Some(p) ==>
      DestroyStep(x, DestroyTake, locks, slots)
      == Effect(x.(loc := Destroying(DestroyId), old_ := p, current := None), locks, None)
    ensures x.old_ < PROCESSES_MAXIMUM ==>
      DestroyStep(x, DestroyId, locks, slots)
      == Effect(x.(loc := Destroying(DestroyState)), locks, Some((x.old_, slots[x.old_].(id := NO_PID))))
    ensures x.old_ < PROCESSES_MAXIMUM ==>
      DestroyStep(x, DestroyState, locks, slots)
      == Effect(Release(x, Processes, SwitchingOff(OffEntry)), locks, Some((x.old_, slots[x.old_].(state := Unused))))
  {
  }

  lemma OffInPlace(x: Hart, at: OffAt, locks: Locks, slots: seq<Slot>)
    requires |slots| == PROCESSES_MAXIMUM && x.current.Some? && x.current.value < PROCESSES_MAXIMUM
    requires x.loc == SwitchingOff(at) && at in {OffSave, OffPc, OffPublish}
    ensures InPlace(x, OffStep(x, at, locks, slots).hart)
  {
    hide OffStep;
    OffKeeps(x, locks, slots);
  }

  lemma OnInPlace(x: Hart, at: OnAt, locks: Locks, slots: seq<Slot>, exits: Exits)
    requires |slots| == PROCESSES_MAXIMUM && x.current.Some? && x.current.value < PROCESSES_MAXIMUM
    requires x.loc == SwitchingOn(at)
    ensures InPlace(x, OnStep(x, at, locks, slots, exits).hart)
  {
  }

  lemma TrapLockKeeps(x: Hart, locks: Locks)
    ensures var y := TrapStep(x, TrapLock, locks).hart;
      Keeps(x, y) && y.loc == Trapping(TrapDispatch)
  {
  }

  lemma TrapDispatchKeeps(x: Hart, locks: Locks)
    ensures var y := TrapStep(x, TrapDispatch, locks).hart;
      Keeps(x, y) && y.loc == Dispatch(x.cause, x.wasKernel, x.current.Some?, x.frame.a0)
  {
    hide Dispatch;
    var to := Dispatch(x.cause, x.wasKernel, x.current.Some?, x.frame.a0);
    if to.Panicked? {
      assert TrapStep(x, TrapDispatch, locks) == Effect(Release(x, TrapPrint, to).(inTrap := false), locks, None);
    } else {
      assert TrapStep(x, TrapDispatch, locks) == Move(x, locks, to);
    }
  }

  lemma TrapPutcharKeeps(x: Hart, locks: Locks)
    ensures var y := TrapStep(x, TrapPutchar, locks).hart;
      Keeps(x, y) && y.loc == Trapping(TrapPutcharDone)
  {
  }

  lemma TrapPutcharDoneKeeps(x: Hart, locks: Locks)
    ensures var y := TrapStep(x, TrapPutcharDone, locks).hart;
      Keeps(x, y) && y.loc == SwitchingOff(OffEntry)
  {
  }

  lemma TrapInPlace(x: Hart, at: TrapAt, locks: Locks)
    requires x.loc == Trapping(at)
    ensures InPlace(x, TrapStep(x, at, locks).hart)
  {
    hide TrapStep, Dispatch;
    TrapLockKeeps(x, locks);
    TrapDispatchKeeps(x, locks);
    TrapPutcharKeeps(x, locks);
    TrapPutcharDoneKeeps(x, locks);
  }

  lemma CreateScanKeeps(x: Hart, k: nat, locks: Locks, slots: seq<Slot>)
    requires |slots| == PROCESSES_MAXIMUM
    ensures var y := CreateStep(x, CreateScan(k), locks, slots).hart;
      Keeps(x, y) && (y.loc.Creating? || y.loc.Panicked?)
  {
    var e := CreateStep(x, CreateScan(k), locks, slots);
    if k >= PROCESSES_MAXIMUM {
      assert e == Move(x, locks, Panicked(NoSlotLeft));
    } else if slots[k].state == Unused {
      assert e == Move(x, locks, Creating(CreateInit(k)));
    } else {
      assert e == Move(x, locks, Creating(CreateScan(k + 1)));
    }
  }

  lemma CreateInitKeeps(x: Hart, k: nat, locks: Locks, slots: seq<Slot>)
    requires |slots| == PROCESSES_MAXIMUM && k < PROCESSES_MAXIMUM
    ensures CreateStep(x, CreateInit(k), locks, slots).hart == x.(loc := Creating(CreatePublish(k)))
  {
  }

  lemma CreatePublishKeeps(x: Hart, k: nat, locks: Locks, slots: seq<Slot>)
    requires |slots| == PROCESSES_MAXIMUM && k < PROCESSES_MAXIMUM
    ensures CreateStep(x, CreatePublish(k), locks, slots).hart == Release(x, Processes, if x.current ==
      None then Boot else Proc)
  {
  }

  lemma CreateInPlace(x: Hart, at: CreateAt, locks: Locks, slots: seq<Slot>)
    requires |slots| == PROCESSES_MAXIMUM && x.loc == Creating(at) && (!at.CreateScan? ==> at.k < PROCESSES_MAXIMUM)
    ensures InPlace(x, CreateStep(x, at, locks, slots).hart)
  {
    match at
    case CreateScan(k) => CreateScanKeeps(x, k, locks, slots);
    case CreateInit(k) => CreateInitKeeps(x, k, locks, slots);
    case CreatePublish(k) => CreatePublishKeeps(x, k, locks, slots);
  }

  lemma AheadOfScan(start: nat, k: nat, p: nat)
    requires p < PROCESSES_MAXIMUM
    ensures Ahead(ScanId(start, k), p) == Ahead(start + k, p)
    ensures ScanId(start, k) != p ==> Ahead(start + k, p) >= 1 && Ahead(start + (k + 1), p) == Ahead(start + k, p) - 1
    ensures k == PROCESSES_MAXIMUM ==> Ahead(start + k, p) == Ahead(start, p)
  {
    AheadGoesRound(start + k, p);
    AheadGoesRound(start, p);
    AheadGoesRound(ScanId(start, k), p);
  }

  lemma ScanFoundDistance(x: Hart, locks: Locks, slots: seq<Slot>, exits: Exits, p: nat)
    requires |slots| == PROCESSES_MAXIMUM && Local(x) && AtMain(x) && p < PROCESSES_MAXIMUM && Waiting(slots[p])
    requires x.loc.Choosing? && x.loc.choose.ChooseScan? && x.loc.choose.k < PROCESSES_MAXIMUM &&
      Waiting(slots[ScanId(x.start, x.loc.choose.k)])
    ensures ComesCloser(x, MainStep(x, locks, slots, exits).hart, p)
  {
    var y := MainStep(x, locks, slots, exits).hart;
    AheadOfScan(x.start, x.loc.choose.k, p);
    assert Distance(x, p) == Ahead(x.start + x.loc.choose.k, p) + 1;
    assert Distance(y, p) == Ahead(ScanId(x.start, x.loc.choose.k), p);
  }

  lemma ScanNextDistance(x: Hart, locks: Locks, slots: seq<Slot>, exits: Exits, p: nat)
    requires |slots| == PROCESSES_MAXIMUM && Local(x) && AtMain(x) && p < PROCESSES_MAXIMUM && Waiting(slots[p])
    requires x.loc.Choosing? && x.loc.choose.ChooseScan? && (x.loc.choose.k >= PROCESSES_MAXIMUM ||
      !Waiting(slots[ScanId(x.start, x.loc.choose.k)]))
    ensures ComesCloser(x, MainStep(x, locks, slots, exits).hart, p)
  {
    var y := MainStep(x, locks, slots, exits).hart;
    AheadOfScan(x.start, x.loc.choose.k, p);
    assert Distance(x, p) == Ahead(x.start + x.loc.choose.k, p) + 1;
    assert SearchPosition(y) ==
           Some(if x.loc.choose.k >= PROCESSES_MAXIMUM then x.start else x.start + (x.loc.choose.k + 1));
  }

  lemma LockingDistance(x: Hart, locks: Locks, slots: seq<Slot>, exits: Exits, p: nat)
    requires |slots| == PROCESSES_MAXIMUM && Local(x) && AtMain(x) && p < PROCESSES_MAXIMUM && Waiting(slots[p])
    requires x.loc == Choosing(ChooseLock)
    ensures ComesCloser(x, MainStep(x, locks, slots, exits).hart, p)
  {
  }

  lemma NextIdDistance(x: Hart, locks: Locks, slots: seq<Slot>, exits: Exits, p: nat)
    requires View(x, slots, exits) && AtMain(x) && p < PROCESSES_MAXIMUM && Waiting(slots[p])
    requires x.loc == SwitchingOff(OffNextId)
    ensures ComesCloser(x, MainStep(x, locks, slots, exits).hart, p)
  {
    hide InterruptsFit, PhasesFit, ContextFits, SlotFits, CreateStep, DestroyStep, TrapStep, ChooseStep, OnStep;
    var q := x.current.value;
    AheadGoesRound(q, p);
    AheadGoesRound(q + 1, p);
  }

  lemma OffEndDistance(x: Hart, locks: Locks, slots: seq<Slot>, exits: Exits, p: nat)
    requires |slots| == PROCESSES_MAXIMUM && Local(x) && AtMain(x) && p < PROCESSES_MAXIMUM && Waiting(slots[p])
    requires x.loc.SwitchingOff? && x.loc.off in {OffEntry, OffClear}
    ensures ComesCloser(x, MainStep(x, locks, slots, exits).hart, p)
  {
  }

  lemma LockStepKeeps(x: Hart, locks: Locks, id: nat)
    requires !x.phases.AllSettled() && x.depth > 0
    ensures var y := LockStep(x, locks, id, CallOf(x.phases)).0;
      Keeps(x, y) && y.loc == x.loc
  {
  }

  lemma LockStepDistance(x: Hart, locks: Locks, id: nat, p: nat)
    requires !x.phases.AllSettled() && x.depth > 0
    ensures ComesCloser(x, LockStep(x, locks, id, CallOf(x.phases)).0, p)
  {
    LockStepKeeps(x, locks, id);
    hide LockStep, CallOf;
    SamePlace(x, LockStep(x, locks, id, CallOf(x.phases)).0, p);
  }

  lemma MainDistance(x: Hart, locks: Locks, slots: seq<Slot>, exits: Exits, p: nat)
    requires View(x, slots, exits) && AtMain(x) && Enabled(x, slots, Go)
    requires p < PROCESSES_MAXIMUM && Waiting(slots[p])
    requires !Gone(x) && !Gone(MainStep(x, locks, slots, exits).hart)
    ensures ComesCloser(x, MainStep(x, locks, slots, exits).hart, p)
  {
    hide CreateStep, TrapStep, DestroyStep, OffStep, ChooseStep, OnStep;
    hide ComesCloser, InPlace, HartSlotFits, SlotFits, InterruptsFit, PhasesFit;
    var y := MainStep(x, locks, slots, exits).hart;
    match x.loc
    case Choosing(ChooseScan(k)) =>
      if k < PROCESSES_MAXIMUM && Waiting(slots[ScanId(x.start, k)]) {
        ScanFoundDistance(x, locks, slots, exits, p);
      } else {
        ScanNextDistance(x, locks, slots, exits, p);
      }
    case Choosing(ChooseLock) => LockingDistance(x, locks, slots, exits, p);
    case Choosing(at) =>
      TakingInPlace(x, at, locks, slots);
      SamePlace(x, y, p);
    case SwitchingOff(OffNextId) => NextIdDistance(x, locks, slots, exits, p);
    case SwitchingOff(o) =>
      if o == OffEntry || o == OffClear {
        OffEndDistance(x, locks, slots, exits, p);
      } else {
        OffInPlace(x, o, locks, slots);
        SamePlace(x, y, p);
      }
    case SwitchingOn(at) =>
      OnInPlace(x, at, locks, slots, exits);
      SamePlace(x, y, p);
    case Trapping(at) =>
      TrapInPlace(x, at, locks);
      SamePlace(x, y, p);
    case Creating(at) =>
      CreateInPlace(x, at, locks, slots);
      SamePlace(x, y, p);
  }

  lemma ActionDistance(x: Hart, id: nat, locks: Locks, slots: seq<Slot>, exits: Exits, a: Action, p: nat)
    requires View(x, slots, exits) && Enabled(x, slots, a) && x.phases.AllSettled()
    requires a.Go? ==> x.phases.io == Held
    requires !Gone(x) && !Gone(Exec(x, id, locks, slots, exits, a).hart)
    ensures ComesCloser(x, Exec(x, id, locks, slots, exits, a).hart, p)
  {
    var y := Exec(x, id, locks, slots, exits, a).hart;
    assert y.current == x.current && y.start == x.start && y.next == x.next;
    assert y.loc == x.loc || (!y.loc.Choosing? && !x.loc.Choosing? && SearchPosition(x) == SearchPosition(y) == None);
  }

  /** A step never takes the hart further from a process that waits; choosing another brings it closer. */
  lemma ExecDistance(x: Hart, id: nat, locks: Locks, slots: seq<Slot>, exits: Exits, a: Action, p: nat)
    requires View(x, slots, exits) && Enabled(x, slots, a) && p < PROCESSES_MAXIMUM && Waiting(slots[p])
    requires !Gone(x) && !Gone(Exec(x, id, locks, slots, exits, a).hart)
    ensures ComesCloser(x, Exec(x, id, locks, slots, exits, a).hart, p)
  {
    if !x.phases.AllSettled() {
      LockStepDistance(x, locks, id, p);
    } else if a.Go? && x.phases.io != Held {
      MainDistance(x, locks, slots, exits, p);
    } else {
      ActionDistance(x, id, locks, slots, exits, a, p);
    }
  }

  /** The number of times hart `h` chooses a process in steps `i` to `j`. */
  ghost function Choices(run: seq<State>, h: nat, i: nat, j: nat): nat
    requires i <= j < |run| && (forall k :: i <= k <= j ==> h < |run[k].harts|)
  {
    if i == j then 0
    else Choices(run, h, i, j - 1) + (if Chooses(run[j - 1].harts[h], run[j].harts[h]) then 1 else 0)
  }

  /** Process `p` stays READY or RUNNABLE while hart `h` neither destroys its process nor chooses `p`. */
  ghost predicate PassedOver(run: seq<State>, h: nat, p: nat, i: nat, j: nat) {
    && i <= j < |run| && p < PROCESSES_MAXIMUM
    && (forall k :: i <= k <= j ==>
          && h < |run[k].harts| && |run[k].slots| == PROCESSES_MAXIMUM
          && Waiting(run[k].slots[p]) && !Gone(run[k].harts[h]))
    && (forall k :: i <= k < j && Chooses(run[k].harts[h], run[k + 1].harts[h]) ==> run[k + 1].harts[h].next != p)
  }

  lemma {:induction false} ChoicesAreBounded(run: seq<State>, moves: seq<(nat, Action)>, h: nat, p: nat, i: nat, j: nat)
    requires FromStart(run, moves) && PassedOver(run, h, p, i, j)
    ensures Choices(run, h, i, j) <= Distance(run[i].harts[h], p) - Distance(run[j].harts[h], p)
  {
    if i < j {
      ChoicesAreBounded(run, moves, h, p, i, j - 1);
      MoveDistance(run, moves, h, p, j - 1);
    }
  }

  lemma MoveDistance(run: seq<State>, moves: seq<(nat, Action)>, h: nat, p: nat, k: nat)
    requires FromStart(run, moves) && k < |moves| && PassedOver(run, h, p, k, k + 1)
    ensures ComesCloser(run[k].harts[h], run[k + 1].harts[h], p)
  {
    InitEstablishesInv(run[0]);
    InvAlong(run, moves, k);
    assert IsMove(run, moves, k);
    var s := run[k];
    var g := moves[k].0;
    assert Local(s.harts[g]) && HartSlotFits(s.harts[g], s.slots, s.exits);
    if g == h {
      ExecDistance(s.harts[h], h, s.locks, s.slots, s.exits, moves[k].1, p);
    }
  }

  /**
   Bounded waiting: while a process stays READY or RUNNABLE, a hart that starts from process
   code and does not destroy its process cannot choose others more often than there are slots
   between its own process and the waiting one, whatever the other harts do. So the waiting
   process is chosen before the hart has made PROCESSES_MAXIMUM - 1 other choices.
   */
  lemma BoundedWaiting(run: seq<State>, moves: seq<(nat, Action)>, h: nat, p: nat, i: nat, j: nat)
    requires FromStart(run, moves) && PassedOver(run, h, p, i, j)
    requires run[i].harts[h].loc == Proc && run[j].harts[h].loc == Proc
    ensures run[i].harts[h].current.Some?
    ensures var q := run[i].harts[h].current.value;
      q < PROCESSES_MAXIMUM && Choices(run, h, i, j) < Ahead(q, p) <= PROCESSES_MAXIMUM - 1
  {
    InitEstablishesInv(run[0]);
    InvAlong(run, moves, i);
    InvAlong(run, moves, j);
    assert HartSlotFits(run[i].harts[h], run[i].slots, run[i].exits);
    assert HartSlotFits(run[j].harts[h], run[j].slots, run[j].exits);
    assert Local(run[i].harts[h]) && Local(run[j].harts[h]);
    AheadGoesRound(run[j].harts[h].current.value, p);
    ChoicesAreBounded(run, moves, h, p, i, j);
  }
}
