/** Runs that are built on purpose: what a hart can do when the others are left to wait. */
module KernelReach {
  import opened Prelude
  import opened KernelState
  import opened KernelSteps
  import opened KernelInvariant
  import opened KernelPreservation
  import opened KernelRuns
  import opened KernelLostLock

  // ---------------------------------------------------------------- runs between two states

  ghost predicate Leads(s: State, t: State, run: seq<State>, moves: seq<(nat, Action)>) {
    IsRun(run, moves) && run[0] == s && run[|moves|] == t
  }

  /** Some interleaving of the harts leads from `s` to `t`. */
  ghost predicate Reaches(s: State, t: State) {
    exists run, moves :: Leads(s, t, run, moves)
  }

  lemma ReachesItself(s: State)
    ensures Reaches(s, s)
  {
    assert Leads(s, s, [s], []);
  }

  lemma ReachesOn(s: State, t: State, u: State)
    requires Reaches(s, t) && Reaches(t, u)
    ensures Reaches(s, u)
  {
    var run, moves :| Leads(s, t, run, moves);
    var more, then_ :| Leads(t, u, more, then_);
    var all, done := run + more[1..], moves + then_;
    forall i | 0 <= i < |done|
      ensures IsMove(all, done, i)
    {
      if i < |moves| {
        assert IsMove(run, moves, i);
      } else {
        assert IsMove(more, then_, i - |moves|);
        assert all[i] == more[i - |moves|];
      }
    }
    assert Leads(s, u, all, done);
  }

  /** One enabled action of one hart. */
  lemma Moved(s: State, g: nat, a: Action) returns (t: State)
    requires Inv(s) && g < |s.harts| && Enabled(s.harts[g], s.slots, a)
    ensures Possible(s, g, a) && t == After(s, g, a) && Reaches(s, t) && Inv(t)
    ensures |t.harts| == |s.harts| && |t.slots| == |s.slots| && t.exits == s.exits
    ensures forall k :: 0 <= k < |s.harts| && k != g ==> t.harts[k] == s.harts[k]
    ensures var e := Exec(s.harts[g], g, s.locks, s.slots, s.exits, a);
      t.harts[g] == e.hart && t.locks == e.locks && t.slots == Written(s.slots, e.write)
  {
    EnabledIsPossible(s, g, a);
    StepKeepsInv(s, g, a);
    t := After(s, g, a);
    assert IsMove([s, t], [(g, a)], 0);
    assert Leads(s, t, [s, t], [(g, a)]);
  }

  // ---------------------------------------------------------------- lock calls

  /** Only the state of lock calls, and what goes with it, may differ. */
  predicate SameButCalls(x: Hart, y: Hart) {
    y == x.(phases := y.phases, depth := y.depth, before := y.before, sie := y.sie)
  }

  /** Hart `f` has gone on with its lock calls, and others with their calls on io_spinlock. */
  ghost predicate OnlyCalls(s: State, t: State, f: nat) {
    && |t.harts| == |s.harts| && t.slots == s.slots && t.exits == s.exits
    && (forall k :: 0 <= k < |s.harts| ==>
          && SameButCalls(s.harts[k], t.harts[k])
          && t.harts[k].phases.trapPrint == s.harts[k].phases.trapPrint
          && (k != f ==> t.harts[k].phases.processes == s.harts[k].phases.processes))
  }

  /** A lock call in progress is what the hart does next. */
  lemma CallIsNext(x: Hart, id: nat, locks: Locks, slots: seq<Slot>, exits: Exits, l: Lock)
    requires |slots| == PROCESSES_MAXIMUM && InRange(x) && !Settled(x.phases.Get(l)) && l == CallOf(x.phases)
    ensures Enabled(x, slots, Go)
    ensures Exec(x, id, locks, slots, exits, Go) ==
            Effect(LockStep(x, locks, id, l).0, LockStep(x, locks, id, l).1, None)
  {
    hide LockStep, MainStep, InRange;
  }

  /** One step of a lock call. */
  lemma CallMoved(s: State, g: nat, l: Lock) returns (t: State)
    requires Inv(s) && g < |s.harts| && !Settled(s.harts[g].phases.Get(l)) && l == CallOf(s.harts[g].phases)
    ensures Reaches(s, t) && Inv(t) && |t.harts| == |s.harts| && t.slots == s.slots && t.exits == s.exits
    ensures forall k :: 0 <= k < |s.harts| && k != g ==> t.harts[k] == s.harts[k]
    ensures SameButCalls(s.harts[g], t.harts[g])
    ensures t.harts[g].phases ==
            s.harts[g].phases.Set(l, NextPhase(s.harts[g].phases.Get(l), s.locks.Get(l).locked))
    ensures forall m: Lock :: m != l ==> t.locks.Get(m) == s.locks.Get(m)
  {
    var x := s.harts[g];
    CallInHart(s, g, l);
    CallIsNext(x, g, s.locks, s.slots, s.exits, l);
    hide Inv, Exec, Enabled, LockStep, CallOf, NextPhase;
    t := Moved(s, g, Go);
  }

  lemma CallInHart(s: State, g: nat, l: Lock)
    requires Inv(s) && g < |s.harts| && !Settled(s.harts[g].phases.Get(l)) && l == CallOf(s.harts[g].phases)
    ensures |s.slots| == PROCESSES_MAXIMUM && InRange(s.harts[g])
    ensures var (y, locks) := LockStep(s.harts[g], s.locks, g, l);
      && SameButCalls(s.harts[g], y)
      && y.phases == s.harts[g].phases.Set(l, NextPhase(s.harts[g].phases.Get(l), s.locks.Get(l).locked))
      && forall m: Lock :: m != l ==> locks.Get(m) == s.locks.Get(m)
  {
    assert Local(s.harts[g]);
    LockStepInHart(s.harts[g], g, s.locks);
    CallMoves(s.harts[g], s.locks, g, l);
    hide LockStep, Local, InRange, NextPhase;
  }

  function IoRank(p: LockPhase): nat {
    match p
    case SetOwner => 5
    case Held => 4
    case ClearOwner => 3
    case Unlock => 2
    case Post => 1
    case _ => 0
  }

  /** Only a call on io_spinlock by hart `g` differs. */
  ghost predicate OnlyIo(s: State, t: State, g: nat) {
    && |t.harts| == |s.harts| && t.slots == s.slots && t.exits == s.exits
    && t.locks.trapPrint == s.locks.trapPrint && t.locks.processes == s.locks.processes
    && (forall k :: 0 <= k < |s.harts| && k != g ==> t.harts[k] == s.harts[k])
    && (g < |s.harts| ==>
          && SameButCalls(s.harts[g], t.harts[g])
          && t.harts[g].phases == s.harts[g].phases.(io := t.harts[g].phases.io))
  }

  /** The end of putchar_buffer. */
  lemma IoReleased(s: State, g: nat) returns (t: State)
    requires Inv(s) && g < |s.harts| && s.harts[g].phases.io == Held
    ensures Reaches(s, t) && Inv(t) && OnlyIo(s, t, g) && t.harts[g].phases.io == ClearOwner
  {
    assert Local(s.harts[g]);
    t := Moved(s, g, Go);
  }

  /** As CallMoved; testing a free lock leaves it free. */
  lemma CallMovedOn(s: State, g: nat, l: Lock) returns (t: State)
    requires Inv(s) && g < |s.harts| && !Settled(s.harts[g].phases.Get(l)) && l == CallOf(s.harts[g].phases)
    requires s.harts[g].phases.Get(l) in {Test, Swap} ==> !s.locks.Get(l).locked
    ensures Reaches(s, t) && Inv(t) && |t.harts| == |s.harts| && t.slots == s.slots && t.exits == s.exits
    ensures forall k :: 0 <= k < |s.harts| && k != g ==> t.harts[k] == s.harts[k]
    ensures SameButCalls(s.harts[g], t.harts[g])
    ensures t.harts[g].phases == s.harts[g].phases.Set(l, NextPhase(s.harts[g].phases.Get(l), false))
    ensures forall m: Lock :: m != l ==> t.locks.Get(m) == s.locks.Get(m)
    ensures t.harts[g].phases.Get(l) == Swap ==> !t.locks.Get(l).locked
  {
    t := CallMoved(s, g, l);
    SetGet(s.harts[g].phases, NextPhase(s.harts[g].phases.Get(l), false), s.locks, s.locks.Get(l), l, l);
    if s.harts[g].phases.Get(l) == Test {
      assert t.locks.Get(l).locked <==> SomeoneInside(t, l);
      assert s.locks.Get(l).locked <==> SomeoneInside(s, l);
    }
  }

  /** One step of a call on io_spinlock. */
  lemma IoMoved(s: State, g: nat) returns (t: State)
    requires Inv(s) && g < |s.harts| && !Settled(s.harts[g].phases.io)
    requires s.harts[g].phases.io in {Test, Swap} ==> !s.locks.io.locked
    ensures Reaches(s, t) && Inv(t) && OnlyIo(s, t, g)
    ensures t.harts[g].phases.io == NextPhase(s.harts[g].phases.io, false)
    ensures t.harts[g].phases.io == Swap ==> !t.locks.io.locked
  {
    t := CallMovedOn(s, g, Io);
    assert t.locks.Get(TrapPrint) == s.locks.Get(TrapPrint) && t.locks.Get(Processes) == s.locks.Get(Processes);
  }

  lemma OnlyIoOn(s: State, t: State, u: State, g: nat)
    requires Reaches(s, t) && OnlyIo(s, t, g) && Reaches(t, u) && OnlyIo(t, u, g)
    ensures Reaches(s, u) && OnlyIo(s, u, g)
  {
    ReachesOn(s, t, u);
  }

  /** A hart that has io_spinlock can always finish what it prints. */
  lemma {:induction false} IoFinished(s: State, g: nat) returns (t: State)
    requires Inv(s) && g < |s.harts| && !(s.harts[g].phases.io in {Test, Swap})
    ensures Reaches(s, t) && Inv(t) && OnlyIo(s, t, g) && t.harts[g].phases.io == Out
    decreases IoRank(s.harts[g].phases.io)
  {
    hide Inv;
    ReachesItself(s);
    t := s;
    if s.harts[g].phases.io != Out {
      var u;
      if s.harts[g].phases.io == Held {
        u := IoReleased(s, g);
      } else {
        u := IoMoved(s, g);
      }
      t := IoFinished(u, g);
      OnlyIoOn(s, u, t, g);
    }
  }

  /** A hart that waits for a free io_spinlock takes it. */
  lemma {:induction false} IoTaken(s: State, f: nat) returns (t: State)
    requires Inv(s) && f < |s.harts| && (s.harts[f].phases.io in {Test, Swap} ==> !s.locks.io.locked)
    ensures Reaches(s, t) && Inv(t) && OnlyIo(s, t, f) && !(t.harts[f].phases.io in {Test, Swap})
    decreases if s.harts[f].phases.io == Test then 2 else if s.harts[f].phases.io == Swap then 1 else 0
  {
    hide Inv;
    ReachesItself(s);
    t := s;
    if s.harts[f].phases.io in {Test, Swap} {
      var u := IoMoved(s, f);
      t := IoTaken(u, f);
      OnlyIoOn(s, u, t, f);
    }
  }

  /** Every hart can come to the end of what it prints. */
  lemma IoSettled(s: State, f: nat) returns (t: State)
    requires Inv(s) && f < |s.harts|
    ensures Reaches(s, t) && Inv(t) && OnlyCalls(s, t, f) && t.harts[f].phases.io == Out
    ensures t.harts[f].phases.processes == s.harts[f].phases.processes && t.locks.processes == s.locks.processes
  {
    var u := IoFreeFor(s, f);
    var v := IoTaken(u, f);
    ReachesOn(s, u, v);
    t := IoFinished(v, f);
    ReachesOn(s, v, t);
  }

  lemma HolderOf(s: State, l: Lock) returns (g: nat)
    requires Inv(s) && s.locks.Get(l).locked
    ensures g < |s.harts| && Inside(s.harts[g].phases.Get(l))
  {
    assert s.locks.Get(l).locked <==> SomeoneInside(s, l);
    g :| 0 <= g < |s.harts| && Inside(s.harts[g].phases.Get(l));
  }

  /** If hart `f` waits for io_spinlock, its holder can release it. */
  lemma IoFreeFor(s: State, f: nat) returns (t: State)
    requires Inv(s) && f < |s.harts|
    ensures Reaches(s, t) && Inv(t) && OnlyCalls(s, t, f) && t.harts[f] == s.harts[f]
    ensures t.locks.processes == s.locks.processes
    ensures t.harts[f].phases.io in {Test, Swap} ==> !t.locks.io.locked
  {
    hide Inv;
    ReachesItself(s);
    t := s;
    if s.harts[f].phases.io in {Test, Swap} && s.locks.io.locked {
      var g := HolderOf(s, Io);
      t := IoFinished(s, g);
      NobodyInside(s, t, Io, g);
    }
  }

  /** When the only hart inside has left, the lock is free. */
  lemma NobodyInside(s: State, t: State, l: Lock, g: nat)
    requires Inv(s) && Inv(t) && g < |s.harts| == |t.harts| && Inside(s.harts[g].phases.Get(l))
    requires forall k :: 0 <= k < |s.harts| && k != g ==> t.harts[k].phases.Get(l) == s.harts[k].phases.Get(l)
    requires !Inside(t.harts[g].phases.Get(l))
    ensures !t.locks.Get(l).locked
  {
    assert t.locks.Get(l).locked <==> SomeoneInside(t, l);
    forall k | 0 <= k < |t.harts|
      ensures !Inside(t.harts[k].phases.Get(l))
    {
      if k != g {
        assert Inside(s.harts[g].phases.Get(l));
        assert !Inside(s.harts[k].phases.Get(l));
      }
    }
  }

  function CallRank(p: LockPhase): nat {
    match p
    case Test => 7
    case Swap => 6
    case SetOwner => 5
    case ClearOwner => 3
    case Unlock => 2
    case Post => 1
    case _ => 0
  }

  /** Where a lock call ends. */
  function Calm(p: LockPhase): LockPhase {
    if Acquiring(p) || p == Held then Held else Out
  }

  /** One step of a call on processes_lock. */
  lemma ProcessesMoved(s: State, f: nat) returns (t: State)
    requires Inv(s) && f < |s.harts| && Settled(s.harts[f].phases.trapPrint)
    requires !Settled(s.harts[f].phases.processes)
    requires s.harts[f].phases.processes in {Test, Swap} ==> !s.locks.processes.locked
    ensures Reaches(s, t) && Inv(t) && OnlyCalls(s, t, f)
    ensures t.harts[f].phases.processes == NextPhase(s.harts[f].phases.processes, false)
    ensures t.harts[f].phases.processes == Swap ==> !t.locks.processes.locked
  {
    assert Local(s.harts[f]);
    t := CallMovedOn(s, f, Processes);
  }

  lemma OnlyCallsOn(s: State, t: State, u: State, f: nat)
    requires Reaches(s, t) && OnlyCalls(s, t, f) && Reaches(t, u) && OnlyCalls(t, u, f)
    ensures Reaches(s, u) && OnlyCalls(s, u, f)
  {
    ReachesOn(s, t, u);
  }

  /** A hart that need not wait for processes_lock can finish its calls on that lock and on io_spinlock. */
  lemma {:induction false} Calmed(s: State, f: nat) returns (t: State)
    requires Inv(s) && f < |s.harts| && Settled(s.harts[f].phases.trapPrint)
    requires s.harts[f].phases.processes in {Test, Swap} ==> !s.locks.processes.locked
    ensures Reaches(s, t) && Inv(t) && OnlyCalls(s, t, f) && t.harts[f].phases.io == Out
    ensures t.harts[f].phases.processes == Calm(s.harts[f].phases.processes)
    decreases CallRank(s.harts[f].phases.processes)
  {
    hide Inv;
    if Settled(s.harts[f].phases.processes) {
      t := IoSettled(s, f);
    } else {
      var u := ProcessesMoved(s, f);
      t := Calmed(u, f);
      OnlyCallsOn(s, u, t, f);
    }
  }
}
