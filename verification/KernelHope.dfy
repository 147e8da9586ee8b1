/**
 When a hart that looks for a process can still find one. kernel_switch searches while handle_trap
 holds trap_print_lock, so that no other trap can be handled in the meantime.
 */
module KernelHope {
  import opened Prelude
  import opened KernelState
  import opened KernelSteps
  import opened KernelInvariant
  import opened KernelRuns
  import opened KernelFate

  // ---------------------------------------------------------------- the condition

  /** The hart has given up its process, or gives it up for good, and goes to look for another. */
  predicate Seeks(x: Hart) {
    x.loc.Destroying? || x.loc.Choosing? || (x.loc.SwitchingOff? && Owns(x) == None)
  }

  /** Kernel code outside any trap, which can call Process_create or is in it. */
  predicate MayCreate(x: Hart, slots: seq<Slot>) {
    x.loc == Boot || x.loc.Creating? || (x.loc == Proc && InKernelMode(x, slots))
  }

  /** The hart gives up the slot of its process, or runs a kernel process, which can exit. */
  predicate MayFree(x: Hart, slots: seq<Slot>) {
    x.loc.Destroying? || (x.loc == Proc && InKernelMode(x, slots))
  }

  /** The hart holds processes_lock and has panicked, or is going to for lack of a slot. */
  predicate KeepsLock(x: Hart, slots: seq<Slot>) {
    && Inside(x.phases.processes)
    && (|| x.loc.Panicked?
        || (&& x.loc.Creating? && x.loc.create.CreateScan?
            && forall p :: x.loc.create.k <= p < |slots| ==> slots[p].state != Unused))
  }

  /** A process is being entered. */
  ghost predicate Entering(s: State) {
    exists g :: 0 <= g < |s.harts| && s.harts[g].loc.SwitchingOn?
  }

  ghost predicate LockIsLost(s: State) {
    exists g :: 0 <= g < |s.harts| && KeepsLock(s.harts[g], s.slots)
  }

  ghost predicate SomeWaits(slots: seq<Slot>) {
    exists p :: 0 <= p < |slots| && Waiting(slots[p])
  }

  ghost predicate SomeUnused(slots: seq<Slot>) {
    exists p :: 0 <= p < |slots| && slots[p].state == Unused
  }

  ghost predicate SomeCreator(s: State) {
    exists c :: 0 <= c < |s.harts| && MayCreate(s.harts[c], s.slots)
  }

  // ---------------------------------------------------------------- traps on their way

  /** The process of the hart is on its way to become RUNNABLE. */
  predicate Publishes(x: Hart) {
    || (Undecided(x) && FateOf(x.cause, x.wasKernel, x.frame.a0) == Waits)
    || (x.loc.Trapping? && !Undecided(x))
    || (x.loc.SwitchingOff? && Owns(x).Some?)
  }

  /** The process of the hart is on its way to be destroyed. */
  predicate Destroys(x: Hart) {
    Undecided(x) && FateOf(x.cause, x.wasKernel, x.frame.a0) == Dies
  }

  /** ... or runs, and can trap at any time. */
  predicate MayPublish(x: Hart) {
    x.loc == Proc || Publishes(x)
  }

  /** The hart has trap_print_lock and keeps it until it finds a process. */
  predicate Closes(x: Hart) {
    Inside(x.phases.trapPrint) && (Seeks(x) || Destroys(x))
  }

  ghost predicate TrapsAreClosed(s: State) {
    exists k :: 0 <= k < |s.harts| && Closes(s.harts[k])
  }

  /** The hart has trap_print_lock or can still get it. */
  ghost predicate GetsIn(s: State, x: Hart) {
    Inside(x.phases.trapPrint) || !TrapsAreClosed(s)
  }

  ghost predicate SomePublisher(s: State) {
    exists g :: 0 <= g < |s.harts| && MayPublish(s.harts[g]) && GetsIn(s, s.harts[g])
  }

  ghost predicate CanFree(s: State, x: Hart) {
    MayFree(x, s.slots) || (Destroys(x) && GetsIn(s, x))
  }

  /** One hart can free a slot, and another one fill it. */
  ghost predicate SomePair(s: State) {
    exists c, d :: 0 <= c < |s.harts| && 0 <= d < |s.harts| && c != d
      && MayCreate(s.harts[c], s.slots) && CanFree(s, s.harts[d])
  }

  /**
   A process waits, or can come to wait by a trap, or can be created by kernel code in an unused
   slot or in one that another hart can free.
   */
  ghost predicate SomeHope(s: State) {
    SomeWaits(s.slots) || SomePublisher(s) || (SomeCreator(s) && SomeUnused(s.slots)) || SomePair(s)
  }

  /** A process is being entered, or there is hope and processes_lock is not lost. */
  ghost predicate Hopeful(s: State) {
    Entering(s) || (!LockIsLost(s) && SomeHope(s))
  }

  // ---------------------------------------------------------------- a step leaves the other harts their part

  /** A process in use stays a kernel process, or a user process. */
  lemma ModeKept(s: State, g: nat, a: Action, p: nat)
    requires Inv(s) && Possible(s, g, a) && p < |s.slots| && s.slots[p].state != Unused
    ensures |After(s, g, a).slots| == |s.slots| && After(s, g, a).slots[p].kernel == s.slots[p].kernel
  {
    StepAndSlot(s, g, a, p);
    assert HartSlotFits(s.harts[g], s.slots, s.exits);
    hide Exec, SlotFits, ContextFits, OwnedFits;
  }

  lemma ProcessIsRunning(s: State, f: nat)
    requires Inv(s) && f < |s.harts| && s.harts[f].loc == Proc
    ensures s.harts[f].current.Some? && s.harts[f].current.value < |s.slots|
    ensures s.slots[s.harts[f].current.value].state == Running
  {
    assert Local(s.harts[f]) && HartSlotFits(s.harts[f], s.slots, s.exits);
  }

  /** A step of hart `g` leaves the kind of every other hart as it is. */
  lemma KindsKept(s: State, g: nat, a: Action, f: nat)
    requires Inv(s) && Possible(s, g, a) && f < |s.harts| && f != g
    ensures var t := After(s, g, a);
      && |t.slots| == |s.slots| && |t.harts| == |s.harts| && t.harts[f] == s.harts[f]
      && MayCreate(t.harts[f], t.slots) == MayCreate(s.harts[f], s.slots)
      && MayFree(t.harts[f], t.slots) == MayFree(s.harts[f], s.slots)
  {
    hide Inv, Exec;
    if s.harts[f].loc == Proc {
      ProcessIsRunning(s, f);
      ModeKept(s, g, a, s.harts[f].current.value);
    }
  }
}
