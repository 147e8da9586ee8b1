/** The search for the next process to run, as the loop of `Process_find_next`. */
module ProcessSearch {
  import opened Prelude
  import opened KernelState
  import opened KernelSteps

  /** Every slot is reached exactly once on the way round. */
  lemma GoesRound(start: nat, id: nat)
    requires start < PROCESSES_MAXIMUM && id < PROCESSES_MAXIMUM
    ensures exists k: nat :: k < PROCESSES_MAXIMUM && ScanId(start, k) == id
  {
    var k := if start <= id then id - start else id + PROCESSES_MAXIMUM - start;
    assert ScanId(start, k) == id;
  }

  /**
   Process_find_next: the first slot from `start` on, going round, that is READY or
   RUNNABLE; none if and only if no slot is.
   */
  method FindNext(slots: seq<Slot>, start: nat) returns (found: Option<nat>)
    requires |slots| == PROCESSES_MAXIMUM && start < PROCESSES_MAXIMUM
    ensures found == None ==> forall p :: 0 <= p < |slots| ==> !Waiting(slots[p])
    ensures found.Some? ==> exists k: nat ::
      && k < PROCESSES_MAXIMUM && found.value == ScanId(start, k) && Waiting(slots[found.value])
      && forall j: nat :: j < k ==> !Waiting(slots[ScanId(start, j)])
  {
    var id := start;
    var numChecked: nat := 0;
    while numChecked < PROCESSES_MAXIMUM
      invariant numChecked <= PROCESSES_MAXIMUM && id == ScanId(start, numChecked)
      invariant forall j: nat :: j < numChecked ==> !Waiting(slots[ScanId(start, j)])
    {
      if Waiting(slots[id]) {
        return Some(id);
      }
      id := PidNext(id);
      numChecked := numChecked + 1;
    }
    forall p | 0 <= p < |slots|
      ensures !Waiting(slots[p])
    {
      GoesRound(start, p);
    }
    found := None;
  }
}
