/** The loop of `SpinLock_acquire` as C runs it, with a variable that is read before it is assigned. */
module SpinLockLoop {

  /** What one turn of the loop sees: the lock is taken, or the swap returns the old lock word. */
  datatype Turn = Busy | Swapped(old_: nat)

  /** This turn takes the lock. */
  predicate Takes(turn: Turn) {
    turn == Swapped(0)
  }

  /**
   `former` is what `former_value` happens to hold at first; `seen` is what the turns see, as far
   as they go. The loop is left without the lock if and only if that value is 0 and the lock is
   taken at the first turn: `continue` goes to the condition of a do-while loop, not past it.
   Otherwise it is left by the first turn that takes the lock, and by no other.
   */
  method Acquire(former: nat, seen: seq<Turn>) returns (left: bool, turns: nat)
    ensures turns <= |seen| && (left ==> turns > 0)
    ensures left && !Takes(seen[turns - 1]) <==> former == 0 && seen != [] && seen[0] == Busy
    ensures left ==> forall k :: 0 <= k < turns - 1 ==> !Takes(seen[k])
    ensures !left ==> turns == |seen| && forall k :: 0 <= k < |seen| ==> !Takes(seen[k])
  {
    var formerValue := former;
    left, turns := false, 0;
    while turns < |seen| && !left
      invariant turns <= |seen| && (left ==> turns > 0)
      invariant turns == 0 ==> formerValue == former
      invariant !left && turns > 0 ==> formerValue != 0
      invariant forall k :: 0 <= k < (if left then turns - 1 else turns) ==> !Takes(seen[k])
      invariant left && !Takes(seen[turns - 1]) ==> turns == 1 && former == 0 && seen[0] == Busy
      invariant turns > 0 && former == 0 && seen[0] == Busy ==> left && turns == 1
    {
      if seen[turns].Swapped? {
        formerValue := seen[turns].old_;
      }
      turns := turns + 1;
      left := formerValue == 0;
    }
  }
}
