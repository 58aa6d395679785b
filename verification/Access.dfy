/** Access modes of a task on a resource and the test that decides whether two accesses must be ordered. */
module Access {

  datatype AccessMode = Read | Write | AAdd | AMul

  predicate IsSerialAccess(a: AccessMode, b: AccessMode) {
    && (a != Read || b != Read)
    && (a != AAdd || b != AAdd)
    && (a != AMul || b != AMul)
  }

  /** Position i of an arrival-ordered list may run together with the position just before it. */
  predicate Joins(modes: seq<AccessMode>, i: int) {
    0 < i < |modes| && !IsSerialAccess(modes[i], modes[i - 1])
  }

  /** "Compatible" is an equivalence on the non-writing modes: it is equality of shareable modes. */
  lemma ParallelIsSameSharedMode(a: AccessMode, b: AccessMode)
    ensures !IsSerialAccess(a, b) <==> a == b && a != Write
    ensures IsSerialAccess(a, b) == IsSerialAccess(b, a)
  {
  }

  /** Joining means carrying the predecessor's mode, and that mode not being Write. */
  lemma JoinsIsSameSharedMode(modes: seq<AccessMode>, i: int)
    ensures Joins(modes, i) <==> 0 < i < |modes| && modes[i] == modes[i - 1] && modes[i] != Write
  {
  }

  /** A stretch in which every position joins its predecessor is pairwise compatible. */
  lemma {:induction false} RunIsPairwiseParallel(modes: seq<AccessMode>, lo: nat, hi: nat, i: nat, j: nat)
    requires hi <= |modes| && lo <= i < j < hi
    requires forall k :: lo < k < hi ==> Joins(modes, k)
    ensures !IsSerialAccess(modes[i], modes[j]) && modes[i] == modes[j]
    decreases j - i
  {
    assert Joins(modes, j);
    if i < j - 1 {
      RunIsPairwiseParallel(modes, lo, hi, i, j - 1);
    }
  }
}
