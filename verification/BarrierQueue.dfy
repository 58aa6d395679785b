/** The queue of callers parked at a barrier, as an object. The counters and flags are read as they stand during one
    pass; what they may do between the two reads of a test is the subject of LifetimeMachine.
 */
module BarrierQueue {
  import LifetimeMachine

  class Promise {
    var count: nat
    var outside: bool

    constructor (count: nat, outside: bool)
      ensures this.count == count && this.outside == outside
    {
      this.count, this.outside := count, outside;
    }

    predicate Ready()
      reads this
    {
      count == if outside then 2 else 1
    }
  }

  /** The callers that pass the test. */
  ghost function Passing(q: seq<Promise>): set<Promise>
    reads q
  {
    set p | p in q && p.Ready()
  }

  /** The callers that are ready, or those that are not, in order. */
  ghost function Select(q: seq<Promise>, passing: set<Promise>, ready: bool): seq<Promise>
  {
    if q == [] then []
    else
      var rest := Select(q[..|q| - 1], passing, ready);
      if (q[|q| - 1] in passing) == ready then rest + [q[|q| - 1]] else rest
  }

  /** A caller is selected exactly when its test is the one asked for. */
  lemma {:induction false} SelectedByTest(q: seq<Promise>, passing: set<Promise>, b: bool, p: Promise)
    ensures p in Select(q, passing, b) <==> p in q && (p in passing) == b
  {
    if q != [] {
      var n := |q| - 1;
      SelectedByTest(q[..n], passing, b, p);
      assert p in q <==> p in q[..n] || p == q[n];
    }
  }

  /** The selected callers stand in the order in which they stood in the queue: at strictly increasing places. */
  lemma {:induction false} SelectKeepsOrder(q: seq<Promise>, passing: set<Promise>, ready: bool)
    returns (places: seq<nat>)
    ensures |places| == |Select(q, passing, ready)|
    ensures forall k :: 0 <= k < |places| ==> places[k] < |q| && q[places[k]] == Select(q, passing, ready)[k]
    ensures forall j, k :: 0 <= j < k < |places| ==> places[j] < places[k]
  {
    if q == [] {
      places := [];
    } else {
      var n := |q| - 1;
      places := SelectKeepsOrder(q[..n], passing, ready);
      if (q[n] in passing) == ready {
        places := places + [n];
      }
    }
  }

  /** The test of the object is the test of the step machine, where it is shown to tell whether a caller has live
      children. */
  lemma ReadyIsMachineTest(p: Promise)
    ensures p.Ready() <==> LifetimeMachine.Ready(p.count, p.outside)
  {
  }

  lemma MultisetSnoc(q: seq<Promise>, p: Promise)
    ensures multiset(q + [p]) == multiset(q) + multiset{p}
  {
  }

  lemma MultisetSwap(a: multiset<Promise>, b: multiset<Promise>, p: Promise)
    ensures (a + multiset{p}) + b == (a + b) + multiset{p} == a + (b + multiset{p})
  {
  }

  lemma SelectLast(q: seq<Promise>, passing: set<Promise>, ready: bool)
    requires q != []
    ensures var n := |q| - 1;
            multiset(Select(q, passing, ready)) == multiset(Select(q[..n], passing, ready))
                                                    + if (q[n] in passing) == ready then multiset{q[n]} else multiset{}
  {
    MultisetSnoc(Select(q[..|q| - 1], passing, ready), q[|q| - 1]);
  }

  /** Nobody is lost and nobody is handed back twice. */
  lemma {:induction false} SelectSplits(q: seq<Promise>, passing: set<Promise>)
    ensures multiset(Select(q, passing, true)) + multiset(Select(q, passing, false)) == multiset(q)
  {
    if q != [] {
      var n := |q| - 1;
      SelectSplits(q[..n], passing);
      assert q == q[..n] + [q[n]];
      MultisetSnoc(q[..n], q[n]);
      SelectLast(q, passing, true);
      SelectLast(q, passing, false);
      MultisetSwap(multiset(Select(q[..n], passing, true)), multiset(Select(q[..n], passing, false)), q[n]);
    }
  }

  lemma SelectNext(q: seq<Promise>, passing: set<Promise>, i: nat, ready: bool)
    requires i < |q|
    ensures Select(q[..i + 1], passing, ready)
         == Select(q[..i], passing, ready) + (if (q[i] in passing) == ready then [q[i]] else [])
  {
    assert q[..i + 1][..i] == q[..i];
  }

  /** The pass has seen the first entries: kept are those that stay, added those handed back, rest is unseen. */
  ghost predicate Seen(all: seq<Promise>, passing: set<Promise>, seen: nat, kept: seq<Promise>, added: seq<Promise>) {
    && seen <= |all|
    && kept == Select(all[..seen], passing, false) && added == Select(all[..seen], passing, true)
  }

  lemma SeeOne(all: seq<Promise>, passing: set<Promise>, seen: nat, kept: seq<Promise>, added: seq<Promise>)
    requires Seen(all, passing, seen, kept, added) && seen < |all|
    ensures all[seen] in passing ==> Seen(all, passing, seen + 1, kept, added + [all[seen]])
    ensures all[seen] !in passing ==> Seen(all, passing, seen + 1, kept + [all[seen]], added)
  {
    SelectNext(all, passing, seen, true);
    SelectNext(all, passing, seen, false);
  }

  /** Erasing the first entry of the part not yet seen, or stepping over it. */
  lemma EraseAt(kept: seq<Promise>, all: seq<Promise>, seen: nat)
    requires seen < |all|
    ensures var queue := kept + all[seen..];
            && queue[|kept|] == all[seen]
            && queue[..|kept|] + queue[|kept| + 1..] == kept + all[seen + 1..]
            && queue == (kept + [all[seen]]) + all[seen + 1..]
  {
  }

  class BarrierQueue {
    var queue: seq<Promise>

    constructor ()
      ensures queue == []
    {
      queue := [];
    }

    method EmplaceBack(p: Promise)
      modifies this
      ensures queue == old(queue) + [p]
    {
      queue := queue + [p];
    }

    /** Every ready caller is handed back once, in order, and the others stay, in order. */
    method ProcessAndExtract() returns (added: seq<Promise>)
      modifies this
      ensures added == Select(old(queue), old(Passing(queue)), true)
      ensures queue == Select(old(queue), old(Passing(queue)), false)
      ensures forall p :: p in added <==> p in old(queue) && old(p.count) == 1 + (if old(p.outside) then 1 else 0)
      ensures forall p :: p in queue <==> p in old(queue) && old(p.count) != 1 + (if old(p.outside) then 1 else 0)
    {
      added := [];
      var it := 0;
      ghost var seen, all, passing := 0, queue, Passing(queue);
      ghost var kept: seq<Promise> := [];
      while it != |queue|
        invariant Seen(all, passing, seen, kept, added)
        invariant it == |kept| && queue == kept + all[seen..]
        invariant forall p :: p in all ==> p.Ready() == (p in passing)
        decreases |all| - seen
      {
        EraseAt(kept, all, seen);
        SeeOne(all, passing, seen, kept, added);
        if queue[it].Ready() {
          added := added + [queue[it]];
          queue := queue[..it] + queue[it + 1..];
        } else {
          kept := kept + [queue[it]];
          it := it + 1;
        }
        seen := seen + 1;
      }
      assert all[..seen] == all;
      forall p: Promise
        ensures p in added <==> p in all && p.Ready()
        ensures p in queue <==> p in all && !p.Ready()
      {
        SelectedByTest(all, passing, true, p);
        SelectedByTest(all, passing, false, p);
      }
    }
  }
}
