/** The arrival-ordered list that a resource queue stands for, and the part of it that may run. */
module LiveList {
  import opened Access

  /** An entry of the queue's array. */
  datatype TaskAccess = TaskAccess(handle: nat, mode: AccessMode, removeState: bool)

  /** The entries not yet removed. */
  function LiveOf(s: seq<TaskAccess>): (q: seq<TaskAccess>)
    ensures |q| <= |s|
  {
    if s == [] then [] else (if s[0].removeState then [] else [s[0]]) + LiveOf(s[1..])
  }

  /** How many leading entries may run together with mode. */
  function Run(mode: AccessMode, q: seq<TaskAccess>): (n: nat)
    ensures n <= |q|
  {
    if q == [] || IsSerialAccess(mode, q[0].mode) then 0 else 1 + Run(mode, q[1..])
  }

  /** How many leading entries of the list may run. */
  function Prefix(q: seq<TaskAccess>): (n: nat)
    ensures n <= |q|
    ensures q != [] ==> 0 < n
  {
    if q == [] then 0 else 1 + Run(q[0].mode, q[1..])
  }

  /** The list without the first entry of handle. */
  function Without(q: seq<TaskAccess>, handle: nat): (r: seq<TaskAccess>)
  {
    if q == [] then [] else if q[0].handle == handle then q[1..] else [q[0]] + Without(q[1..], handle)
  }

  /** Index of the first entry with this handle, marked or not, or |s|. */
  function FirstOf(s: seq<TaskAccess>, handle: nat): (k: nat)
    ensures k <= |s|
    ensures k < |s| ==> s[k].handle == handle
    ensures forall i :: 0 <= i < k ==> s[i].handle != handle
  {
    if s == [] then 0 else if s[0].handle == handle then 0 else 1 + FirstOf(s[1..], handle)
  }

  /** Looking for the handle from the start finds an entry that has not been removed. */
  predicate Finds(granted: seq<TaskAccess>, handle: nat) {
    FirstOf(granted, handle) < |granted| && !granted[FirstOf(granted, handle)].removeState
  }

  function Handles(q: seq<TaskAccess>): (hs: seq<nat>)
    ensures |hs| == |q| && forall i :: 0 <= i < |q| ==> hs[i] == q[i].handle
  {
    seq(|q|, i requires 0 <= i < |q| => q[i].handle)
  }

  // ----- Prefix is the longest pairwise-compatible prefix -----

  lemma {:induction false} RunIsParallel(mode: AccessMode, q: seq<TaskAccess>)
    ensures forall i :: 0 <= i < Run(mode, q) ==> !IsSerialAccess(mode, q[i].mode)
    ensures Run(mode, q) < |q| ==> IsSerialAccess(mode, q[Run(mode, q)].mode)
  {
    if q != [] && !IsSerialAccess(mode, q[0].mode) {
      RunIsParallel(mode, q[1..]);
      assert forall i :: 0 < i < |q| ==> q[i] == q[1..][i - 1];
    }
  }

  /** The granted entries are pairwise compatible, and the entry behind them conflicts with every one of them. */
  lemma PrefixIsLongest(q: seq<TaskAccess>)
    ensures forall i, j :: 0 <= i < j < Prefix(q) ==> !IsSerialAccess(q[i].mode, q[j].mode)
    ensures Prefix(q) < |q| ==> forall i :: 0 <= i < Prefix(q) ==> IsSerialAccess(q[i].mode, q[Prefix(q)].mode)
  {
    if q != [] {
      RunIsParallel(q[0].mode, q[1..]);
      assert forall i :: 0 < i < |q| ==> q[i] == q[1..][i - 1];
    }
  }

  /** A prefix of one shared mode that cannot be extended is the prefix. */
  lemma {:induction false} RunIs(mode: AccessMode, q: seq<TaskAccess>, n: nat)
    requires n <= |q| && forall i :: 0 <= i < n ==> !IsSerialAccess(mode, q[i].mode)
    requires n < |q| ==> IsSerialAccess(mode, q[n].mode)
    ensures Run(mode, q) == n
  {
    if n > 0 {
      RunIs(mode, q[1..], n - 1);
    }
  }

  lemma PrefixIs(q: seq<TaskAccess>, n: nat)
    requires n <= |q| && (n == 0 ==> q == [])
    requires forall i :: 0 < i < n ==> !IsSerialAccess(q[0].mode, q[i].mode)
    requires 0 < n < |q| ==> IsSerialAccess(q[0].mode, q[n].mode)
    ensures Prefix(q) == n
  {
    if n > 0 {
      RunIs(q[0].mode, q[1..], n - 1);
    }
  }

  // ----- lists and slices -----

  lemma {:induction false} LiveAppends(a: seq<TaskAccess>, b: seq<TaskAccess>)
    ensures LiveOf(a + b) == LiveOf(a) + LiveOf(b)
  {
    if a == [] {
      assert a + b == b;
    } else {
      assert (a + b)[1..] == a[1..] + b;
      LiveAppends(a[1..], b);
    }
  }

  lemma {:induction false} LiveUnremoved(s: seq<TaskAccess>)
    requires forall i :: 0 <= i < |s| ==> !s[i].removeState
    ensures LiveOf(s) == s
  {
    if s != [] {
      LiveUnremoved(s[1..]);
    }
  }

  /** Taking one entry out of the list, wherever it stands. */
  lemma {:induction false} WithoutMiddle(a: seq<TaskAccess>, e: TaskAccess, b: seq<TaskAccess>)
    requires forall i :: 0 <= i < |a| ==> a[i].handle != e.handle
    ensures Without(a + [e] + b, e.handle) == a + b
  {
    if a == [] {
      assert a + [e] + b == [e] + b && a + b == b;
    } else {
      assert (a + [e] + b)[1..] == a[1..] + [e] + b;
      WithoutMiddle(a[1..], e, b);
    }
  }

  /** Entries of the list come from the array. */
  lemma {:induction false} LiveFrom(s: seq<TaskAccess>, i: nat) returns (k: nat)
    requires i < |LiveOf(s)|
    ensures k < |s| && s[k] == LiveOf(s)[i]
  {
    if !s[0].removeState && i == 0 {
      k := 0;
    } else {
      k := LiveFrom(s[1..], if s[0].removeState then i else i - 1);
      k := k + 1;
    }
  }

  lemma LiveAround(a: seq<TaskAccess>, e: TaskAccess, b: seq<TaskAccess>)
    ensures LiveOf(a + [e] + b) == LiveOf(a) + (if e.removeState then [] else [e]) + LiveOf(b)
  {
    LiveAppends(a + [e], b);
    LiveAppends(a, [e]);
  }

  /** Of a kept entry and of a marked one. */
  lemma LiveKeptAndMarked(a: seq<TaskAccess>, e: TaskAccess, b: seq<TaskAccess>)
    requires !e.removeState
    ensures LiveOf(a + [e] + b) == LiveOf(a) + [e] + LiveOf(b)
    ensures LiveOf(a + [e.(removeState := true)] + b) == LiveOf(a) + LiveOf(b)
  {
    LiveAround(a, e, b);
    LiveAround(a, e.(removeState := true), b);
    NothingBetween(LiveOf(a), LiveOf(b));
  }

  lemma NothingBetween(a: seq<TaskAccess>, b: seq<TaskAccess>)
    ensures a + [] + b == a + b
  {
  }

  lemma LiveAvoids(a: seq<TaskAccess>, handle: nat)
    requires forall i :: 0 <= i < |a| ==> a[i].handle != handle
    ensures forall i :: 0 <= i < |LiveOf(a)| ==> LiveOf(a)[i].handle != handle
  {
    forall i | 0 <= i < |LiveOf(a)| ensures LiveOf(a)[i].handle != handle {
      var k := LiveFrom(a, i);
    }
  }

  /** Marking an entry takes its handle out of the list. */
  lemma MarkingRemoves(a: seq<TaskAccess>, e: TaskAccess, b: seq<TaskAccess>)
    requires !e.removeState && forall i :: 0 <= i < |a| ==> a[i].handle != e.handle
    ensures LiveOf(a + [e.(removeState := true)] + b) == Without(LiveOf(a + [e] + b), e.handle)
  {
    LiveKeptAndMarked(a, e, b);
    LiveAvoids(a, e.handle);
    WithoutMiddle(LiveOf(a), e, LiveOf(b));
  }

  // ----- granted and waiting -----

  /** Between calls: the granted entries start with one that is still there and are one compatible run, the
      waiting ones are all there, and the first of them conflicts. */
  ghost predicate Balanced(granted: seq<TaskAccess>, waiting: seq<TaskAccess>) {
    && (granted == [] ==> waiting == [])
    && (granted != [] ==> !granted[0].removeState)
    && (forall i :: 0 < i < |granted| ==> !IsSerialAccess(granted[0].mode, granted[i].mode))
    && (forall i :: 0 <= i < |waiting| ==> !waiting[i].removeState)
    && (granted != [] && waiting != [] ==> IsSerialAccess(granted[0].mode, waiting[0].mode))
  }

  /** Then the granted entries still there are exactly the part of the list that may run. */
  lemma GrantedIsPrefix(granted: seq<TaskAccess>, waiting: seq<TaskAccess>)
    requires Balanced(granted, waiting)
    ensures LiveOf(granted + waiting) == LiveOf(granted) + waiting
    ensures Prefix(LiveOf(granted + waiting)) == |LiveOf(granted)|
  {
    LiveAppends(granted, waiting);
    LiveUnremoved(waiting);
    var q := LiveOf(granted) + waiting;
    var n := |LiveOf(granted)|;
    if granted != [] {
      assert q[0] == granted[0];
      forall i | 0 < i < n ensures !IsSerialAccess(q[0].mode, q[i].mode) {
        assert LiveOf(granted) == [granted[0]] + LiveOf(granted[1..]);
        var k := LiveFrom(granted[1..], i - 1);
        assert granted[1..][k] == granted[k + 1];
      }
    }
    PrefixIs(q, n);
  }

  // ----- what the calls do to the two halves -----

  /** The handles a removal grants: those the new list lets run beyond what was left of the old prefix. */
  function NewlyGranted(before: seq<TaskAccess>, after: seq<TaskAccess>): (hs: seq<nat>) {
    if 0 < Prefix(before) <= Prefix(after) + 1
    then Handles(after[Prefix(before) - 1..Prefix(after)])
    else []
  }

  /** Appending an entry: it is granted at once exactly when the list then lets all of it run. */
  lemma AddIsAppend(granted: seq<TaskAccess>, waiting: seq<TaskAccess>, e: TaskAccess, ready: bool)
    requires Balanced(granted, waiting) && !e.removeState
    requires ready <==> waiting == [] && (granted == [] || !IsSerialAccess(e.mode, granted[|granted| - 1].mode))
    ensures
      var granted' := if ready then granted + [e] else granted;
      var waiting' := if ready then [] else waiting + [e];
      && Balanced(granted', waiting')
      && LiveOf(granted' + waiting') == LiveOf(granted + waiting) + [e]
      && (ready <==> Prefix(LiveOf(granted' + waiting')) == |LiveOf(granted' + waiting')|)
  {
    var granted' := if ready then granted + [e] else granted;
    var waiting' := if ready then [] else waiting + [e];
    assert granted' + waiting' == (granted + waiting) + [e];
    LiveAppends(granted + waiting, [e]);
    if granted != [] {
      ParallelIsSameSharedMode(e.mode, granted[|granted| - 1].mode);
      ParallelIsSameSharedMode(granted[0].mode, granted[|granted| - 1].mode);
      ParallelIsSameSharedMode(granted[0].mode, e.mode);
    }
    GrantedIsPrefix(granted', waiting');
  }

  /** A granted run around one of its entries, and with another entry in its place. */
  lemma AroundEntry(granted: seq<TaskAccess>, waiting: seq<TaskAccess>, k: nat, e: TaskAccess)
    requires k < |granted|
    ensures
      var a, b := granted[..k], granted[k + 1..];
      && granted[k := e] == a + [e] + b
      && granted[k := e] + waiting == a + [e] + (b + waiting)
  {
  }

  lemma SameEntry(granted: seq<TaskAccess>, k: nat)
    requires k < |granted|
    ensures granted[k := granted[k]] == granted
  {
  }

  /** Marking an entry inside the run keeps it balanced. */
  lemma MarkKeepsBalance(granted: seq<TaskAccess>, waiting: seq<TaskAccess>, k: nat)
    requires Balanced(granted, waiting) && 0 < k < |granted|
    ensures Balanced(granted[k := granted[k].(removeState := true)], waiting)
  {
  }

  /** A removal from inside the granted run grants nothing: the run is one entry shorter, and so is the prefix. */
  lemma MarkIsRemove(granted: seq<TaskAccess>, waiting: seq<TaskAccess>, k: nat)
    requires Balanced(granted, waiting) && 0 < k < |granted| && !granted[k].removeState
    requires forall i :: 0 <= i < k ==> granted[i].handle != granted[k].handle
    ensures
      var granted' := granted[k := granted[k].(removeState := true)];
      && Balanced(granted', waiting)
      && LiveOf(granted' + waiting) == Without(LiveOf(granted + waiting), granted[k].handle)
      && Prefix(LiveOf(granted' + waiting)) == Prefix(LiveOf(granted + waiting)) - 1
  {
    var e := granted[k];
    var marked := e.(removeState := true);
    var a, b := granted[..k], granted[k + 1..];
    SameEntry(granted, k);
    AroundEntry(granted, waiting, k, e);
    AroundEntry(granted, waiting, k, marked);
    MarkingRemoves(a, e, b + waiting);
    LiveKeptAndMarked(a, e, b);
    MarkKeepsBalance(granted, waiting, k);
    GrantedIsPrefix(granted, waiting);
    GrantedIsPrefix(granted[k := marked], waiting);
  }

  function Marked(granted: seq<TaskAccess>, k: nat): (g: seq<TaskAccess>)
    requires k < |granted|
  {
    granted[k := granted[k].(removeState := true)]
  }

  /** Marking the first entry of a handle inside the granted run: nothing changes if it was marked before. */
  lemma MarkedInside(granted: seq<TaskAccess>, waiting: seq<TaskAccess>, handle: nat)
    requires Balanced(granted, waiting) && 0 < FirstOf(granted, handle) < |granted|
    ensures
      var granted' := Marked(granted, FirstOf(granted, handle));
      var before, after := LiveOf(granted + waiting), LiveOf(granted' + waiting);
      && Balanced(granted', waiting)
      && after == (if Finds(granted, handle) then Without(before, handle) else before)
      && (Finds(granted, handle) ==> Prefix(before) == Prefix(after) + 1 && NewlyGranted(before, after) == [])
  {
    var k := FirstOf(granted, handle);
    if granted[k].removeState {
      SameEntry(granted, k);
    } else {
      MarkIsRemove(granted, waiting, k);
    }
  }

  /** A removal of the first entry together with the marked ones behind it, when some granted entry is left. */
  lemma HeadIsRemove(granted: seq<TaskAccess>, waiting: seq<TaskAccess>, k: nat)
    requires Balanced(granted, waiting) && 0 < k < |granted|
    requires forall i :: 0 < i < k ==> granted[i].removeState
    requires !granted[k].removeState
    ensures Balanced(granted[k..], waiting)
    ensures LiveOf(granted[k..] + waiting) == Without(LiveOf(granted + waiting), granted[0].handle)
    ensures Prefix(LiveOf(granted[k..] + waiting)) == Prefix(LiveOf(granted + waiting)) - 1
  {
    SkipMarked(granted, waiting, k);
    forall i | 0 < i < |granted[k..]| ensures !IsSerialAccess(granted[k..][0].mode, granted[k..][i].mode) {
      ParallelIsSameSharedMode(granted[0].mode, granted[k].mode);
      ParallelIsSameSharedMode(granted[0].mode, granted[k + i].mode);
    }
    if waiting != [] {
      ParallelIsSameSharedMode(granted[0].mode, granted[k].mode);
      ParallelIsSameSharedMode(granted[0].mode, waiting[0].mode);
    }
    GrantedIsPrefix(granted, waiting);
    GrantedIsPrefix(granted[k..], waiting);
  }

  /** Passing the first entry and the marked ones behind it. */
  lemma SkipMarked(granted: seq<TaskAccess>, waiting: seq<TaskAccess>, k: nat)
    requires Balanced(granted, waiting) && 0 < k <= |granted|
    requires forall i :: 0 < i < k ==> granted[i].removeState
    ensures LiveOf(granted) == [granted[0]] + LiveOf(granted[k..])
    ensures LiveOf(granted[k..] + waiting) == Without(LiveOf(granted + waiting), granted[0].handle)
  {
    assert granted == [granted[0]] + granted[1..k] + granted[k..];
    AllMarked(granted[1..k]);
    LiveAppends([granted[0]] + granted[1..k], granted[k..]);
    LiveAppends([granted[0]], granted[1..k]);
    assert granted + waiting == ([granted[0]] + granted[1..k]) + (granted[k..] + waiting);
    LiveAppends([granted[0]] + granted[1..k], granted[k..] + waiting);
    assert LiveOf(granted + waiting)[1..] == LiveOf(granted[k..] + waiting);
  }

  lemma {:induction false} AllMarked(s: seq<TaskAccess>)
    requires forall i :: 0 <= i < |s| ==> s[i].removeState
    ensures LiveOf(s) == []
  {
    if s != [] {
      AllMarked(s[1..]);
    }
  }

  /** Passing the first entry only, with a marked one behind it, removes it from the list but leaves granted entries
      that start with a marked one. */
  lemma MarkedHead(granted: seq<TaskAccess>, waiting: seq<TaskAccess>)
    requires Balanced(granted, waiting) && 1 < |granted| && granted[1].removeState
    ensures !Balanced(granted[1..], waiting)
    ensures LiveOf(granted[1..] + waiting) == Without(LiveOf(granted + waiting), granted[0].handle)
  {
    SkipMarked(granted, waiting, 1);
  }

  /** A removal that empties the granted run leaves exactly what waits. */
  lemma DrainIsRemove(granted: seq<TaskAccess>, waiting: seq<TaskAccess>)
    requires Balanced(granted, waiting) && granted != []
    requires forall i :: 0 < i < |granted| ==> granted[i].removeState
    ensures LiveOf(waiting) == waiting == Without(LiveOf(granted + waiting), granted[0].handle)
    ensures Prefix(LiveOf(granted + waiting)) == 1
  {
    SkipMarked(granted, waiting, |granted|);
    assert granted[|granted|..] + waiting == waiting;
    LiveUnremoved(waiting);
    GrantedIsPrefix(granted, waiting);
  }

  /** The n first waiting entries granted anew are the prefix of what waits. */
  lemma GrantedAnew(waiting: seq<TaskAccess>, n: nat)
    requires n <= |waiting| && Balanced(waiting[..n], waiting[n..])
    requires forall i :: 0 <= i < |waiting| ==> !waiting[i].removeState
    ensures LiveOf(waiting[..n] + waiting[n..]) == waiting && Prefix(waiting) == n
  {
    assert waiting[..n] + waiting[n..] == waiting;
    LiveUnremoved(waiting);
    LiveUnremoved(waiting[..n]);
    GrantedIsPrefix(waiting[..n], waiting[n..]);
  }

  /** Removing the first entry when k entries are passed and some granted entry is left: nothing is granted. */
  lemma HeadRemoval(granted: seq<TaskAccess>, waiting: seq<TaskAccess>, k: nat)
    requires Balanced(granted, waiting) && 0 < k < |granted|
    requires forall i :: 0 < i < k ==> granted[i].removeState
    requires !granted[k].removeState
    ensures Balanced(granted[k..], waiting)
    ensures
      var before, after := LiveOf(granted + waiting), LiveOf(granted[k..] + waiting);
      && after == Without(before, granted[0].handle)
      && Prefix(before) == Prefix(after) + 1
      && NewlyGranted(before, after) == []
  {
    HeadIsRemove(granted, waiting, k);
  }

  /** Removing the first entry when that empties the granted run: the waiting entries granted anew are exactly the
      newly granted ones. */
  lemma DrainRemoval(granted: seq<TaskAccess>, waiting: seq<TaskAccess>, granted': seq<TaskAccess>,
                     waiting': seq<TaskAccess>)
    requires Balanced(granted, waiting) && granted != []
    requires forall i :: 0 < i < |granted| ==> granted[i].removeState
    requires waiting == granted' + waiting' && Balanced(granted', waiting')
    ensures
      var before, after := LiveOf(granted + waiting), LiveOf(granted' + waiting');
      && after == Without(before, granted[0].handle)
      && Prefix(before) <= Prefix(after) + 1
      && NewlyGranted(before, after) == Handles(granted')
  {
    var n := |granted'|;
    assert waiting[..n] == granted' && waiting[n..] == waiting';
    DrainIsRemove(granted, waiting);
    GrantedAnew(waiting, n);
  }
}
