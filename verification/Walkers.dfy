/** Which entries a remover may walk to and mark without anybody being stranded, and what strands a queue for good. */
module Walkers {
  import opened Access
  import opened NodeInvariant
  import opened NodeMachine
  import opened NodeTheorems

  // ----- runs of compatible registrations -----

  /** Positions u and p lie in one run of compatible registrations. */
  predicate SameRun(modes: seq<AccessMode>, u: nat, p: nat) {
    u <= p && forall z :: u < z <= p ==> Joins(modes, z)
  }

  /** An entry that must not be marked: read as intended, the last of a run with something waiting behind it; read as
      written, any entry that joined its predecessor with something behind it that has to wait. */
  predicate Critical(reading: CasReading, modes: seq<AccessMode>, p: nat) {
    && Joins(modes, p)
    && match reading
       case Intended => p + 1 < |modes| && !Joins(modes, p + 1)
       case AsWritten => exists z :: p < z < |modes| && !Joins(modes, z)
  }

  lemma SameRunJoins(modes: seq<AccessMode>, a: nat, b: nat, c: nat)
    requires SameRun(modes, a, b) && SameRun(modes, b, c)
    ensures SameRun(modes, a, c)
  {
  }

  /** Read as written, an entry in front of a critical one is critical too if it joined its predecessor. */
  lemma CriticalBefore(modes: seq<AccessMode>, f: nat, p: nat)
    requires f <= p && Critical(AsWritten, modes, p) && Joins(modes, f)
    ensures Critical(AsWritten, modes, f)
  {
  }

  /** A granted entry's window begins behind everything outside its run. */
  lemma GrantedPastOtherRuns(s: Node, v: nat, p: nat)
    requires Inv(s) && v < p < s.fnr && !SameRun(s.modes, v, p)
    ensures v < s.first
  {
    var z :| v < z <= p && !Joins(s.modes, z);
  }

  // ----- who passed an entry -----

  /** An entry not marked was passed by its own remover, as the head. */
  ghost predicate PassedMarked(s: Node)
    requires Shape(s)
  {
    && s.first <= |s.removed|
    && forall i :: 0 <= i < s.first ==> s.removed[i] || s.cleared[i] == Clear(i, false)
  }

  /** An entry was passed by a remover of its own run. */
  ghost predicate PassedInRun(s: Node)
    requires Shape(s)
  {
    forall i :: 0 <= i < s.first ==> SameRun(s.modes, s.cleared[i].who, i)
  }

  ghost predicate History(s: Node) {
    Shape(s) && PassedMarked(s) && PassedInRun(s)
  }

  lemma InitHistory(reading: CasReading, modes: seq<AccessMode>, capacity: nat)
    requires |modes| < capacity
    ensures History(Init(reading, modes, capacity))
  {
  }

  /** Remover p passes the entry at first, a marked one or its own. */
  ghost predicate Passes(s: Node, s': Node, p: nat)
    requires Shape(s)
  {
    && s'.first == s.first + 1 && s.first < |s.modes| < |s.removed| && s.first < |s'.cleared|
    && s'.cleared == s.cleared + [s'.cleared[s.first]]
    && s'.cleared[s.first].who == p && SameRun(s.modes, p, s.first)
    && (s.removed[s.first] || s'.cleared[s.first] == Clear(s.first, false))
  }

  lemma OtherStepsPassNothing(s: Node, p: nat)
    requires Sized(s) && p < |s.modes| && !s.rem[p].HeadInc? && !s.rem[p].WalkCas? && !s.rem[p].AdvanceCas?
    ensures RemStep(s, p).first == s.first && RemStep(s, p).cleared == s.cleared
  {
  }

  lemma HeadPasses(s: Node, p: nat)
    requires Shape(s) && p < |s.modes| && RemOk(s, p) && s.rem[p].HeadInc?
    ensures Passes(s, RemStep(s, p), p)
  {
  }

  lemma WalkerPasses(s: Node, p: nat)
    requires Shape(s) && p < |s.modes| && RemOk(s, p) && AsWrittenOk(s) && s.rem[p].WalkCas?
    ensures
      var s' := RemStep(s, p);
      (s'.first == s.first && s'.cleared == s.cleared) || Passes(s, s', p)
  {
  }

  lemma ChainPasses(s: Node, p: nat)
    requires Shape(s) && p < |s.modes| && RemOk(s, p) && Marked(s) && AsWrittenOk(s) && PassedInRun(s)
    requires s.rem[p].AdvanceCas?
    ensures
      var s' := RemStep(s, p);
      (s'.first == s.first && s'.cleared == s.cleared) || Passes(s, s', p)
  {
    var cur := s.rem[p].cur;
    assert SameRun(s.modes, s.cleared[cur - 1].who, cur - 1);
  }

  /** What a step does to the entries passed: nothing, or it passes the one at first. */
  lemma RemStepPasses(s: Node, p: nat)
    requires Shape(s) && p < |s.modes| && RemOk(s, p) && Marked(s) && AsWrittenOk(s) && History(s)
    ensures
      var s' := RemStep(s, p);
      (s'.first == s.first && s'.cleared == s.cleared) || Passes(s, s', p)
  {
    if s.rem[p].HeadInc? {
      HeadPasses(s, p);
    } else if s.rem[p].WalkCas? {
      WalkerPasses(s, p);
    } else if s.rem[p].AdvanceCas? {
      ChainPasses(s, p);
    } else {
      OtherStepsPassNothing(s, p);
    }
  }

  lemma RemStepMarks(s: Node, p: nat)
    requires Sized(s) && p < |s.modes|
    ensures
      var s' := RemStep(s, p);
      |s'.removed| == |s.removed| && forall i :: 0 <= i < |s.removed| && s.removed[i] ==> s'.removed[i]
  {
  }

  /** Whatever passes no entry or one, as a remover does, keeps the history. */
  lemma PassingKeepsHistory(s: Node, s': Node, p: nat)
    requires History(s) && Shape(s') && s'.modes == s.modes && |s'.removed| == |s.removed|
    requires forall i :: 0 <= i < |s.removed| && s.removed[i] ==> s'.removed[i]
    requires (s'.first == s.first && s'.cleared == s.cleared) || Passes(s, s', p)
    ensures History(s')
  {
  }

  lemma HistoryStep(s: Node, th: Thread)
    requires Inv(s) && History(s)
    ensures History(Step(s, th))
  {
    StepInv(s, th);
    match th
    case Adder => AddStepKeepsHistory(s);
    case Remover(p) =>
      if p < |s.modes| {
        assert RemOk(s, p);
        RemStepPasses(s, p);
        RemStepMarks(s, p);
        PassingKeepsHistory(s, RemStep(s, p), p);
      }
  }

  lemma AddStepKeepsHistory(s: Node)
    requires Shape(s) && History(s) && Shape(AddStep(s))
    ensures History(AddStep(s))
  {
  }

  // ----- critical entries that never walk -----

  predicate WalksOrMarked(s: Node, p: nat)
    requires Sized(s) && p < |s.modes|
  {
    s.rem[p].WalkLoad? || s.rem[p].Walk? || s.rem[p].WalkCas? || s.removed[p]
  }

  ghost predicate NeverWalks(s: Node) {
    Sized(s) && forall p: nat :: p < |s.modes| && Critical(s.reading, s.modes, p) ==> !WalksOrMarked(s, p)
  }

  lemma OthersKeepWalking(s: Node, q: nat, p: nat)
    requires Sized(s) && p < |s.modes| && q < |s.modes| && q != p
    ensures RemStep(s, q).rem[p] == s.rem[p] && RemStep(s, q).removed[p] == s.removed[p]
  {
  }

  lemma OwnStartsToWalk(s: Node, p: nat)
    requires Sized(s) && p < |s.modes| && !WalksOrMarked(s, p) && WalksOrMarked(RemStep(s, p), p)
    ensures s.rem[p].NotStarted? && s.notified[p] && s.first != p
  {
    MarksOnlyWalking(s, p);
    if !s.rem[p].NotStarted? {
      StartedNeverWalks(s, p);
    }
  }

  lemma MarksOnlyWalking(s: Node, p: nat)
    requires Sized(s) && p < |s.modes| && !s.rem[p].Walk?
    ensures RemStep(s, p).removed == s.removed
  {
  }

  lemma StartedNeverWalks(s: Node, p: nat)
    requires Sized(s) && p < |s.modes| && !s.rem[p].NotStarted?
    requires !(s.rem[p].WalkLoad? || s.rem[p].Walk? || s.rem[p].WalkCas?)
    ensures var pc := RemStep(s, p).rem[p]; !(pc.WalkLoad? || pc.Walk? || pc.WalkCas?)
  {
  }

  /** Only the first step of a call whose entry is not at first makes it a walker. */
  lemma StartsToWalk(s: Node, th: Thread, p: nat)
    requires Sized(s) && p < |s.modes| && !WalksOrMarked(s, p) && WalksOrMarked(Step(s, th), p)
    ensures th == Remover(p) && s.rem[p].NotStarted? && s.notified[p] && s.first != p
  {
    if th.Remover? && th.pos < |s.modes| {
      if th.pos == p {
        OwnStartsToWalk(s, p);
      } else {
        OthersKeepWalking(s, th.pos, p);
      }
    }
  }

  /** If this step begins the call of a critical entry, then from the head. */
  predicate StartsAtHead(s: Node, th: Thread)
    requires Sized(s)
  {
    th.Remover? && th.pos < |s.modes| && Critical(s.reading, s.modes, th.pos) ==>
      s.rem[th.pos].NotStarted? && s.notified[th.pos] ==> s.first == th.pos
  }

  /** If a critical entry only ever starts to leave from the head, it never walks. */
  lemma NeverWalksStep(s: Node, th: Thread)
    requires NeverWalks(s)
    requires StartsAtHead(s, th)
    ensures NeverWalks(Step(s, th))
  {
    forall p: nat | p < |s.modes| && Critical(s.reading, s.modes, p) && WalksOrMarked(Step(s, th), p)
      ensures false
    {
      StartsToWalk(s, th, p);
    }
  }

  /** Read as intended, a marked entry at first whose call has ended is about to be passed by a remover of its run. */
  lemma ChainOwnerInRun(s: Node)
    requires Inv(s) && History(s) && s.reading == Intended && s.first < s.fnr && s.removed[s.first]
    requires s.rem[s.first].Done?
    ensures
      && s.first > 0
      && var x := s.cleared[s.first - 1].who;
         x < s.first && SameRun(s.modes, x, s.first) && !s.rem[x].Done?
  {
    assert MarkOwned(s);
    var x := s.cleared[s.first - 1].who;
    assert ChainHolds(s, x);
    assert SameRun(s.modes, x, s.first - 1);
  }

  /** When everybody of its run in front of it has left, a granted critical entry is at the head. */
  lemma HeadWhenOthersLeft(s: Node, p: nat)
    requires Inv(s) && History(s) && NeverWalks(s) && p < s.fnr && s.rem[p].NotStarted?
    requires Critical(s.reading, s.modes, p)
    requires forall u: nat :: u < p && SameRun(s.modes, u, p) ==> s.rem[u].Done?
    ensures s.first == p
  {
    assert RemOk(s, p);
    if s.first < p {
      var f := s.first;
      assert SameRun(s.modes, f, p);
      assert RemOk(s, f) && s.removed[f] && Joins(s.modes, f);
      assert WalksOrMarked(s, f);
      if s.reading == Intended {
        ChainOwnerInRun(s);
        SameRunJoins(s.modes, s.cleared[f - 1].who, f, p);
      } else {
        CriticalBefore(s.modes, f, p);
      }
    }
  }

  /** A queue whose critical entries never walked loses no wake-up. */
  lemma UnhealthyNeedsWalker(s: Node)
    requires Inv(s) && History(s) && NeverWalks(s) && Quiescent(s)
    ensures Healthy(s)
  {
    if !Healthy(s) {
      UnhealthyShowsTriple(s);
      if s.first == s.fnr {
        DrainedShowsWalker(s);
      } else {
        assert RunOwned(s);
        assert s.removed[s.first] && Joins(s.modes, s.first);
        HeadMarkedIsCritical(s);
      }
    }
  }

  /** Read as written, a wake-up is lost exactly when the entry at first is marked: with no call in flight and a task
      waiting, the queue is healthy if and only if it is not. */
  lemma LostExactlyBehindMark(s: Node)
    requires Inv(s) && PassedMarked(s) && s.reading == AsWritten && Quiescent(s) && s.fnr < s.last
    ensures s.first < s.fnr && (Healthy(s) <==> !s.removed[s.first])
  {
    assert RunOwned(s) && DrainedOwned(s);
    if s.first == s.fnr {
      MarkBehindFirst(s);
    }
  }

  lemma MarkBehindFirst(s: Node)
    requires Inv(s) && PassedMarked(s) && 0 < s.first && s.cleared[s.first - 1].walker
    ensures s.reading == Intended
  {
    assert s.removed[s.first - 1];
  }

  lemma DrainedShowsWalker(s: Node)
    requires Inv(s) && PassedMarked(s) && Quiescent(s) && s.first == s.fnr < s.last && 0 < s.fnr
    requires Joins(s.modes, s.fnr - 1) && !Joins(s.modes, s.fnr)
    ensures !NeverWalks(s)
  {
    assert DrainedOwned(s);
    assert s.cleared[s.first - 1].walker;
    assert WalksOrMarked(s, s.fnr - 1);
    assert Critical(s.reading, s.modes, s.fnr - 1);
  }

  lemma HeadMarkedIsCritical(s: Node)
    requires Inv(s) && Quiescent(s) && s.first < s.fnr < |s.modes| && s.removed[s.first] && !Joins(s.modes, s.fnr)
    ensures s.reading == AsWritten && Critical(s.reading, s.modes, s.first) && !NeverWalks(s)
  {
    assert MarkOwned(s) && Joins(s.modes, s.first);
    assert WalksOrMarked(s, s.first);
  }
}
