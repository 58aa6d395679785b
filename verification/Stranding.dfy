/** States of a queue after which some registered task is never granted. */
module Stranding {
  import opened Access
  import opened NodeInvariant
  import opened NodeMachine
  import opened NodeTheorems
  import opened Walkers

  // ----- for good -----

  /** Read as written, a marked entry is never passed, so nothing outside its run behind it is granted. */
  ghost predicate StuckBehindMark(s: Node) {
    && Inv(s) && s.reading == AsWritten
    && exists p: nat, z: nat :: p < z < |s.modes| && s.removed[p] && !Joins(s.modes, z)
  }

  /** Some registration is never granted by any continuation. */
  ghost predicate Dead(s: Node) {
    (Inv(s) && Abandoned(s)) || StuckBehindMark(s)
  }

  lemma DeadStep(s: Node, th: Thread)
    requires Dead(s)
    ensures Dead(Step(s, th))
  {
    StepInv(s, th);
    if Abandoned(s) {
      AbandonedStep(s, th);
    } else {
      var p: nat, z: nat :| p < z < |s.modes| && s.removed[p] && !Joins(s.modes, z);
      StepKeepsMarks(s, th, p);
    }
  }

  lemma StepKeepsMarks(s: Node, th: Thread, p: nat)
    requires Sized(s) && p < |s.removed| && s.removed[p]
    ensures p < |Step(s, th).removed| && Step(s, th).removed[p]
  {
    if th.Remover? && th.pos < |s.modes| {
      RemStepMarks(s, th.pos);
    }
  }

  lemma DeadWaits(s: Node)
    requires Dead(s)
    ensures s.fnr < |s.modes|
  {
    if !Abandoned(s) {
      var p: nat, z: nat :| p < z < |s.modes| && s.removed[p] && !Joins(s.modes, z);
      assert s.fnr <= z;
    }
  }

  /** With no call in flight, a queue that is not healthy never recovers. */
  lemma UnhealthyIsDead(s: Node)
    requires Inv(s) && Quiescent(s) && !Healthy(s)
    ensures Dead(s)
  {
    UnhealthyShowsTriple(s);
    if s.first == s.fnr {
      forall p | 0 <= p < |s.rem|
        ensures if p < s.fnr then s.rem[p].Done? else s.rem[p].NotStarted? && !s.notified[p]
      {
        assert RemOk(s, p);
      }
    } else {
      assert RunOwned(s);
      HeadMarkedIsCritical(s);
    }
  }

  // ----- walking on after the others have left -----

  predicate Walking(s: Node, p: nat)
    requires Sized(s) && p < |s.modes|
  {
    s.rem[p].WalkLoad? || s.rem[p].Walk? || s.removed[p]
  }

  /** A remover that walks marks its entry before it does anything else. */
  lemma WalkingStep(s: Node, th: Thread, p: nat)
    requires Inv(s) && p < |s.modes| && Walking(s, p)
    ensures Walking(Step(s, th), p)
  {
    if th.Remover? && th.pos < |s.modes| {
      if th.pos == p {
        assert RemOk(s, p);
        OwnKeepsWalking(s, p);
      } else {
        OthersKeepWalking(s, th.pos, p);
      }
    }
  }

  lemma OwnKeepsWalking(s: Node, p: nat)
    requires Shape(s) && p < |s.modes| && RemOk(s, p) && Walking(s, p)
    ensures Walking(RemStep(s, p), p)
  {
    if s.removed[p] {
      RemStepMarks(s, p);
    }
  }

  /** Remover p walks, everybody in front of it has left, it is the last one granted and a task waits: it will mark
      its entry, advance first over it, and return. */
  predicate Doomed(s: Node, p: nat) {
    && Sized(s) && s.reading == Intended && s.adder == AddIdle
    && s.last == |s.modes| && s.fnr == p + 1 < |s.modes| && !s.removed[p + 1]
    && (forall x :: 0 <= x < |s.modes| && x < p ==> s.rem[x].Done?)
    && (forall x :: p < x < |s.modes| ==> s.rem[x].NotStarted? && !s.notified[x])
    && match s.rem[p]
       case WalkLoad(cur) => s.first == p && cur <= p
       case Walk(cur, seen) => s.first == p && cur <= p && seen == p + 1
       case WalkCas => s.first == p
       case Check(cur, walker) => cur == p + 1 && walker
       case Done => true
       case _ => false
  }

  lemma DoomedOwnStep(s: Node, p: nat)
    requires Doomed(s, p)
    ensures Doomed(RemStep(s, p), p)
  {
  }

  lemma DoomedStep(s: Node, th: Thread, p: nat)
    requires Doomed(s, p)
    ensures Doomed(Step(s, th), p)
  {
    if th == Remover(p) {
      DoomedOwnStep(s, p);
    }
  }
}
