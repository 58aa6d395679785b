/** The condition on a program, checkable before anything is dispatched, under which every run finishes. */
module Ordering {
  import opened Access
  import opened NodeMachine
  import opened NodeTheorems
  import opened Program
  import opened Walkers

  // ----- which tasks wait for which -----

  /** Task v, through its access i, holds back task t at its access k: both use the resource and t is outside v's run
      of compatible registrations there. */
  ghost predicate Blocks(prog: Program, v: nat, i: nat, t: nat, k: nat) {
    && v < t < |prog.tasks| && i < |prog.tasks[v]| && k < |prog.tasks[t]|
    && prog.tasks[v][i].res == prog.tasks[t][k].res
    && var r := prog.tasks[t][k].res;
       !SameRun(Modes(prog, r), Pos(prog.tasks, v, r), Pos(prog.tasks, t, r))
  }

  /** Task t can start only after task u has left the resource of its access j: u itself holds t back on a resource it
      leaves later, or some task does that can start only then. */
  ghost predicate StartsAfter(prog: Program, u: nat, j: nat, t: nat)
    decreases t
  {
    exists v: nat, i: nat, k: nat ::
      Blocks(prog, v, i, t, k) && ((v == u && j < i) || (v < t && StartsAfter(prog, u, j, v)))
  }

  lemma {:induction false} StartsAfterIsLater(prog: Program, u: nat, j: nat, t: nat)
    requires StartsAfter(prog, u, j, t)
    ensures u < t
    decreases t
  {
    var v: nat, i: nat, k: nat :|
      Blocks(prog, v, i, t, k) && ((v == u && j < i) || (v < t && StartsAfter(prog, u, j, v)));
    if !(v == u && j < i) {
      StartsAfterIsLater(prog, u, j, v);
    }
  }

  /** The task at position p of the queue of resource r. */
  function UserAt(prog: Program, r: nat, p: nat): (t: nat)
    requires p < |Modes(prog, r)|
    ensures t < |prog.tasks| && Uses(prog.tasks[t], r)
  {
    Users(prog.tasks, r, |prog.tasks|)[p]
  }

  function AccessAt(prog: Program, r: nat, p: nat): (j: nat)
    requires p < |Modes(prog, r)|
    ensures j < |prog.tasks[UserAt(prog, r, p)]| && prog.tasks[UserAt(prog, r, p)][j].res == r
  {
    Index(prog.tasks[UserAt(prog, r, p)], r)
  }

  /** Position p of resource r is critical and position u lies in front of it in its run of compatible registrations. */
  predicate SharesCritically(reading: CasReading, prog: Program, r: nat, u: nat, p: nat) {
    && r < prog.resources && u < p < |Modes(prog, r)|
    && Critical(reading, Modes(prog, r), p) && SameRun(Modes(prog, r), u, p)
  }

  /** On every resource, a task at a critical position can start only after every task in front of it in its run of
      compatible registrations has left that resource. */
  ghost predicate Orderly(reading: CasReading, prog: Program) {
    forall r: nat, u: nat, p: nat :: SharesCritically(reading, prog, r, u, p) ==>
      StartsAfter(prog, UserAt(prog, r, u), AccessAt(prog, r, u), UserAt(prog, r, p))
  }

  // ----- simple programs -----

  /** On every resource, once two neighbouring registrations may share, all later ones may share too. */
  ghost predicate AllShareToTheEnd(prog: Program) {
    forall r: nat :: r < prog.resources ==> SharesToTheEnd(Modes(prog, r))
  }

  lemma {:induction false} SharesOn(modes: seq<AccessMode>, p: nat, z: nat)
    requires SharesToTheEnd(modes) && Joins(modes, p) && p <= z < |modes|
    ensures Joins(modes, z)
    decreases z - p
  {
    if p < z {
      assert Joins(modes, p + 1);
      SharesOn(modes, p + 1, z);
    }
  }

  lemma SharingIsNeverCritical(reading: CasReading, modes: seq<AccessMode>, p: nat)
    requires SharesToTheEnd(modes)
    ensures !Critical(reading, modes, p)
  {
    if Critical(reading, modes, p) && reading == AsWritten {
      var z :| p < z < |modes| && !Joins(modes, z);
      SharesOn(modes, p, z);
    }
  }

  lemma SharingIsOrderly(reading: CasReading, prog: Program)
    requires AllShareToTheEnd(prog)
    ensures Orderly(reading, prog)
  {
    forall r: nat, p: nat | r < prog.resources
      ensures !Critical(reading, Modes(prog, r), p)
    {
      SharingIsNeverCritical(reading, Modes(prog, r), p);
    }
  }

  ghost predicate OneResourceEach(prog: Program) {
    forall t :: 0 <= t < |prog.tasks| ==> |prog.tasks[t]| <= 1
  }

  /** Tasks that use one resource each never wait for one another to leave something else. */
  lemma {:induction false} NoneStartsAfter(prog: Program, u: nat, j: nat, t: nat)
    requires OneResourceEach(prog)
    ensures !StartsAfter(prog, u, j, t)
    decreases t
  {
    if StartsAfter(prog, u, j, t) {
      var v: nat, i: nat, k: nat :|
        Blocks(prog, v, i, t, k) && ((v == u && j < i) || (v < t && StartsAfter(prog, u, j, v)));
      NoneStartsAfter(prog, u, j, v);
    }
  }

  /** A pair that shares, followed by a registration that does not, is a critical position. */
  lemma TripleIsCritical(reading: CasReading, modes: seq<AccessMode>, i: nat)
    requires 0 < i && i + 1 < |modes| && Joins(modes, i) && !Joins(modes, i + 1)
    ensures Critical(reading, modes, i) && SameRun(modes, i - 1, i)
  {
  }

  lemma OrderlyPairsShareOn(reading: CasReading, prog: Program, r: nat, i: nat)
    requires OneResourceEach(prog) && Orderly(reading, prog) && r < prog.resources
    requires 0 < i && i + 1 < |Modes(prog, r)| && Joins(Modes(prog, r), i)
    ensures Joins(Modes(prog, r), i + 1)
  {
    if !Joins(Modes(prog, r), i + 1) {
      TripleIsCritical(reading, Modes(prog, r), i);
      assert SharesCritically(reading, prog, r, i - 1, i);
      NoneStartsAfter(prog, UserAt(prog, r, i - 1), AccessAt(prog, r, i - 1), UserAt(prog, r, i));
    }
  }

  /** With one resource each, the order condition is that the registrations share to the end. */
  lemma OneResourceOrder(reading: CasReading, prog: Program)
    requires OneResourceEach(prog)
    ensures Orderly(reading, prog) <==> AllShareToTheEnd(prog)
  {
    if AllShareToTheEnd(prog) {
      SharingIsOrderly(reading, prog);
    }
    if Orderly(reading, prog) {
      forall r: nat | r < prog.resources
        ensures SharesToTheEnd(Modes(prog, r))
      {
        if !SharesToTheEnd(Modes(prog, r)) {
          var i := TripleOf(Modes(prog, r));
          OrderlyPairsShareOn(reading, prog, r, i);
        }
      }
    }
  }
}
