/** A barrier on a set of resources: one task that registers with Write on each of them, adding one to its wait counter
    before each registration. Its body parks the caller in the barrier queue, which is the subject of BarrierRun; it
    stores nothing, as a body that stores back what it has read.
 */
module Barrier {
  import opened Access
  import opened NodeInvariant
  import opened NodeMachine
  import opened NodeTheorems
  import opened Ordering
  import opened OrderSuffices
  import opened Program
  import opened SerialEquivalence
  import opened System
  import opened SystemInvariant
  import opened Walkers

  predicate IsBarrier(prog: Program, b: nat) {
    && b < |prog.tasks| && b in prog.barriers
    && forall k :: 0 <= k < |prog.tasks[b]| ==> prog.tasks[b][k].mode == Write
  }

  /** Every earlier user of one of its resources holds a barrier back. */
  lemma EarlierUserBlocks(prog: Program, b: nat, k: nat, u: nat, i: nat)
    requires Valid(prog) && IsBarrier(prog, b) && k < |prog.tasks[b]| && u < b && i < |prog.tasks[u]|
    requires prog.tasks[u][i].res == prog.tasks[b][k].res
    ensures Blocks(prog, u, i, b, k)
  {
    var r := prog.tasks[b][k].res;
    IndexOfAccess(prog.tasks[u], i);
    PosOrder(prog.tasks, u, b, r);
    ModeAtPos(prog, b, k);
    assert !Joins(Modes(prog, r), Pos(prog.tasks, b, r));
  }

  /** Task u is past its work, has begun to remove itself at its access i, and has been passed there by first. */
  predicate IsPast(prog: Program, s: Sys, u: nat, i: nat)
    requires Fits(prog, s) && u < |prog.tasks| && i < |prog.tasks[u]|
  {
    var r := prog.tasks[u][i].res;
    var q := Pos(prog.tasks, u, r);
    && r < |s.nodes| && q < s.nodes[r].first && q < |s.nodes[r].rem| && s.nodes[r].rem[q] != NotStarted
    && (s.phase[u].Finished? || (s.phase[u].Removing? && i <= s.phase[u].acc))
  }

  /** A launched barrier finds every earlier user of its resources past. */
  lemma LaunchedAfterEarlier(prog: Program, s: Sys, b: nat, k: nat, u: nat, i: nat)
    requires SysInv(prog, s) && IsBarrier(prog, b) && s.launches[b] > 0 && k < |prog.tasks[b]|
    requires u < b && i < |prog.tasks[u]| && prog.tasks[u][i].res == prog.tasks[b][k].res
    ensures IsPast(prog, s, u, i)
  {
    EarlierUserBlocks(prog, b, k, u, i);
    BlockerIsLeaving(prog, s, u, i, b, k);
  }

  /** In every run, from the moment a barrier has been launched, every task dispatched earlier on any of its resources
      is past its work, has begun to remove itself there, and has been passed by first. */
  lemma BarrierRunsAfterEverythingEarlier(prog: Program, reading: CasReading, capacity: nat, schedule: seq<Agent>,
                                          b: nat, k: nat, u: nat, i: nat)
    requires Valid(prog) && |prog.tasks| < capacity && IsBarrier(prog, b) && k < |prog.tasks[b]|
    requires u < b && i < |prog.tasks[u]| && prog.tasks[u][i].res == prog.tasks[b][k].res
    ensures
      var s := Run(prog, Start(prog, reading, capacity), schedule);
      s.launches[b] > 0 ==> IsPast(prog, s, u, i)
  {
    var s0 := Start(prog, reading, capacity);
    StartInv(prog, reading, capacity);
    RunInv(prog, s0, schedule);
    if Run(prog, s0, schedule).launches[b] > 0 {
      LaunchedAfterEarlier(prog, Run(prog, s0, schedule), b, k, u, i);
    }
  }

  /** While the barrier runs, nothing dispatched later on any of its resources has started. */
  lemma BarrierRunsBeforeEverythingLater(prog: Program, reading: CasReading, capacity: nat, schedule: seq<Agent>,
                                         b: nat, k: nat, u: nat, i: nat)
    requires Valid(prog) && |prog.tasks| < capacity && IsBarrier(prog, b) && k < |prog.tasks[b]|
    requires b < u < |prog.tasks| && i < |prog.tasks[u]| && prog.tasks[u][i].res == prog.tasks[b][k].res
    ensures
      var s := Run(prog, Start(prog, reading, capacity), schedule);
      Active(prog, s, b) ==> s.phase[u].Waiting?
  {
    var s0 := Start(prog, reading, capacity);
    StartInv(prog, reading, capacity);
    RunInv(prog, s0, schedule);
    if Active(prog, Run(prog, s0, schedule), b) {
      ConflictsInOrder(prog, Run(prog, s0, schedule), b, k, u, i);
    }
  }
}
