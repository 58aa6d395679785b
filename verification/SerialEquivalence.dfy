/** Parallel execution gives the result of program order. */
module SerialEquivalence {
  import opened Access
  import opened NodeMachine
  import opened NodeInvariant
  import opened NodeTheorems
  import opened Program
  import opened System
  import opened SystemInvariant

  /** The accessors of a resource hand out Read and Write accesses only. */
  ghost predicate ReadsAndWrites(prog: Program) {
    forall t, j :: 0 <= t < |prog.tasks| && 0 <= j < |prog.tasks[t]| ==>
      prog.tasks[t][j].mode == Read || prog.tasks[t][j].mode == Write
  }

  // ----- from the queues to the tasks -----

  /** A launched task has been granted by every queue it registered with. */
  lemma LaunchedIsGranted(prog: Program, s: Sys, t: nat, j: nat)
    requires SysInv(prog, s) && t < |prog.tasks| && j < |prog.tasks[t]| && s.launches[t] > 0
    ensures
      var r := prog.tasks[t][j].res;
      var p := Pos(prog.tasks, t, r);
      r < |s.nodes| && p < |s.nodes[r].modes| && s.nodes[r].notified[p] && p < s.nodes[r].fnr
  {
    assert CounterOk(prog, s, t);
    NothingPending(prog, s.nodes, t, |prog.tasks[t]|);
    assert IsNotified(prog, s.nodes, t, j);
    assert Inv(s.nodes[prog.tasks[t][j].res]);
  }

  /** Task t is reading or writing. */
  predicate Active(prog: Program, s: Sys, t: nat)
    requires Fits(prog, s)
  {
    t < |prog.tasks| && (s.phase[t].Reading? || s.phase[t].Writing?)
  }

  lemma ActiveRuns(prog: Program, s: Sys, t: nat, j: nat)
    requires SysInv(prog, s) && Active(prog, s, t) && j < |prog.tasks[t]|
    ensures
      var r := prog.tasks[t][j].res;
      r < |s.nodes| && Running(s.nodes[r], Pos(prog.tasks, t, r))
  {
    assert PhaseOk(prog, s, t);
    assert RemAt(prog, s, t, j);
    LaunchedIsGranted(prog, s, t, j);
  }

  /** A task that some queue has already passed is past its work. */
  lemma PassedIsPastWork(prog: Program, s: Sys, u: nat, i: nat)
    requires SysInv(prog, s) && u < |prog.tasks| && i < |prog.tasks[u]|
    requires
      var r := prog.tasks[u][i].res;
      r < |s.nodes| && Pos(prog.tasks, u, r) < s.nodes[r].first
    ensures s.phase[u].Removing? || s.phase[u].Finished?
  {
    var r := prog.tasks[u][i].res;
    var q := Pos(prog.tasks, u, r);
    assert PhaseOk(prog, s, u);
    assert RemAt(prog, s, u, i);
    assert Inv(s.nodes[r]);
    assert RemOk(s.nodes[r], q);
  }

  /** While task t works on a resource, every earlier conflicting task is past its work and no later
      conflicting task has started. */
  lemma ConflictsInOrder(prog: Program, s: Sys, t: nat, j: nat, u: nat, i: nat)
    requires SysInv(prog, s) && Active(prog, s, t) && j < |prog.tasks[t]|
    requires u < |prog.tasks| && i < |prog.tasks[u]| && u != t && prog.tasks[u][i].res == prog.tasks[t][j].res
    requires IsSerialAccess(prog.tasks[t][j].mode, prog.tasks[u][i].mode)
    ensures u < t ==> s.phase[u].Removing? || s.phase[u].Finished?
    ensures t < u ==> s.phase[u].Waiting?
  {
    var r := prog.tasks[t][j].res;
    var p, q := Pos(prog.tasks, t, r), Pos(prog.tasks, u, r);
    ActiveRuns(prog, s, t, j);
    ModeAtPos(prog, t, j);
    ModeAtPos(prog, u, i);
    IndexOfAccess(prog.tasks[t], j);
    IndexOfAccess(prog.tasks[u], i);
    assert Inv(s.nodes[r]) && s.nodes[r].modes == Modes(prog, r);
    if u < t {
      PosOrder(prog.tasks, u, t, r);
      ConflictsAreOrdered(s.nodes[r], p, q);
      PassedIsPastWork(prog, s, u, i);
    } else {
      PosOrder(prog.tasks, t, u, r);
      ConflictsAreOrdered(s.nodes[r], p, q);
      assert PhaseOk(prog, s, u);
      if s.launches[u] > 0 {
        LaunchedIsGranted(prog, s, u, i);
      }
    }
  }

  // ----- memory -----

  /** Task t has stored its value for resource r. */
  predicate Wrote(prog: Program, s: Sys, t: nat, r: nat)
    requires Fits(prog, s) && t < |prog.tasks|
  {
    && Writes(prog.tasks[t], r)
    && match s.phase[t]
       case Writing(j) => Index(prog.tasks[t], r) < j
       case Removing(_) => true
       case Finished => true
       case _ => false
  }

  /** The writers of r that have stored are exactly those below k. */
  ghost predicate Split(prog: Program, s: Sys, r: nat, k: nat)
    requires Fits(prog, s)
  {
    forall t :: 0 <= t < |prog.tasks| && Writes(prog.tasks[t], r) ==> (Wrote(prog, s, t, r) <==> t < k)
  }

  ghost predicate MemOk(prog: Program, s: Sys)
    requires Fits(prog, s)
  {
    forall r: nat, k: nat :: r < |s.mem| && k <= |prog.tasks| && Split(prog, s, r, k) ==>
      s.mem[r] == SerialMem(prog, k)[r]
  }

  /** What task t has read so far is what it reads when the tasks run one by one. */
  ghost predicate ViewOk(prog: Program, s: Sys, t: nat)
    requires Fits(prog, s) && t < |prog.tasks|
  {
    && s.view[t] <= ViewOf(prog, t, SerialMem(prog, t))
    && match s.phase[t]
       case Waiting => s.view[t] == []
       case Reading(j) => |s.view[t]| == j
       case _ => |s.view[t]| == |prog.tasks[t]|
  }

  ghost predicate ViewsOk(prog: Program, s: Sys)
    requires Fits(prog, s)
  {
    forall t :: 0 <= t < |prog.tasks| ==> ViewOk(prog, s, t)
  }

  ghost predicate SerialInv(prog: Program, s: Sys) {
    SysInv(prog, s) && MemOk(prog, s) && ViewsOk(prog, s)
  }

  /** A task that has not yet stored to the resource it is at splits that resource's writers. */
  lemma ActiveSplits(prog: Program, s: Sys, t: nat, j: nat)
    requires SysInv(prog, s) && ReadsAndWrites(prog) && Active(prog, s, t) && j < |prog.tasks[t]|
    requires s.phase[t].Writing? ==> j == s.phase[t].acc
    ensures Split(prog, s, prog.tasks[t][j].res, t)
  {
    var r := prog.tasks[t][j].res;
    IndexOfAccess(prog.tasks[t], j);
    forall u | 0 <= u < |prog.tasks| && Writes(prog.tasks[u], r) ensures Wrote(prog, s, u, r) <==> u < t {
      if u != t {
        ConflictsInOrder(prog, s, t, j, u, Index(prog.tasks[u], r));
      }
    }
  }

  // -- steps that neither read nor write --

  lemma QuietStep(prog: Program, s: Sys, s': Sys)
    requires Ok(prog, s) && Fits(prog, s') && MemOk(prog, s) && ViewsOk(prog, s)
    requires s'.mem == s.mem && s'.view == s.view
    requires forall t: nat, r: nat :: t < |prog.tasks| ==> Wrote(prog, s', t, r) == Wrote(prog, s, t, r)
    requires forall t :: 0 <= t < |prog.tasks| ==> ViewOk(prog, s', t)
    ensures MemOk(prog, s') && ViewsOk(prog, s')
  {
    forall r: nat, k: nat | r < |s'.mem| && k <= |prog.tasks| && Split(prog, s', r, k)
      ensures s'.mem[r] == SerialMem(prog, k)[r]
    {
      assert Split(prog, s, r, k);
    }
  }

  lemma NodeStepsAreQuiet(prog: Program, s: Sys, s': Sys)
    requires Ok(prog, s) && Fits(prog, s') && MemOk(prog, s) && ViewsOk(prog, s)
    requires s'.mem == s.mem && s'.view == s.view
    requires forall t :: 0 <= t < |prog.tasks| ==>
      s'.phase[t] == s.phase[t] || (s.phase[t].Removing? && (s'.phase[t].Removing? || s'.phase[t].Finished?))
    ensures MemOk(prog, s') && ViewsOk(prog, s')
  {
    forall t | 0 <= t < |prog.tasks| ensures ViewOk(prog, s', t) {
      assert ViewOk(prog, s, t);
    }
    QuietStep(prog, s, s');
  }

  /** Entering the next phase of the work. */
  lemma TurnIsQuiet(prog: Program, s: Sys, t: nat)
    requires Ok(prog, s) && MemOk(prog, s) && ViewsOk(prog, s) && t < |prog.tasks|
    requires
      || s.phase[t].Waiting?
      || ((s.phase[t].Reading? || s.phase[t].Writing?) && s.phase[t].acc >= |prog.tasks[t]|)
      || (s.phase[t].Writing? && s.phase[t].acc < |prog.tasks[t]| && prog.tasks[t][s.phase[t].acc].mode == Read)
    ensures MemOk(prog, TaskStep(prog, s, t)) && ViewsOk(prog, TaskStep(prog, s, t))
  {
    var s' := TaskStep(prog, s, t);
    forall u | 0 <= u < |prog.tasks| ensures ViewOk(prog, s', u) {
      assert ViewOk(prog, s, u);
    }
    if s.phase[t].Writing? && s.phase[t].acc < |prog.tasks[t]| {
      IndexOfAccess(prog.tasks[t], s.phase[t].acc);
    }
    QuietStep(prog, s, s');
  }

  // -- reading and writing --

  lemma ReadStep(prog: Program, s: Sys, t: nat)
    requires SerialInv(prog, s) && ReadsAndWrites(prog) && t < |prog.tasks|
    requires s.phase[t].Reading? && s.phase[t].acc < |prog.tasks[t]|
    ensures MemOk(prog, TaskStep(prog, s, t)) && ViewsOk(prog, TaskStep(prog, s, t))
  {
    ActiveSplits(prog, s, t, s.phase[t].acc);
    ReadKeeps(prog, s, t);
  }

  lemma ReadKeeps(prog: Program, s: Sys, t: nat)
    requires Ok(prog, s) && MemOk(prog, s) && ViewsOk(prog, s) && t < |prog.tasks|
    requires s.phase[t].Reading? && s.phase[t].acc < |prog.tasks[t]|
    requires Split(prog, s, prog.tasks[t][s.phase[t].acc].res, t)
    ensures MemOk(prog, TaskStep(prog, s, t)) && ViewsOk(prog, TaskStep(prog, s, t))
  {
    var s' := TaskStep(prog, s, t);
    forall u | 0 <= u < |prog.tasks| ensures ViewOk(prog, s', u) {
      assert ViewOk(prog, s, u);
    }
    forall r: nat, k: nat | r < |s'.mem| && k <= |prog.tasks| && Split(prog, s', r, k)
      ensures s'.mem[r] == SerialMem(prog, k)[r]
    {
      assert forall u: nat :: u < |prog.tasks| ==> Wrote(prog, s', u, r) == Wrote(prog, s, u, r);
      assert Split(prog, s, r, k);
    }
  }

  /** Which writers have stored after task t's store to the resource of its access j. */
  lemma StoreWrites(prog: Program, s: Sys, t: nat, j: nat, u: nat, r: nat)
    requires Ok(prog, s) && t < |prog.tasks| && s.phase[t] == Writing(j) && j < |prog.tasks[t]|
    requires prog.tasks[t][j].mode != Read && u < |prog.tasks|
    ensures
      Wrote(prog, TaskStep(prog, s, t), u, r) <==>
        Wrote(prog, s, u, r) || (u == t && r == prog.tasks[t][j].res)
  {
    IndexOfAccess(prog.tasks[t], j);
  }

  lemma StoredValue(prog: Program, s: Sys, t: nat, j: nat)
    requires Ok(prog, s) && t < |prog.tasks| && s.phase[t] == Writing(j) && j < |prog.tasks[t]|
    requires prog.tasks[t][j].mode != Read && ViewOk(prog, s, t)
    ensures
      var r := prog.tasks[t][j].res;
      r < |prog.initial| && TaskStep(prog, s, t).mem[r] == SerialMem(prog, t + 1)[r]
  {
    IndexOfAccess(prog.tasks[t], j);
    assert s.view[t] == ViewOf(prog, t, SerialMem(prog, t));
  }

  lemma WriteKeeps(prog: Program, s: Sys, t: nat, j: nat, r: nat, k: nat)
    requires Ok(prog, s) && MemOk(prog, s) && ViewsOk(prog, s) && t < |prog.tasks|
    requires s.phase[t] == Writing(j) && j < |prog.tasks[t]| && prog.tasks[t][j].mode != Read
    requires Split(prog, s, prog.tasks[t][j].res, t)
    requires r < |s.mem| && k <= |prog.tasks| && Split(prog, TaskStep(prog, s, t), r, k)
    ensures TaskStep(prog, s, t).mem[r] == SerialMem(prog, k)[r]
  {
    var r0 := prog.tasks[t][j].res;
    var s' := TaskStep(prog, s, t);
    forall u: nat | u < |prog.tasks|
      ensures Wrote(prog, s', u, r) <==> Wrote(prog, s, u, r) || (u == t && r == r0)
    {
      StoreWrites(prog, s, t, j, u, r);
    }
    if r == r0 {
      IndexOfAccess(prog.tasks[t], j);
      assert Wrote(prog, s', t, r) && t < k;
      forall u: nat | t + 1 <= u < k ensures !Writes(prog.tasks[u], r) {
        var before, after := Wrote(prog, s, u, r), Wrote(prog, s', u, r);
      }
      StoredValue(prog, s, t, j);
      SerialUnwritten(prog, r, t + 1, k);
    } else {
      assert Split(prog, s, r, k);
    }
  }

  lemma WriteStep(prog: Program, s: Sys, t: nat)
    requires SerialInv(prog, s) && ReadsAndWrites(prog) && t < |prog.tasks|
    requires s.phase[t].Writing? && s.phase[t].acc < |prog.tasks[t]| && prog.tasks[t][s.phase[t].acc].mode != Read
    ensures MemOk(prog, TaskStep(prog, s, t)) && ViewsOk(prog, TaskStep(prog, s, t))
  {
    var s' := TaskStep(prog, s, t);
    ActiveSplits(prog, s, t, s.phase[t].acc);
    forall r: nat, k: nat | r < |s'.mem| && k <= |prog.tasks| && Split(prog, s', r, k)
      ensures s'.mem[r] == SerialMem(prog, k)[r]
    {
      WriteKeeps(prog, s, t, s.phase[t].acc, r, k);
    }
    forall u | 0 <= u < |prog.tasks| ensures ViewOk(prog, s', u) {
      assert ViewOk(prog, s, u);
    }
  }

  // -- every step --

  lemma RemovingIsQuiet(prog: Program, s: Sys, t: nat)
    requires Ok(prog, s) && MemOk(prog, s) && ViewsOk(prog, s) && t < |prog.tasks|
    requires s.phase[t].Removing? || s.phase[t].Finished?
    ensures MemOk(prog, TaskStep(prog, s, t)) && ViewsOk(prog, TaskStep(prog, s, t))
  {
    NodeStepsAreQuiet(prog, s, TaskStep(prog, s, t));
  }

  lemma SerialStep(prog: Program, s: Sys, who: Agent)
    requires SerialInv(prog, s) && ReadsAndWrites(prog)
    ensures SerialInv(prog, SysStep(prog, s, who))
  {
    SysStepInv(prog, s, who);
    match who
    case Dispatcher => NodeStepsAreQuiet(prog, s, DispatchStep(prog, s));
    case Task(t) =>
      if t < |prog.tasks| {
        match s.phase[t]
        case Waiting => TurnIsQuiet(prog, s, t);
        case Reading(j) => if j < |prog.tasks[t]| { ReadStep(prog, s, t); } else { TurnIsQuiet(prog, s, t); }
        case Writing(j) =>
          if j < |prog.tasks[t]| && prog.tasks[t][j].mode != Read {
            WriteStep(prog, s, t);
          } else {
            TurnIsQuiet(prog, s, t);
          }
        case Removing(_) => RemovingIsQuiet(prog, s, t);
        case Finished =>
      }
  }

  lemma {:induction false} SerialRun(prog: Program, s: Sys, schedule: seq<Agent>)
    requires SerialInv(prog, s) && ReadsAndWrites(prog)
    ensures SerialInv(prog, Run(prog, s, schedule))
    decreases |schedule|
  {
    if schedule != [] {
      SerialStep(prog, s, schedule[0]);
      SerialRun(prog, SysStep(prog, s, schedule[0]), schedule[1..]);
    }
  }

  lemma StartSerial(prog: Program, reading: CasReading, capacity: nat)
    requires Valid(prog) && |prog.tasks| < capacity
    ensures SerialInv(prog, Start(prog, reading, capacity))
  {
    var s := Start(prog, reading, capacity);
    StartInv(prog, reading, capacity);
    forall r: nat, k: nat | r < |s.mem| && k <= |prog.tasks| && Split(prog, s, r, k)
      ensures s.mem[r] == SerialMem(prog, k)[r]
    {
      forall u | 0 <= u < k ensures !Writes(prog.tasks[u], r) {
        assert !Wrote(prog, s, u, r);
      }
      SerialUnwritten(prog, r, 0, k);
    }
  }

  // ----- the theorem -----

  ghost predicate AllFinished(prog: Program, s: Sys)
    requires Fits(prog, s)
  {
    s.task == |prog.tasks| && forall t :: 0 <= t < |prog.tasks| ==> s.phase[t].Finished?
  }

  lemma FinishedMemory(prog: Program, s: Sys)
    requires Ok(prog, s) && MemOk(prog, s) && AllFinished(prog, s)
    ensures s.mem == SerialMem(prog, |prog.tasks|)
  {
    forall r: nat | r < |s.mem| ensures s.mem[r] == SerialMem(prog, |prog.tasks|)[r] {
      assert Split(prog, s, r, |prog.tasks|);
    }
  }

  lemma ViewsAreSerial(prog: Program, s: Sys)
    requires Ok(prog, s) && ViewsOk(prog, s)
    ensures forall t :: 0 <= t < |prog.tasks| ==> s.view[t] <= ViewOf(prog, t, SerialMem(prog, t))
    ensures forall t :: 0 <= t < |prog.tasks| && s.phase[t].Finished? ==>
              s.view[t] == ViewOf(prog, t, SerialMem(prog, t))
  {
    forall t | 0 <= t < |prog.tasks|
      ensures s.view[t] <= ViewOf(prog, t, SerialMem(prog, t))
      ensures s.phase[t].Finished? ==> s.view[t] == ViewOf(prog, t, SerialMem(prog, t))
    {
      assert ViewOk(prog, s, t);
    }
  }

  /** In every interleaving of the dispatcher and all tasks, under either reading of the CAS on first:
      at every moment each task has read exactly what it reads when the tasks run one by one in dispatch
      order, and once all tasks have finished the memory is the one left by that serial run. */
  lemma ParallelIsSerial(prog: Program, reading: CasReading, capacity: nat, schedule: seq<Agent>)
    requires Valid(prog) && ReadsAndWrites(prog) && |prog.tasks| < capacity
    ensures
      var s := Run(prog, Start(prog, reading, capacity), schedule);
      && (forall t :: 0 <= t < |prog.tasks| ==> s.view[t] <= ViewOf(prog, t, SerialMem(prog, t)))
      && (forall t :: 0 <= t < |prog.tasks| && s.phase[t].Finished? ==>
           s.view[t] == ViewOf(prog, t, SerialMem(prog, t)))
      && (AllFinished(prog, s) ==> s.mem == SerialMem(prog, |prog.tasks|))
  {
    StartSerial(prog, reading, capacity);
    SerialRun(prog, Start(prog, reading, capacity), schedule);
    var s := Run(prog, Start(prog, reading, capacity), schedule);
    ViewsAreSerial(prog, s);
    if AllFinished(prog, s) {
      FinishedMemory(prog, s);
    }
  }
}
