/** Which value a task reads and which value memory holds, in terms of what the tasks themselves store, with no serial
    run in between. */
module DataFlow {
  import opened Access
  import opened NodeMachine
  import opened Ordering
  import opened OrderSuffices
  import opened Program
  import opened SerialEquivalence
  import opened System
  import opened SystemInvariant
  import opened Walkers

  /** Task u stores to resource r through its access i. */
  predicate WritesAt(prog: Program, u: nat, i: nat, r: nat) {
    u < |prog.tasks| && i < |prog.tasks[u]| && prog.tasks[u][i].res == r && prog.tasks[u][i].mode != Read
  }

  /** u is the last task before t that stores to r, and i is its access. */
  ghost predicate LastWriter(prog: Program, r: nat, t: nat, u: nat, i: nat) {
    u < t && WritesAt(prog, u, i, r) && forall v: nat, k: nat :: u < v < t ==> !WritesAt(prog, v, k, r)
  }

  ghost predicate NoWriter(prog: Program, r: nat, t: nat) {
    forall v: nat, k: nat :: 0 <= v < t ==> !WritesAt(prog, v, k, r)
  }

  /** Task w has made the store of its access i. */
  predicate HasStored(s: Sys, w: nat, i: nat) {
    && w < |s.phase|
    && match s.phase[w]
       case Writing(j) => i < j
       case Removing(_) => true
       case Finished => true
       case _ => false
  }

  // ----- accesses and tasks -----

  lemma WritesIndex(prog: Program, u: nat, i: nat, r: nat)
    requires Valid(prog) && WritesAt(prog, u, i, r)
    ensures Writes(prog.tasks[u], r) && Index(prog.tasks[u], r) == i
  {
    IndexOfAccess(prog.tasks[u], i);
  }

  lemma WriterIndex(prog: Program, u: nat, r: nat)
    requires u < |prog.tasks| && Writes(prog.tasks[u], r)
    ensures WritesAt(prog, u, Index(prog.tasks[u], r), r)
  {
  }

  lemma StoredIsWrote(prog: Program, s: Sys, w: nat, i: nat, r: nat)
    requires Valid(prog) && Fits(prog, s) && WritesAt(prog, w, i, r)
    ensures HasStored(s, w, i) <==> Wrote(prog, s, w, r)
  {
    WritesIndex(prog, w, i, r);
  }

  /** A task that stores holds back every later user of the resource. */
  lemma WriterBlocks(prog: Program, u: nat, i: nat, t: nat, k: nat)
    requires Valid(prog) && ReadsAndWrites(prog) && u < t < |prog.tasks| && k < |prog.tasks[t]|
    requires WritesAt(prog, u, i, prog.tasks[t][k].res)
    ensures Blocks(prog, u, i, t, k)
  {
    var r := prog.tasks[t][k].res;
    var p, q := Pos(prog.tasks, u, r), Pos(prog.tasks, t, r);
    IndexOfAccess(prog.tasks[u], i);
    PosOrder(prog.tasks, u, t, r);
    ModeAtPos(prog, u, i);
    assert Modes(prog, r)[p] == Write;
    assert !Joins(Modes(prog, r), p + 1);
  }

  // ----- the serial run, one resource at a time -----

  /** After the last writer the serial memory holds what that writer stores. */
  lemma SerialIsLastWriter(prog: Program, r: nat, t: nat, u: nat, i: nat)
    requires Valid(prog) && t <= |prog.tasks| && r < |prog.initial| && LastWriter(prog, r, t, u, i)
    ensures SerialMem(prog, t)[r] == prog.body(u, ViewOf(prog, u, SerialMem(prog, u)), i)
  {
    WritesIndex(prog, u, i, r);
    forall v: nat | u + 1 <= v < t ensures !Writes(prog.tasks[v], r) {
      if Writes(prog.tasks[v], r) {
        WriterIndex(prog, v, r);
      }
    }
    SerialUnwritten(prog, r, u + 1, t);
  }

  lemma SerialIsInitial(prog: Program, r: nat, t: nat)
    requires t <= |prog.tasks| && r < |prog.initial| && NoWriter(prog, r, t)
    ensures SerialMem(prog, t)[r] == prog.initial[r]
  {
    forall v: nat | 0 <= v < t ensures !Writes(prog.tasks[v], r) {
      if Writes(prog.tasks[v], r) {
        WriterIndex(prog, v, r);
      }
    }
    SerialUnwritten(prog, r, 0, t);
  }

  /** A task that has read everything has read what it reads in the serial run. */
  lemma FullView(prog: Program, s: Sys, u: nat)
    requires SerialInv(prog, s) && u < |prog.tasks| && !s.phase[u].Waiting? && !s.phase[u].Reading?
    ensures s.view[u] == ViewOf(prog, u, SerialMem(prog, u))
  {
    assert ViewOk(prog, s, u);
  }

  // ----- one state -----

  lemma ReadValue(prog: Program, s: Sys, t: nat, j: nat, u: nat, i: nat)
    requires SerialInv(prog, s) && ReadsAndWrites(prog) && t < |prog.tasks| && j < |s.view[t]| && j < |prog.tasks[t]|
    requires LastWriter(prog, prog.tasks[t][j].res, t, u, i)
    ensures s.view[t][j] == prog.body(u, s.view[u], i)
  {
    assert ViewOk(prog, s, t) && PhaseOk(prog, s, t);
    WriterBlocks(prog, u, i, t, j);
    BlockerIsLeaving(prog, s, u, i, t, j);
    FullView(prog, s, u);
    SerialIsLastWriter(prog, prog.tasks[t][j].res, t, u, i);
  }

  lemma ReadInitial(prog: Program, s: Sys, t: nat, j: nat)
    requires SerialInv(prog, s) && t < |prog.tasks| && j < |s.view[t]| && j < |prog.tasks[t]|
    requires NoWriter(prog, prog.tasks[t][j].res, t)
    ensures s.view[t][j] == prog.initial[prog.tasks[t][j].res]
  {
    assert ViewOk(prog, s, t);
    SerialIsInitial(prog, prog.tasks[t][j].res, t);
  }

  /** Once w has stored to r, every earlier writer of r has. */
  lemma EarlierHaveStored(prog: Program, s: Sys, r: nat, w: nat, i: nat, v: nat, k: nat)
    requires SysInv(prog, s) && ReadsAndWrites(prog) && WritesAt(prog, w, i, r) && HasStored(s, w, i)
    requires v < w && WritesAt(prog, v, k, r)
    ensures HasStored(s, v, k)
  {
    assert PhaseOk(prog, s, w);
    WriterBlocks(prog, v, k, w, i);
    BlockerIsLeaving(prog, s, v, k, w, i);
  }

  /** w is the last task that has stored to r so far, through its access i. */
  ghost predicate LastStore(prog: Program, s: Sys, r: nat, w: nat, i: nat) {
    && WritesAt(prog, w, i, r) && HasStored(s, w, i)
    && forall v: nat, k: nat :: w < v && WritesAt(prog, v, k, r) ==> !HasStored(s, v, k)
  }

  ghost predicate NothingStored(prog: Program, s: Sys, r: nat) {
    forall v: nat, k: nat :: WritesAt(prog, v, k, r) ==> !HasStored(s, v, k)
  }

  lemma StoredValues(prog: Program, s: Sys, r: nat, w: nat, i: nat)
    requires SerialInv(prog, s) && ReadsAndWrites(prog) && r < |s.mem| && LastStore(prog, s, r, w, i)
    ensures s.mem[r] == prog.body(w, s.view[w], i)
  {
    forall v: nat | v < |prog.tasks| && Writes(prog.tasks[v], r)
      ensures Wrote(prog, s, v, r) <==> v < w + 1
    {
      var k := Index(prog.tasks[v], r);
      WriterIndex(prog, v, r);
      StoredIsWrote(prog, s, v, k, r);
      StoredIsWrote(prog, s, w, i, r);
      if v < w {
        EarlierHaveStored(prog, s, r, w, i, v, k);
      }
    }
    assert Split(prog, s, r, w + 1);
    FullView(prog, s, w);
    assert LastWriter(prog, r, w + 1, w, i);
    SerialIsLastWriter(prog, r, w + 1, w, i);
  }

  lemma UnstoredValue(prog: Program, s: Sys, r: nat)
    requires SerialInv(prog, s) && r < |s.mem| && NothingStored(prog, s, r)
    ensures s.mem[r] == prog.initial[r]
  {
    forall v: nat | v < |prog.tasks| && Writes(prog.tasks[v], r)
      ensures !Wrote(prog, s, v, r)
    {
      WriterIndex(prog, v, r);
      StoredIsWrote(prog, s, v, Index(prog.tasks[v], r), r);
    }
    assert Split(prog, s, r, 0);
  }

  // ----- every run -----

  lemma RunSerial(prog: Program, reading: CasReading, capacity: nat, schedule: seq<Agent>)
    requires Valid(prog) && ReadsAndWrites(prog) && |prog.tasks| < capacity
    ensures SerialInv(prog, Run(prog, Start(prog, reading, capacity), schedule))
  {
    StartSerial(prog, reading, capacity);
    SerialRun(prog, Start(prog, reading, capacity), schedule);
  }

  /** In every interleaving, at every moment, whatever a task has read of a resource is what its own body makes the last
      earlier dispatched writer of that resource store, from what that writer has read; or the initial value if there is
      no such writer. A finished task has read all its resources. */
  lemma ReadsLastWriter(prog: Program, reading: CasReading, capacity: nat, schedule: seq<Agent>, t: nat, j: nat)
    requires Valid(prog) && ReadsAndWrites(prog) && |prog.tasks| < capacity
    requires t < |prog.tasks| && j < |prog.tasks[t]|
    ensures
      var s := Run(prog, Start(prog, reading, capacity), schedule);
      var r := prog.tasks[t][j].res;
      && (s.phase[t].Finished? ==> j < |s.view[t]|)
      && (j < |s.view[t]| ==>
           && (NoWriter(prog, r, t) ==> s.view[t][j] == prog.initial[r])
           && (forall u: nat, i: nat :: LastWriter(prog, r, t, u, i) ==> s.view[t][j] == prog.body(u, s.view[u], i)))
  {
    RunSerial(prog, reading, capacity, schedule);
    var s := Run(prog, Start(prog, reading, capacity), schedule);
    var r := prog.tasks[t][j].res;
    assert ViewOk(prog, s, t);
    if j < |s.view[t]| {
      if NoWriter(prog, r, t) {
        ReadInitial(prog, s, t, j);
      }
      forall u: nat, i: nat | LastWriter(prog, r, t, u, i)
        ensures s.view[t][j] == prog.body(u, s.view[u], i)
      {
        ReadValue(prog, s, t, j, u, i);
      }
    }
  }

  /** In every interleaving, at every moment, memory holds what the last task that has stored to a resource stores from
      what it has read, the tasks in the order of their dispatch; or the initial value if none has stored. */
  lemma MemoryIsLastStore(prog: Program, reading: CasReading, capacity: nat, schedule: seq<Agent>, r: nat)
    requires Valid(prog) && ReadsAndWrites(prog) && |prog.tasks| < capacity && r < prog.resources
    ensures
      var s := Run(prog, Start(prog, reading, capacity), schedule);
      && (NothingStored(prog, s, r) ==> s.mem[r] == prog.initial[r])
      && (forall w: nat, i: nat :: LastStore(prog, s, r, w, i) ==> s.mem[r] == prog.body(w, s.view[w], i))
  {
    RunSerial(prog, reading, capacity, schedule);
    var s := Run(prog, Start(prog, reading, capacity), schedule);
    if NothingStored(prog, s, r) {
      UnstoredValue(prog, s, r);
    }
    forall w: nat, i: nat | LastStore(prog, s, r, w, i)
      ensures s.mem[r] == prog.body(w, s.view[w], i)
    {
      StoredValues(prog, s, r, w, i);
    }
  }

  /** When all tasks have finished, memory holds what the last writer of each resource stores, or the initial value. */
  lemma FinalMemory(prog: Program, reading: CasReading, capacity: nat, schedule: seq<Agent>, r: nat)
    requires Valid(prog) && ReadsAndWrites(prog) && |prog.tasks| < capacity && r < prog.resources
    ensures
      var s := Run(prog, Start(prog, reading, capacity), schedule);
      AllFinished(prog, s) ==>
        && (NoWriter(prog, r, |prog.tasks|) ==> s.mem[r] == prog.initial[r])
        && (forall w: nat, i: nat :: LastWriter(prog, r, |prog.tasks|, w, i) ==> s.mem[r] == prog.body(w, s.view[w], i))
  {
    MemoryIsLastStore(prog, reading, capacity, schedule, r);
    var s := Run(prog, Start(prog, reading, capacity), schedule);
    if AllFinished(prog, s) {
      if NoWriter(prog, r, |prog.tasks|) {
        assert NothingStored(prog, s, r);
      }
      forall w: nat, i: nat | LastWriter(prog, r, |prog.tasks|, w, i)
        ensures s.mem[r] == prog.body(w, s.view[w], i)
      {
        assert LastStore(prog, s, r, w, i);
      }
    }
  }
}
