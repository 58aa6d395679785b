/** In a program whose order does not meet the condition, some run gets stuck: let two sharers be in the queue
    together, hold the later one while it walks, and let everybody else go on.
 */
module OrderNeeded {
  import opened Access
  import opened NodeInvariant
  import opened NodeMachine
  import opened NodeTheorems
  import opened Ordering
  import opened OrderSuffices
  import opened Options
  import opened Program
  import opened Progress
  import opened SerialEquivalence
  import opened Stranding
  import opened System
  import opened SystemInvariant
  import opened Walkers

  // ----- runs -----

  /** s' is some number of steps after s. */
  ghost predicate Reaches(prog: Program, s: Sys, s': Sys)
    requires Fits(prog, s)
  {
    exists schedule: seq<Agent> :: Run(prog, s, schedule) == s'
  }

  lemma {:induction false} RunAppends(prog: Program, s: Sys, a: seq<Agent>, b: seq<Agent>)
    requires Fits(prog, s)
    ensures Run(prog, s, a + b) == Run(prog, Run(prog, s, a), b)
    decreases |a|
  {
    if a == [] {
      assert a + b == b;
    } else {
      assert (a + b)[0] == a[0] && (a + b)[1..] == a[1..] + b;
      RunAppends(prog, SysStep(prog, s, a[0]), a[1..], b);
    }
  }

  lemma ReachesTransitively(prog: Program, s: Sys, m: Sys, s': Sys)
    requires Fits(prog, s) && Fits(prog, m) && Reaches(prog, s, m) && Reaches(prog, m, s')
    ensures Reaches(prog, s, s')
  {
    var a :| Run(prog, s, a) == m;
    var b :| Run(prog, m, b) == s';
    RunAppends(prog, s, a, b);
  }

  lemma StepReaches(prog: Program, s: Sys, who: Agent)
    requires Fits(prog, s)
    ensures Reaches(prog, s, SysStep(prog, s, who))
  {
    assert Run(prog, SysStep(prog, s, who), [who][1..]) == SysStep(prog, s, who);
    assert Run(prog, s, [who]) == SysStep(prog, s, who);
  }

  // ----- what stays in a queue -----

  lemma NodeSteps(prog: Program, s: Sys, who: Agent, r: nat) returns (th: Thread)
    requires SysInv(prog, s) && r < |s.nodes|
    ensures
      var n' := SysStep(prog, s, who).nodes[r];
      n' == s.nodes[r] || n' == Step(s.nodes[r], th)
  {
    var q;
    q, th := StepIsNodeStep(prog, s, who);
  }

  lemma {:induction false} DeadRun(prog: Program, s: Sys, schedule: seq<Agent>, r: nat)
    requires SysInv(prog, s) && r < |s.nodes| && Dead(s.nodes[r])
    ensures Dead(Run(prog, s, schedule).nodes[r])
    decreases |schedule|
  {
    if schedule != [] {
      var th := NodeSteps(prog, s, schedule[0], r);
      DeadStep(s.nodes[r], th);
      SysStepInv(prog, s, schedule[0]);
      DeadRun(prog, SysStep(prog, s, schedule[0]), schedule[1..], r);
    }
  }

  lemma {:induction false} WalkingRun(prog: Program, s: Sys, schedule: seq<Agent>, r: nat, p: nat)
    requires SysInv(prog, s) && r < |s.nodes| && p < |s.nodes[r].modes| && Walking(s.nodes[r], p)
    ensures
      var n := Run(prog, s, schedule).nodes[r];
      p < |n.modes| && Sized(n) && Walking(n, p)
    decreases |schedule|
  {
    if schedule != [] {
      var th := NodeSteps(prog, s, schedule[0], r);
      assert Inv(s.nodes[r]);
      WalkingStep(s.nodes[r], th, p);
      SysStepInv(prog, s, schedule[0]);
      WalkingRun(prog, SysStep(prog, s, schedule[0]), schedule[1..], r, p);
    }
  }

  lemma {:induction false} DoomedRun(prog: Program, s: Sys, schedule: seq<Agent>, r: nat, p: nat)
    requires SysInv(prog, s) && r < |s.nodes| && Doomed(s.nodes[r], p)
    ensures Doomed(Run(prog, s, schedule).nodes[r], p)
    decreases |schedule|
  {
    if schedule != [] {
      var th := NodeSteps(prog, s, schedule[0], r);
      DoomedStep(s.nodes[r], th, p);
      SysStepInv(prog, s, schedule[0]);
      DoomedRun(prog, SysStep(prog, s, schedule[0]), schedule[1..], r, p);
    }
  }

  // ----- holding a task back -----

  /** Task t is held where it is about to step in the call that leaves the resource of its access j. */
  datatype Hold = Hold(t: nat, j: nat)

  predicate Held(s: Sys, h: Hold) {
    h.t < |s.phase| && s.phase[h.t] == Removing(h.j)
  }

  ghost predicate CallOf(prog: Program, s: Sys, h: Hold, pc: RemPc) {
    && h.t < |prog.tasks| && h.j < |prog.tasks[h.t]|
    && var r := prog.tasks[h.t][h.j].res;
       var p := Pos(prog.tasks, h.t, r);
       r < |s.nodes| && p < |s.nodes[r].rem| && s.nodes[r].rem[p] == pc
  }

  /** Task t has not got beyond that point, and its call there is where it was. */
  ghost predicate Behind(prog: Program, s: Sys, h: Hold, pc: RemPc) {
    && CallOf(prog, s, h, pc) && h.t < |s.phase|
    && !s.phase[h.t].Finished? && (s.phase[h.t].Removing? ==> s.phase[h.t].acc <= h.j)
    && (pc.NotStarted? || Held(s, h))
  }

  /** Nobody but held tasks can move. */
  ghost predicate Settled(prog: Program, s: Sys, holds: seq<Hold>)
    requires Fits(prog, s)
  {
    forall who :: CanMove(prog, s, who) ==> exists i :: 0 <= i < |holds| && who == Task(holds[i].t) && Held(s, holds[i])
  }

  ghost predicate AllBehind(prog: Program, s: Sys, holds: seq<Hold>, pc: RemPc) {
    forall i :: 0 <= i < |holds| ==> Behind(prog, s, holds[i], pc)
  }

  /** A step of somebody who is not held keeps every held task where it is. */
  lemma OthersKeepCall(prog: Program, s: Sys, who: Agent, h: Hold, pc: RemPc)
    requires SysInv(prog, s) && Behind(prog, s, h, pc) && who != Task(h.t)
    ensures Behind(prog, SysStep(prog, s, who), h, pc)
  {
    if who.Task? {
      if who.id < |prog.tasks| {
        TaskKeepsCalls(prog, s, who.id, h.t, h.j);
        TaskKeepsPhase(prog, s, who.id, h.t);
      }
    } else {
      DispatcherKeepsCalls(prog, s, h, pc);
    }
  }

  lemma DispatcherKeepsCalls(prog: Program, s: Sys, h: Hold, pc: RemPc)
    requires SysInv(prog, s) && Behind(prog, s, h, pc)
    ensures Behind(prog, DispatchStep(prog, s), h, pc)
  {
    if s.task < |prog.tasks| && s.stage.Register? && s.stage.acc < |prog.tasks[s.task]| {
      var r := RegisterStep(prog, s);
      assert Inv(s.nodes[r]);
      AdderFrame(s.nodes[r]);
      StepNodeNodes(prog, s, r, Adder);
    }
  }

  /** Its own steps bring a task at most up to the point where it is held. */
  lemma OwnKeepsCall(prog: Program, s: Sys, h: Hold)
    requires SysInv(prog, s) && Behind(prog, s, h, NotStarted) && !Held(s, h)
    ensures Behind(prog, SysStep(prog, s, Task(h.t)), h, NotStarted)
  {
    if s.phase[h.t].Removing? {
      var r, p := RemoveStep(prog, s, h.t);
      RemoverFrame(s.nodes[r], p);
      DistinctResources(prog, h, s.phase[h.t].acc);
    }
  }

  /** Two accesses of one task are to different resources. */
  lemma DistinctResources(prog: Program, h: Hold, k: nat)
    requires Valid(prog) && h.t < |prog.tasks| && k < h.j < |prog.tasks[h.t]|
    ensures prog.tasks[h.t][k].res != prog.tasks[h.t][h.j].res
  {
  }

  lemma StepKeepsBehind(prog: Program, s: Sys, who: Agent, h: Hold, pc: RemPc)
    requires SysInv(prog, s) && Behind(prog, s, h, pc) && !(who == Task(h.t) && Held(s, h))
    ensures Behind(prog, SysStep(prog, s, who), h, pc)
  {
    if who == Task(h.t) {
      OwnKeepsCall(prog, s, h);
    } else {
      OthersKeepCall(prog, s, who, h, pc);
    }
  }

  /** Let everybody who is not held go on for as long as they can. */
  lemma {:induction false} RunHolding(prog: Program, s: Sys, holds: seq<Hold>, pc: RemPc) returns (s': Sys)
    requires SysInv(prog, s) && AllBehind(prog, s, holds, pc)
    ensures SysInv(prog, s') && Reaches(prog, s, s') && AllBehind(prog, s', holds, pc) && Settled(prog, s', holds)
    decreases Measure(prog, s)
  {
    if Settled(prog, s, holds) {
      s' := s;
      assert Run(prog, s, []) == s;
    } else {
      var who :|
        && CanMove(prog, s, who)
        && forall i :: 0 <= i < |holds| ==> !(who == Task(holds[i].t) && Held(s, holds[i]));
      var m := SysStep(prog, s, who);
      MoveDecreases(prog, s, who);
      SysStepInv(prog, s, who);
      forall i | 0 <= i < |holds|
        ensures Behind(prog, m, holds[i], pc)
      {
        StepKeepsBehind(prog, s, who, holds[i], pc);
      }
      s' := RunHolding(prog, m, holds, pc);
      StepReaches(prog, s, who);
      ReachesTransitively(prog, s, m, s');
    }
  }
}
