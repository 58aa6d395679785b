/** In a program whose order meets the condition, no queue ever loses a wake-up and every maximal run finishes. */
module OrderSuffices {
  import opened Access
  import opened NodeInvariant
  import opened NodeMachine
  import opened NodeTheorems
  import opened Ordering
  import opened Options
  import opened Program
  import opened Progress
  import opened SerialEquivalence
  import opened System
  import opened SystemInvariant
  import opened Walkers

  // ----- what has left when a task starts -----

  /** Whoever holds back a task that has been launched is past its work and inside or behind the call that leaves. */
  lemma BlockerIsLeaving(prog: Program, s: Sys, v: nat, i: nat, t: nat, k: nat)
    requires SysInv(prog, s) && Blocks(prog, v, i, t, k) && s.launches[t] > 0
    ensures s.phase[v].Finished? || (s.phase[v].Removing? && i <= s.phase[v].acc)
    ensures s.launches[v] > 0
    ensures
      var r := prog.tasks[t][k].res;
      var q := Pos(prog.tasks, v, r);
      r < |s.nodes| && q < s.nodes[r].first && q < |s.nodes[r].rem| && s.nodes[r].rem[q] != NotStarted
  {
    var r := prog.tasks[t][k].res;
    LaunchedIsGranted(prog, s, t, k);
    IndexOfAccess(prog.tasks[v], i);
    PosOrder(prog.tasks, v, t, r);
    assert Inv(s.nodes[r]) && s.nodes[r].modes == Modes(prog, r);
    GrantedPastOtherRuns(s.nodes[r], Pos(prog.tasks, v, r), Pos(prog.tasks, t, r));
    ModeAtPos(prog, v, i);
    assert RemOk(s.nodes[r], Pos(prog.tasks, v, r));
    assert PhaseOk(prog, s, v) && RemAt(prog, s, v, i);
  }

  /** When a task has been launched, whatever it can only start after has left. */
  lemma {:induction false} LaunchedAfter(prog: Program, s: Sys, u: nat, j: nat, t: nat)
    requires SysInv(prog, s) && t < |prog.tasks| && s.launches[t] > 0 && StartsAfter(prog, u, j, t)
    requires u < |prog.tasks| && j < |prog.tasks[u]|
    ensures s.phase[u].Finished? || (s.phase[u].Removing? && j < s.phase[u].acc)
    decreases t
  {
    var v: nat, i: nat, k: nat :|
      Blocks(prog, v, i, t, k) && ((v == u && j < i) || (v < t && StartsAfter(prog, u, j, v)));
    BlockerIsLeaving(prog, s, v, i, t, k);
    if !(v == u && j < i) {
      LaunchedAfter(prog, s, u, j, v);
    }
  }

  // ----- the invariant -----

  ghost predicate HistoriesOk(s: Sys) {
    forall r :: 0 <= r < |s.nodes| ==> History(s.nodes[r])
  }

  ghost predicate QueuesOk(s: Sys) {
    HistoriesOk(s) && forall r :: 0 <= r < |s.nodes| ==> NeverWalks(s.nodes[r])
  }

  ghost predicate ReadingIs(s: Sys, reading: CasReading) {
    forall r :: 0 <= r < |s.nodes| ==> s.nodes[r].reading == reading
  }

  /** In an orderly program a call at a critical position begins at the head. */
  lemma CriticalStartsAtHead(prog: Program, s: Sys, reading: CasReading, t: nat, r: nat, p: nat)
    requires SysInv(prog, s) && QueuesOk(s) && ReadingIs(s, reading) && Orderly(reading, prog)
    requires t < |prog.tasks| && s.phase[t].Removing? && s.phase[t].acc < |prog.tasks[t]|
    requires r == prog.tasks[t][s.phase[t].acc].res < |s.nodes| && p == Pos(prog.tasks, t, r) < |s.nodes[r].modes|
    ensures StartsAtHead(s.nodes[r], Remover(p))
  {
    var n := s.nodes[r];
    if Critical(n.reading, n.modes, p) && n.rem[p].NotStarted? && n.notified[p] {
      assert Inv(n) && History(n) && NeverWalks(n) && n.modes == Modes(prog, r);
      IndexOfAccess(prog.tasks[t], s.phase[t].acc);
      PosIsPosition(prog.tasks, t, r, |prog.tasks|);
      assert PhaseOk(prog, s, t);
      forall u: nat | u < p && SameRun(n.modes, u, p)
        ensures n.rem[u].Done?
      {
        SharerHasLeft(prog, s, reading, r, u, p);
      }
      HeadWhenOthersLeft(n, p);
    }
  }

  lemma SharerHasLeft(prog: Program, s: Sys, reading: CasReading, r: nat, u: nat, p: nat)
    requires SysInv(prog, s) && Orderly(reading, prog) && r < |s.nodes| && u < p < |Modes(prog, r)|
    requires Critical(reading, Modes(prog, r), p) && SameRun(Modes(prog, r), u, p)
    requires s.launches[UserAt(prog, r, p)] > 0
    ensures u < |s.nodes[r].rem| && s.nodes[r].rem[u].Done?
  {
    var tu, ju := UserAt(prog, r, u), AccessAt(prog, r, u);
    assert SharesCritically(reading, prog, r, u, p);
    LaunchedAfter(prog, s, tu, ju, UserAt(prog, r, p));
    PositionIsPos(prog.tasks, u, r, |prog.tasks|);
    PastIsDone(prog, s, tu, ju);
  }

  lemma PastIsDone(prog: Program, s: Sys, t: nat, j: nat)
    requires Ok(prog, s) && PhasesOk(prog, s) && t < |prog.tasks| && j < |prog.tasks[t]|
    requires s.phase[t].Finished? || (s.phase[t].Removing? && j < s.phase[t].acc)
    ensures
      var r := prog.tasks[t][j].res;
      var p := Pos(prog.tasks, t, r);
      r < |s.nodes| && p < |s.nodes[r].rem| && s.nodes[r].rem[p].Done?
  {
    assert PhaseOk(prog, s, t) && RemAt(prog, s, t, j);
  }

  lemma StepNodeNodes(prog: Program, s: Sys, r: nat, th: Thread)
    requires Fits(prog, s) && r < prog.resources
    ensures StepNode(prog, s, r, th).nodes == s.nodes[r := Step(s.nodes[r], th)]
  {
  }

  lemma DispatchIsNodeStep(prog: Program, s: Sys) returns (r: nat)
    requires SysInv(prog, s)
    ensures
      var s' := DispatchStep(prog, s);
      || s'.nodes == s.nodes
      || (r < |s.nodes| && s'.nodes == s.nodes[r := Step(s.nodes[r], Adder)])
  {
    r := 0;
    if s.task < |prog.tasks| && s.stage.Register? && s.stage.acc < |prog.tasks[s.task]| {
      r := RegisterStep(prog, s);
      StepNodeNodes(prog, s, r, Adder);
    }
  }

  /** A step of the system changes one queue by one step of one thread there, or none. */
  lemma StepIsNodeStep(prog: Program, s: Sys, who: Agent) returns (r: nat, th: Thread)
    requires SysInv(prog, s)
    ensures
      var s' := SysStep(prog, s, who);
      || s'.nodes == s.nodes
      || (r < |s.nodes| && s'.nodes == s.nodes[r := Step(s.nodes[r], th)]
          && (th == Adder || RemovesAt(prog, s, who, r, th)))
  {
    r, th := 0, Adder;
    if who.Dispatcher? {
      r := DispatchIsNodeStep(prog, s);
    } else if who.id < |prog.tasks| && s.phase[who.id].Removing? && s.phase[who.id].acc < |prog.tasks[who.id]| {
      r, th := RemovalIsNodeStep(prog, s, who.id);
    } else if who.id < |prog.tasks| {
      WorkRest(prog, s, who.id);
    }
  }

  lemma RemovalIsNodeStep(prog: Program, s: Sys, t: nat) returns (r: nat, th: Thread)
    requires Ok(prog, s) && t < |prog.tasks| && s.phase[t].Removing? && s.phase[t].acc < |prog.tasks[t]|
    ensures r < |s.nodes| && TaskStep(prog, s, t).nodes == s.nodes[r := Step(s.nodes[r], th)]
    ensures RemovesAt(prog, s, Task(t), r, th)
  {
    var p;
    r, p := RemoveStep(prog, s, t);
    th := Remover(p);
    StepNodeNodes(prog, s, r, th);
  }

  /** The thread is the call in which this task leaves queue r. */
  ghost predicate RemovesAt(prog: Program, s: Sys, who: Agent, r: nat, th: Thread)
    requires Fits(prog, s)
  {
    && who.Task? && who.id < |prog.tasks| && s.phase[who.id].Removing? && s.phase[who.id].acc < |prog.tasks[who.id]|
    && r == prog.tasks[who.id][s.phase[who.id].acc].res < |s.nodes|
    && Pos(prog.tasks, who.id, r) < |s.nodes[r].modes| && th == Remover(Pos(prog.tasks, who.id, r))
  }

  lemma HistoriesStep(prog: Program, s: Sys, who: Agent)
    requires SysInv(prog, s) && HistoriesOk(s)
    ensures HistoriesOk(SysStep(prog, s, who))
  {
    var r, th := StepIsNodeStep(prog, s, who);
    if r < |s.nodes| {
      assert Inv(s.nodes[r]);
      HistoryStep(s.nodes[r], th);
    }
  }

  lemma {:induction false} HistoriesRun(prog: Program, s: Sys, schedule: seq<Agent>)
    requires SysInv(prog, s) && HistoriesOk(s)
    ensures HistoriesOk(Run(prog, s, schedule))
    decreases |schedule|
  {
    if schedule != [] {
      HistoriesStep(prog, s, schedule[0]);
      SysStepInv(prog, s, schedule[0]);
      HistoriesRun(prog, SysStep(prog, s, schedule[0]), schedule[1..]);
    }
  }

  lemma QueuesStep(prog: Program, s: Sys, reading: CasReading, who: Agent)
    requires SysInv(prog, s) && QueuesOk(s) && ReadingIs(s, reading) && Orderly(reading, prog)
    ensures QueuesOk(SysStep(prog, s, who))
  {
    HistoriesStep(prog, s, who);
    var r, th := StepIsNodeStep(prog, s, who);
    if r < |s.nodes| && SysStep(prog, s, who).nodes != s.nodes {
      if th.Remover? {
        CriticalStartsAtHead(prog, s, reading, who.id, r, th.pos);
      }
      NeverWalksStep(s.nodes[r], th);
    }
  }

  lemma {:induction false} QueuesRun(prog: Program, s: Sys, reading: CasReading, schedule: seq<Agent>)
    requires SysInv(prog, s) && QueuesOk(s) && ReadingIs(s, reading) && Orderly(reading, prog)
    ensures QueuesOk(Run(prog, s, schedule))
    decreases |schedule|
  {
    if schedule != [] {
      QueuesStep(prog, s, reading, schedule[0]);
      SysStepInv(prog, s, schedule[0]);
      RunReading(prog, s, [schedule[0]], reading);
      assert Run(prog, s, [schedule[0]]) == SysStep(prog, s, schedule[0]);
      QueuesRun(prog, SysStep(prog, s, schedule[0]), reading, schedule[1..]);
    }
  }

  lemma StartHistories(prog: Program, reading: CasReading, capacity: nat)
    requires Valid(prog) && |prog.tasks| < capacity
    ensures HistoriesOk(Start(prog, reading, capacity))
  {
    forall r: nat | r < prog.resources
      ensures History(Init(reading, Modes(prog, r), capacity))
    {
      InitHistory(reading, Modes(prog, r), capacity);
    }
  }

  lemma StartQueues(prog: Program, reading: CasReading, capacity: nat)
    requires Valid(prog) && |prog.tasks| < capacity
    ensures QueuesOk(Start(prog, reading, capacity)) && ReadingIs(Start(prog, reading, capacity), reading)
  {
    StartHistories(prog, reading, capacity);
  }

  // ----- finishing -----

  /** In an orderly program whoever can no longer move has finished. */
  lemma OrderlyFinishes(prog: Program, reading: CasReading, capacity: nat, schedule: seq<Agent>)
    requires Valid(prog) && |prog.tasks| < capacity && Orderly(reading, prog)
    ensures
      var s := Run(prog, Start(prog, reading, capacity), schedule);
      NobodyMoves(prog, s) ==> AllFinished(prog, s)
  {
    var s0 := Start(prog, reading, capacity);
    var s := Run(prog, s0, schedule);
    StartInv(prog, reading, capacity);
    StartQueues(prog, reading, capacity);
    RunInv(prog, s0, schedule);
    QueuesRun(prog, s0, reading, schedule);
    if NobodyMoves(prog, s) {
      assert !CanMove(prog, s, Dispatcher);
      if t :| 0 <= t < |prog.tasks| && !s.phase[t].Finished? {
        var r := StuckIsUnhealthy(prog, s, t);
        assert Inv(s.nodes[r]);
        UnhealthyNeedsWalker(s.nodes[r]);
      }
    }
  }
}
