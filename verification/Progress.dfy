/** Every move of every thread uses up a measure, and a scheduler that can no longer move has finished,
    unless a wake-up was lost. */
module Progress {
  import opened Access
  import opened NodeMachine
  import opened NodeInvariant
  import opened NodeTheorems
  import opened Program
  import opened System
  import opened SystemInvariant
  import opened SerialEquivalence

  // ----- inside one queue -----

  function Left(n: nat, i: nat): nat {
    if i <= n then n - i else 0
  }

  /** Steps a remover still has, on a queue of n registrations. */
  function RemRank(n: nat, pc: RemPc): nat {
    match pc
    case NotStarted => 9 * n + 10
    case HeadInc => 8 * n + 7
    case WalkLoad(cur) => 8 * n + 9 + Left(n, cur)
    case Walk(cur, _) => 8 * n + 8 + Left(n, cur)
    case WalkCas => 8 * n + 7
    case Check(cur, _) => 8 * Left(n, cur) + 6
    case CheckFnr(cur, _) => 8 * Left(n, cur) + 5
    case AdvanceCas(cur, _) => 8 * Left(n, cur) + 4
    case GrantFnr(cur) => 4 * Left(n, cur) + 3
    case GrantLast(cur, _) => 4 * Left(n, cur) + 2
    case GrantCas(pos) => 4 * Left(n, pos) + 1
    case Wake(pos) => 4 * Left(n, pos)
    case Recheck(_, pos, _) => 4 * Left(n, pos) + 3
    case LoopLast(_, pos, _) => 4 * Left(n, pos) + 2
    case LoopCas(_, pos, _) => 4 * Left(n, pos) + 1
    case WakeNext(_, pos, _) => 4 * Left(n, pos)
    case Done => 0
  }

  function AddRank(pc: AddPc): nat {
    match pc
    case AddIdle => 6
    case AddStored(_) => 5
    case AddPublished(_) => 4
    case AddCheckFirst(_) => 3
    case AddCas(_) => 2
    case AddNotify(_) => 1
  }

  lemma WalkingMoves(s: Node, p: nat)
    requires Shape(s) && p < |s.modes| && RemOk(s, p) && Marked(s) && Notified(s) && AsWrittenOk(s) && s.notified[p]
    requires var pc := s.rem[p]; pc.NotStarted? || pc.HeadInc? || pc.WalkLoad? || pc.Walk? || pc.WalkCas?
    ensures RemRank(|s.modes|, RemStep(s, p).rem[p]) < RemRank(|s.modes|, s.rem[p])
  {
  }

  lemma ClearingMoves(s: Node, p: nat)
    requires Shape(s) && p < |s.modes| && RemOk(s, p) && Marked(s) && Notified(s) && AsWrittenOk(s) && s.notified[p]
    requires
      var pc := s.rem[p];
      pc.Check? || pc.CheckFnr? || pc.AdvanceCas? || pc.GrantFnr? || pc.GrantLast? || pc.GrantCas?
    ensures RemRank(|s.modes|, RemStep(s, p).rem[p]) < RemRank(|s.modes|, s.rem[p])
  {
  }

  lemma GrantingMoves(s: Node, p: nat)
    requires Shape(s) && p < |s.modes| && RemOk(s, p) && Marked(s) && Notified(s) && AsWrittenOk(s) && s.notified[p]
    requires var pc := s.rem[p]; pc.Wake? || pc.LoopLast? || pc.LoopCas? || pc.WakeNext? || pc.Recheck?
    ensures RemRank(|s.modes|, RemStep(s, p).rem[p]) < RemRank(|s.modes|, s.rem[p])
  {
  }

  lemma RemoverMoves(s: Node, p: nat)
    requires Inv(s) && p < |s.modes| && s.notified[p] && !s.rem[p].Done?
    ensures RemRank(|s.modes|, RemStep(s, p).rem[p]) < RemRank(|s.modes|, s.rem[p])
  {
    assert RemOk(s, p);
    var pc := s.rem[p];
    if pc.NotStarted? || pc.HeadInc? || pc.WalkLoad? || pc.Walk? || pc.WalkCas? {
      WalkingMoves(s, p);
    } else if pc.Wake? || pc.LoopLast? || pc.LoopCas? || pc.WakeNext? || pc.Recheck? {
      GrantingMoves(s, p);
    } else {
      ClearingMoves(s, p);
    }
  }

  lemma AdderMoves(s: Node)
    requires Inv(s) && (s.adder.AddIdle? ==> s.last < |s.modes|)
    ensures
      var s' := AddStep(s);
      s'.adder == AddIdle || AddRank(s'.adder) < AddRank(s.adder)
    ensures s.adder.AddIdle? ==> AddStep(s).adder != AddIdle
  {
  }

  // ----- the whole scheduler -----

  /** Moves of the dispatcher from task i on. */
  function Rest(prog: Program, i: nat): nat
    decreases |prog.tasks| - i
  {
    if i >= |prog.tasks| then 0 else 10 * |prog.tasks[i]| + 10 + Rest(prog, i + 1)
  }

  function DispatchRank(prog: Program, s: Sys): nat
    requires Fits(prog, s)
  {
    if s.task >= |prog.tasks| then 0 else
    match s.stage
    case Count => Rest(prog, s.task)
    case Another(j) => Rest(prog, s.task + 1) + 10 * Left(|prog.tasks[s.task]|, j) + 8
    case Register(j) =>
      var accs := prog.tasks[s.task];
      Rest(prog, s.task + 1) +
      if j < |accs| && accs[j].res < |s.nodes|
      then 10 * (|accs| - j) + AddRank(s.nodes[accs[j].res].adder)
      else 1
  }

  /** More than any one remove_task call takes. */
  function CallCost(prog: Program): nat {
    10 * |prog.tasks| + 20
  }

  /** k calls' worth of steps. */
  function Calls(prog: Program, k: nat): nat {
    if k == 0 then 0 else Calls(prog, k - 1) + CallCost(prog)
  }

  function TaskRank(prog: Program, s: Sys, t: nat): nat
    requires Fits(prog, s) && t < |prog.tasks|
  {
    var accs := prog.tasks[t];
    var len := |accs|;
    match s.phase[t]
    case Waiting => Calls(prog, len + 1) + 2 * len + 7
    case Reading(j) => Calls(prog, len + 1) + len + 5 + Left(len, j)
    case Writing(j) => Calls(prog, len + 1) + 2 + Left(len, j)
    case Removing(j) =>
      Calls(prog, Left(len, j)) + 1 +
      (if j < len && accs[j].res < |s.nodes| && Pos(prog.tasks, t, accs[j].res) < |s.nodes[accs[j].res].rem|
       then RemRank(|s.nodes[accs[j].res].modes|, s.nodes[accs[j].res].rem[Pos(prog.tasks, t, accs[j].res)])
       else 0)
    case Finished => 0
  }

  function TaskRanks(prog: Program, s: Sys, k: nat): nat
    requires Fits(prog, s) && k <= |prog.tasks|
  {
    if k == 0 then 0 else TaskRanks(prog, s, k - 1) + TaskRank(prog, s, k - 1)
  }

  function Measure(prog: Program, s: Sys): nat
    requires Fits(prog, s)
  {
    DispatchRank(prog, s) + TaskRanks(prog, s, |prog.tasks|)
  }

  predicate CanMove(prog: Program, s: Sys, who: Agent)
    requires Fits(prog, s)
  {
    match who
    case Dispatcher => s.task < |prog.tasks|
    case Task(t) => t < |prog.tasks| && !s.phase[t].Finished? && (s.phase[t].Waiting? ==> s.launches[t] > 0)
  }

  lemma {:induction false} SameRanks(prog: Program, s: Sys, s': Sys, k: nat)
    requires Fits(prog, s) && Fits(prog, s') && k <= |prog.tasks|
    requires forall t :: 0 <= t < k ==> TaskRank(prog, s', t) == TaskRank(prog, s, t)
    ensures TaskRanks(prog, s', k) == TaskRanks(prog, s, k)
  {
    if k > 0 {
      SameRanks(prog, s, s', k - 1);
    }
  }

  lemma {:induction false} OneRankLess(prog: Program, s: Sys, s': Sys, k: nat, t: nat)
    requires Fits(prog, s) && Fits(prog, s') && t < k <= |prog.tasks|
    requires TaskRank(prog, s', t) < TaskRank(prog, s, t)
    requires forall u :: 0 <= u < k && u != t ==> TaskRank(prog, s', u) == TaskRank(prog, s, u)
    ensures TaskRanks(prog, s', k) < TaskRanks(prog, s, k)
  {
    if k - 1 == t {
      SameRanks(prog, s, s', k - 1);
    } else {
      OneRankLess(prog, s, s', k - 1, t);
    }
  }

  lemma RankIsBelowCall(prog: Program, s: Sys, r: nat, p: nat)
    requires Ok(prog, s) && r < |s.nodes| && p < |s.nodes[r].rem| && s.nodes[r].rem[p].NotStarted?
    ensures RemRank(|s.nodes[r].modes|, s.nodes[r].rem[p]) < CallCost(prog)
  {
    assert |Modes(prog, r)| <= |prog.tasks|;
  }

  // -- the dispatcher --

  /** The adder of this node moves. */
  predicate AdderAdvances(s: Node)
    requires Sized(s)
  {
    && (AddStep(s).adder == AddIdle || AddRank(AddStep(s).adder) < AddRank(s.adder))
    && (s.adder.AddIdle? ==> AddStep(s).adder != AddIdle)
  }

  lemma RegisterRank(prog: Program, s: Sys)
    requires Ok(prog, s) && s.task < |prog.tasks| && s.stage.Register? && s.stage.acc < |prog.tasks[s.task]|
    requires AdderAdvances(s.nodes[prog.tasks[s.task][s.stage.acc].res])
    ensures DispatchRank(prog, DispatchStep(prog, s)) < DispatchRank(prog, s)
  {
    var r := RegisterStep(prog, s);
  }

  lemma DispatcherMoves(prog: Program, s: Sys)
    requires Ok(prog, s) && NodesOk(s) && AddersOk(prog, s) && s.task < |prog.tasks|
    ensures DispatchRank(prog, DispatchStep(prog, s)) < DispatchRank(prog, s)
  {
    if s.stage.Register? && s.stage.acc < |prog.tasks[s.task]| {
      var r := RegisterStep(prog, s);
      assert AdderAt(prog, s, r);
      ModeAtPos(prog, s.task, s.stage.acc);
      AdderMoves(s.nodes[r]);
      RegisterRank(prog, s);
    }
  }

  lemma DispatcherKeepsRanks(prog: Program, s: Sys, t: nat)
    requires Ok(prog, s) && NodesOk(s) && s.task < |prog.tasks| && t < |prog.tasks|
    ensures TaskRank(prog, DispatchStep(prog, s), t) == TaskRank(prog, s, t)
  {
    if s.stage.Register? && s.stage.acc < |prog.tasks[s.task]| {
      var r := RegisterStep(prog, s);
      assert Inv(s.nodes[r]);
      AdderFrame(s.nodes[r]);
    }
    SameCalls(prog, s, DispatchStep(prog, s), t);
  }

  lemma SameCalls(prog: Program, s: Sys, s': Sys, t: nat)
    requires Fits(prog, s) && Fits(prog, s') && t < |prog.tasks| && s'.phase == s.phase
    requires forall r :: 0 <= r < |s.nodes| ==> s'.nodes[r].rem == s.nodes[r].rem
    ensures TaskRank(prog, s', t) == TaskRank(prog, s, t)
  {
  }

  // -- a task --

  lemma WorkMoves(prog: Program, s: Sys, t: nat)
    requires Ok(prog, s) && PhasesOk(prog, s) && CanMove(prog, s, Task(t))
    requires !(s.phase[t].Removing? && s.phase[t].acc < |prog.tasks[t]|)
    ensures TaskRank(prog, TaskStep(prog, s, t), t) < TaskRank(prog, s, t)
  {
    assert PhaseOk(prog, s, t);
    if s.phase[t].Writing? && s.phase[t].acc >= |prog.tasks[t]| && |prog.tasks[t]| > 0 {
      assert RemAt(prog, s, t, 0);
      RankIsBelowCall(prog, s, prog.tasks[t][0].res, Pos(prog.tasks, t, prog.tasks[t][0].res));
    }
  }

  lemma CallMoves(prog: Program, s: Sys, t: nat) returns (r: nat, p: nat)
    requires SysInv(prog, s) && t < |prog.tasks| && s.phase[t].Removing? && s.phase[t].acc < |prog.tasks[t]|
    ensures r == prog.tasks[t][s.phase[t].acc].res < |s.nodes| && p == Pos(prog.tasks, t, r) < |s.nodes[r].modes|
    ensures
      var n := s.nodes[r];
      RemRank(|n.modes|, RemStep(n, p).rem[p]) < RemRank(|n.modes|, n.rem[p])
  {
    var k := s.phase[t].acc;
    r, p := RemoveStep(prog, s, t);
    assert PhaseOk(prog, s, t) && RemAt(prog, s, t, k) && Inv(s.nodes[r]);
    LaunchedIsGranted(prog, s, t, k);
    RemoverMoves(s.nodes[r], p);
  }

  lemma CallContinues(prog: Program, s: Sys, t: nat, r: nat, p: nat)
    requires Ok(prog, s) && t < |prog.tasks| && s.phase[t].Removing? && s.phase[t].acc < |prog.tasks[t]|
    requires r == prog.tasks[t][s.phase[t].acc].res < |s.nodes| && p == Pos(prog.tasks, t, r) < |s.nodes[r].modes|
    requires
      var n := s.nodes[r];
      && RemStep(n, p).rem[p] != Done
      && RemRank(|n.modes|, RemStep(n, p).rem[p]) < RemRank(|n.modes|, n.rem[p])
    ensures TaskRank(prog, TaskStep(prog, s, t), t) < TaskRank(prog, s, t)
  {
    var r1, p1 := RemoveStep(prog, s, t);
  }

  lemma CallEnds(prog: Program, s: Sys, t: nat, r: nat, p: nat)
    requires Ok(prog, s) && t < |prog.tasks| && s.phase[t].Removing? && s.phase[t].acc < |prog.tasks[t]|
    requires r == prog.tasks[t][s.phase[t].acc].res < |s.nodes| && p == Pos(prog.tasks, t, r) < |s.nodes[r].modes|
    requires RemStep(s.nodes[r], p).rem[p] == Done
    requires s.phase[t].acc + 1 < |prog.tasks[t]| ==> RemAt(prog, s, t, s.phase[t].acc + 1)
    ensures
      var s' := TaskStep(prog, s, t);
      && s'.phase[t] == Removing(s.phase[t].acc + 1)
      && TaskRank(prog, s', t) < Calls(prog, Left(|prog.tasks[t]|, s.phase[t].acc + 1)) + CallCost(prog) + 1
  {
    var r1, p1 := RemoveStep(prog, s, t);
    if s.phase[t].acc + 1 < |prog.tasks[t]| {
      RemoveNextRank(prog, s, t);
    }
  }

  lemma CallLowerBound(prog: Program, s: Sys, t: nat)
    requires Ok(prog, s) && t < |prog.tasks| && s.phase[t].Removing? && s.phase[t].acc < |prog.tasks[t]|
    ensures Calls(prog, Left(|prog.tasks[t]|, s.phase[t].acc + 1)) + CallCost(prog) + 1 <= TaskRank(prog, s, t)
  {
  }

  lemma CallRank(prog: Program, s: Sys, t: nat, r: nat, p: nat)
    requires Ok(prog, s) && t < |prog.tasks| && s.phase[t].Removing? && s.phase[t].acc < |prog.tasks[t]|
    requires r == prog.tasks[t][s.phase[t].acc].res < |s.nodes| && p == Pos(prog.tasks, t, r) < |s.nodes[r].modes|
    requires
      var n := s.nodes[r];
      RemRank(|n.modes|, RemStep(n, p).rem[p]) < RemRank(|n.modes|, n.rem[p])
    requires s.phase[t].acc + 1 < |prog.tasks[t]| ==> RemAt(prog, s, t, s.phase[t].acc + 1)
    ensures TaskRank(prog, TaskStep(prog, s, t), t) < TaskRank(prog, s, t)
  {
    if RemStep(s.nodes[r], p).rem[p] == Done {
      CallEnds(prog, s, t, r, p);
      CallLowerBound(prog, s, t);
    } else {
      CallContinues(prog, s, t, r, p);
    }
  }

  lemma RemoveMoves(prog: Program, s: Sys, t: nat)
    requires SysInv(prog, s) && t < |prog.tasks| && s.phase[t].Removing? && s.phase[t].acc < |prog.tasks[t]|
    ensures TaskRank(prog, TaskStep(prog, s, t), t) < TaskRank(prog, s, t)
  {
    var r, p := CallMoves(prog, s, t);
    assert PhaseOk(prog, s, t);
    CallRank(prog, s, t, r, p);
  }

  /** When a task turns to its next queue, that call has not started. */
  lemma RemoveNextRank(prog: Program, s: Sys, t: nat)
    requires Ok(prog, s) && t < |prog.tasks| && s.phase[t].Removing? && s.phase[t].acc + 1 < |prog.tasks[t]|
    requires RemAt(prog, s, t, s.phase[t].acc + 1)
    ensures
      var s' := TaskStep(prog, s, t);
      var r := prog.tasks[t][s.phase[t].acc + 1].res;
      var p := Pos(prog.tasks, t, r);
      && r < |s'.nodes| && p < |s'.nodes[r].rem| && RemRank(|s'.nodes[r].modes|, s'.nodes[r].rem[p]) < CallCost(prog)
  {
    var k := s.phase[t].acc;
    var r, p := RemoveStep(prog, s, t);
    IndexOfAccess(prog.tasks[t], k);
    IndexOfAccess(prog.tasks[t], k + 1);
    var r1 := prog.tasks[t][k + 1].res;
    RankIsBelowCall(prog, s, r1, Pos(prog.tasks, t, r1));
  }

  /** A step of task t inside a queue leaves the other tasks' program counters there alone. */
  lemma TaskKeepsCalls(prog: Program, s: Sys, t: nat, u: nat, i: nat)
    requires Ok(prog, s) && t < |prog.tasks| && u < |prog.tasks| && u != t && i < |prog.tasks[u]|
    ensures
      var s' := TaskStep(prog, s, t);
      var r := prog.tasks[u][i].res;
      var p := Pos(prog.tasks, u, r);
      r < |s.nodes| && p < |s.nodes[r].rem| && s'.nodes[r].rem[p] == s.nodes[r].rem[p]
  {
    ModeAtPos(prog, u, i);
    if s.phase[t].Removing? && s.phase[t].acc < |prog.tasks[t]| {
      var r, p := RemoveStep(prog, s, t);
      RemoverFrame(s.nodes[r], p);
      if prog.tasks[u][i].res == r {
        OtherPosition(prog, r, t, s.phase[t].acc, u, i);
      }
    }
  }

  lemma TaskKeepsPhase(prog: Program, s: Sys, t: nat, u: nat)
    requires Ok(prog, s) && t < |prog.tasks| && u < |prog.tasks| && u != t
    ensures TaskStep(prog, s, t).phase[u] == s.phase[u]
  {
  }

  lemma TaskKeepsOthers(prog: Program, s: Sys, t: nat, u: nat)
    requires Ok(prog, s) && t < |prog.tasks| && u < |prog.tasks| && u != t
    ensures TaskRank(prog, TaskStep(prog, s, t), u) == TaskRank(prog, s, u)
  {
    var s' := TaskStep(prog, s, t);
    TaskKeepsPhase(prog, s, t, u);
    if s.phase[u].Removing? && s.phase[u].acc < |prog.tasks[u]| {
      TaskKeepsCalls(prog, s, t, u, s.phase[u].acc);
    }
  }

  lemma SameAdders(prog: Program, s: Sys, s': Sys)
    requires Fits(prog, s) && Fits(prog, s') && s'.task == s.task && s'.stage == s.stage
    requires forall r :: 0 <= r < |s.nodes| ==> s'.nodes[r].adder == s.nodes[r].adder
    ensures DispatchRank(prog, s') == DispatchRank(prog, s)
  {
  }

  lemma TaskKeepsDispatcher(prog: Program, s: Sys, t: nat)
    requires Ok(prog, s) && t < |prog.tasks|
    ensures DispatchRank(prog, TaskStep(prog, s, t)) == DispatchRank(prog, s)
  {
    if s.phase[t].Removing? && s.phase[t].acc < |prog.tasks[t]| {
      var r, p := RemoveStep(prog, s, t);
      RemoverFrame(s.nodes[r], p);
    }
    SameAdders(prog, s, TaskStep(prog, s, t));
  }

  /** Every move uses up the measure; a thread that cannot move leaves the state alone. */
  lemma MoveDecreases(prog: Program, s: Sys, who: Agent)
    requires SysInv(prog, s)
    ensures CanMove(prog, s, who) ==> Measure(prog, SysStep(prog, s, who)) < Measure(prog, s)
    ensures !CanMove(prog, s, who) ==> SysStep(prog, s, who) == s
  {
    if CanMove(prog, s, who) {
      match who
      case Dispatcher =>
        DispatcherMoves(prog, s);
        forall t | 0 <= t < |prog.tasks| ensures TaskRank(prog, DispatchStep(prog, s), t) == TaskRank(prog, s, t) {
          DispatcherKeepsRanks(prog, s, t);
        }
        SameRanks(prog, s, DispatchStep(prog, s), |prog.tasks|);
      case Task(t) =>
        if s.phase[t].Removing? && s.phase[t].acc < |prog.tasks[t]| {
          RemoveMoves(prog, s, t);
        } else {
          WorkMoves(prog, s, t);
        }
        TaskKeepsDispatcher(prog, s, t);
        forall u | 0 <= u < |prog.tasks| && u != t
          ensures TaskRank(prog, TaskStep(prog, s, t), u) == TaskRank(prog, s, u)
        {
          TaskKeepsOthers(prog, s, t, u);
        }
        OneRankLess(prog, s, TaskStep(prog, s, t), |prog.tasks|, t);
    }
  }

  // ----- when nobody can move -----

  ghost predicate NobodyMoves(prog: Program, s: Sys)
    requires Fits(prog, s)
  {
    forall who :: !CanMove(prog, s, who)
  }

  /** When nobody can move, no call is in flight in any queue and every registration has been made. */
  lemma StuckIsQuiescent(prog: Program, s: Sys, r: nat)
    requires SysInv(prog, s) && NobodyMoves(prog, s) && r < |s.nodes|
    ensures Quiescent(s.nodes[r]) && s.nodes[r].last == |s.nodes[r].modes|
  {
    assert !CanMove(prog, s, Dispatcher);
    assert AdderAt(prog, s, r);
    var n := s.nodes[r];
    forall p | 0 <= p < |n.rem| ensures n.rem[p].NotStarted? || n.rem[p].Done? {
      var t := Users(prog.tasks, r, |prog.tasks|)[p];
      PositionIsPos(prog.tasks, p, r, |prog.tasks|);
      assert !CanMove(prog, s, Task(t));
      assert PhaseOk(prog, s, t);
      assert RemAt(prog, s, t, Index(prog.tasks[t], r));
    }
  }

  /** A queue that holds back task t after everything below t has finished is not healthy. */
  lemma BlockedIsUnhealthy(prog: Program, s: Sys, t: nat, j: nat)
    requires SysInv(prog, s) && t < |prog.tasks| && j < |prog.tasks[t]|
    requires forall u :: 0 <= u < t ==> s.phase[u].Finished?
    requires
      var r := prog.tasks[t][j].res;
      && r < |s.nodes| && Quiescent(s.nodes[r]) && s.nodes[r].last == |s.nodes[r].modes|
    requires !IsNotified(prog, s.nodes, t, j)
    ensures !Healthy(s.nodes[prog.tasks[t][j].res])
    ensures s.nodes[prog.tasks[t][j].res].fnr < s.nodes[prog.tasks[t][j].res].last
  {
    var r := prog.tasks[t][j].res;
    var n := s.nodes[r];
    var p := Pos(prog.tasks, t, r);
    assert Inv(n);
    ModeAtPos(prog, t, j);
    IndexOfAccess(prog.tasks[t], j);
    PosIsPosition(prog.tasks, t, r, |prog.tasks|);
    QuiescentNotified(n);
    assert n.fnr <= p;
    if n.first < n.fnr {
      var u := Users(prog.tasks, r, |prog.tasks|)[n.first];
      PositionIsPos(prog.tasks, n.first, r, |prog.tasks|);
      assert u < t;
      assert PhaseOk(prog, s, u);
      assert RemAt(prog, s, u, Index(prog.tasks[u], r));
      assert RemOk(n, n.first);
    }
  }

  /** If nobody can move and some task has not finished, then some queue lost a wake-up. */
  lemma StuckIsUnhealthy(prog: Program, s: Sys, t: nat) returns (r: nat)
    requires SysInv(prog, s) && NobodyMoves(prog, s) && t < |prog.tasks| && !s.phase[t].Finished?
    ensures r < |s.nodes| && Quiescent(s.nodes[r]) && !Healthy(s.nodes[r]) && s.nodes[r].fnr < s.nodes[r].last
    decreases t
  {
    if u :| 0 <= u < t && !s.phase[u].Finished? {
      r := StuckIsUnhealthy(prog, s, u);
    } else {
      assert !CanMove(prog, s, Task(t)) && !CanMove(prog, s, Dispatcher);
      assert CounterOk(prog, s, t);
      NothingPending(prog, s.nodes, t, |prog.tasks[t]|);
      var j :| 0 <= j < |prog.tasks[t]| && !IsNotified(prog, s.nodes, t, j);
      r := prog.tasks[t][j].res;
      StuckIsQuiescent(prog, s, r);
      BlockedIsUnhealthy(prog, s, t, j);
    }
  }

  // ----- finishing -----

  /** The reading of the CAS is a constant of the run. */
  lemma {:induction false} RunReading(prog: Program, s: Sys, schedule: seq<Agent>, reading: CasReading)
    requires Fits(prog, s) && forall r :: 0 <= r < |s.nodes| ==> s.nodes[r].reading == reading
    ensures forall r :: 0 <= r < |Run(prog, s, schedule).nodes| ==> Run(prog, s, schedule).nodes[r].reading == reading
    decreases |schedule|
  {
    if schedule != [] {
      RunReading(prog, SysStep(prog, s, schedule[0]), schedule[1..], reading);
    }
  }

  lemma FinishedLeavesNothingWaiting(prog: Program, s: Sys, r: nat)
    requires SysInv(prog, s) && NobodyMoves(prog, s) && AllFinished(prog, s) && r < |s.nodes|
    ensures s.nodes[r].fnr == s.nodes[r].last
  {
    var n := s.nodes[r];
    assert Inv(n);
    StuckIsQuiescent(prog, s, r);
    forall p | 0 <= p < |n.rem| ensures n.rem[p].Done? {
      var t := Users(prog.tasks, r, |prog.tasks|)[p];
      PositionIsPos(prog.tasks, p, r, |prog.tasks|);
      assert PhaseOk(prog, s, t);
      assert RemAt(prog, s, t, Index(prog.tasks[t], r));
    }
    if |n.rem| > 0 { assert n.rem[|n.rem| - 1].Done?; }
  }

  /** How many steps of a schedule are moves. */
  function Moves(prog: Program, s: Sys, schedule: seq<Agent>): nat
    requires Fits(prog, s)
    decreases |schedule|
  {
    if schedule == [] then 0
    else (if CanMove(prog, s, schedule[0]) then 1 else 0) + Moves(prog, SysStep(prog, s, schedule[0]), schedule[1..])
  }

  lemma {:induction false} MovesAreBounded(prog: Program, s: Sys, schedule: seq<Agent>)
    requires SysInv(prog, s)
    ensures Moves(prog, s, schedule) + Measure(prog, Run(prog, s, schedule)) <= Measure(prog, s)
    decreases |schedule|
  {
    if schedule != [] {
      MoveDecreases(prog, s, schedule[0]);
      SysStepInv(prog, s, schedule[0]);
      MovesAreBounded(prog, SysStep(prog, s, schedule[0]), schedule[1..]);
    }
  }

  // ----- launching -----

  /** At every moment of every run: no wait counter has wrapped; a task is launched at most once, and it has been
      launched exactly when its registration is complete and every queue has granted and notified it; a
      task that has started was launched. */
  lemma LaunchedExactlyOnce(prog: Program, reading: CasReading, capacity: nat, schedule: seq<Agent>, t: nat)
    requires Valid(prog) && |prog.tasks| < capacity && t < |prog.tasks|
    ensures
      var s := Run(prog, Start(prog, reading, capacity), schedule);
      && 0 <= s.counter[t] < INVALID_WAIT_STATE + 0x1_0000
      && s.launches[t] <= 1
      && (s.launches[t] == 1 <==>
           t < s.task && forall j :: 0 <= j < |prog.tasks[t]| ==> IsNotified(prog, s.nodes, t, j))
      && (!s.phase[t].Waiting? ==> s.launches[t] == 1)
      && (t > s.task ==> s.counter[t] == INVALID_WAIT_STATE)
      && (t == s.task ==> s.counter[t] == INVALID_WAIT_STATE + Pending(prog, s, t) - Uncounted(prog, s))
      && (t < s.task ==> s.counter[t] == Pending(prog, s, t))
  {
    var s0 := Start(prog, reading, capacity);
    var s := Run(prog, s0, schedule);
    StartInv(prog, reading, capacity);
    RunInv(prog, s0, schedule);
    assert CounterOk(prog, s, t) && PhaseOk(prog, s, t);
    NothingPending(prog, s.nodes, t, |prog.tasks[t]|);
  }
}
