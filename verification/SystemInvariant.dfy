/** What every step of the scheduler keeps: the queues' own invariants, where registration has got to,
    the value of every wait counter, and where every task is in leaving its queues. */
module SystemInvariant {
  import opened Access
  import opened NodeMachine
  import opened NodeInvariant
  import opened Options
  import opened Program
  import opened System

  ghost predicate Ok(prog: Program, s: Sys) {
    Valid(prog) && Fits(prog, s)
  }

  ghost predicate NodesOk(s: Sys) {
    forall r :: 0 <= r < |s.nodes| ==> Inv(s.nodes[r])
  }

  // ----- registration -----

  /** The dispatcher is inside add_task of queue r. */
  ghost predicate AtNode(prog: Program, s: Sys, r: nat)
    requires Fits(prog, s)
  {
    && s.task < |prog.tasks| && s.stage.Register?
    && s.stage.acc < |prog.tasks[s.task]| && prog.tasks[s.task][s.stage.acc].res == r
  }

  /** How many registrations queue r has completed. */
  ghost function Registered(prog: Program, s: Sys, r: nat): nat
    requires Fits(prog, s)
  {
    Pos(prog.tasks, s.task, r) +
    if s.task < |prog.tasks| && !s.stage.Count? && Uses(prog.tasks[s.task], r)
       && Index(prog.tasks[s.task], r) < s.stage.acc then 1 else 0
  }

  ghost predicate AdderAt(prog: Program, s: Sys, r: nat)
    requires Fits(prog, s) && r < |s.nodes|
  {
    var n := s.nodes[r];
    if AtNode(prog, s, r)
    then n.last == Pos(prog.tasks, s.task, r) + if n.adder.AddIdle? || n.adder.AddStored? then 0 else 1
    else n.adder == AddIdle && n.last == Registered(prog, s, r)
  }

  ghost predicate AddersOk(prog: Program, s: Sys)
    requires Fits(prog, s)
  {
    forall r :: 0 <= r < |s.nodes| ==> AdderAt(prog, s, r)
  }

  // ----- wait counters -----

  ghost predicate IsNotified(prog: Program, nodes: seq<Node>, t: nat, j: nat)
    requires t < |prog.tasks| && j < |prog.tasks[t]|
  {
    var r := prog.tasks[t][j].res;
    var p := Pos(prog.tasks, t, r);
    r < |nodes| && p < |nodes[r].notified| && nodes[r].notified[p]
  }

  /** Among the first k accesses of task t, those whose queue has not yet decremented t's counter. */
  ghost function Unnotified(prog: Program, nodes: seq<Node>, t: nat, k: nat): (u: nat)
    requires t < |prog.tasks| && k <= |prog.tasks[t]|
    ensures u <= k
  {
    if k == 0 then 0
    else Unnotified(prog, nodes, t, k - 1) + if IsNotified(prog, nodes, t, k - 1) then 0 else 1
  }

  ghost function Pending(prog: Program, s: Sys, t: nat): nat
    requires t < |prog.tasks|
  {
    Unnotified(prog, s.nodes, t, |prog.tasks[t]|)
  }

  /** The registrations of the task being dispatched that have not been added to its wait counter yet. */
  function Uncounted(prog: Program, s: Sys): nat
    requires s.task < |prog.tasks|
  {
    var n := |prog.tasks[s.task]|;
    if s.stage.Count? then n
    else if s.task in prog.barriers && s.stage.acc < n then n - s.stage.acc - (if s.stage.Register? then 1 else 0)
    else 0
  }

  ghost predicate CounterOk(prog: Program, s: Sys, t: nat)
    requires Fits(prog, s) && t < |prog.tasks|
  {
    if t > s.task || (t == s.task && s.stage == Count) then
      s.counter[t] == INVALID_WAIT_STATE && s.launches[t] == 0 && Pending(prog, s, t) == |prog.tasks[t]|
    else if t == s.task then
      && s.counter[t] == INVALID_WAIT_STATE + Pending(prog, s, t) - Uncounted(prog, s) && s.launches[t] == 0
      && (s.stage.Another? ==> t in prog.barriers && s.stage.acc < |prog.tasks[t]|)
    else
      && s.counter[t] == Pending(prog, s, t)
      && s.launches[t] == if Pending(prog, s, t) == 0 then 1 else 0
  }

  ghost predicate CountersOk(prog: Program, s: Sys)
    requires Fits(prog, s)
  {
    forall t :: 0 <= t < |prog.tasks| ==> CounterOk(prog, s, t)
  }

  // ----- leaving the queues -----

  ghost predicate RemAt(prog: Program, s: Sys, t: nat, j: nat)
    requires Fits(prog, s) && t < |prog.tasks| && j < |prog.tasks[t]|
  {
    var r := prog.tasks[t][j].res;
    var p := Pos(prog.tasks, t, r);
    && r < |s.nodes| && p < |s.nodes[r].rem|
    && var pc := s.nodes[r].rem[p];
       match s.phase[t]
       case Removing(k) => if j < k then pc == Done else if j == k then pc != Done else pc == NotStarted
       case Finished => pc == Done
       case _ => pc == NotStarted
  }

  ghost predicate PhaseOk(prog: Program, s: Sys, t: nat)
    requires Fits(prog, s) && t < |prog.tasks|
  {
    && (s.phase[t] != Waiting ==> s.launches[t] > 0)
    && forall j :: 0 <= j < |prog.tasks[t]| ==> RemAt(prog, s, t, j)
  }

  ghost predicate PhasesOk(prog: Program, s: Sys)
    requires Fits(prog, s)
  {
    forall t :: 0 <= t < |prog.tasks| ==> PhaseOk(prog, s, t)
  }

  ghost predicate SysInv(prog: Program, s: Sys) {
    Ok(prog, s) && NodesOk(s) && AddersOk(prog, s) && CountersOk(prog, s) && PhasesOk(prog, s)
  }

  // ----- counting -----

  lemma {:induction false} UnnotifiedSame(prog: Program, nodes: seq<Node>, nodes': seq<Node>, t: nat, k: nat)
    requires t < |prog.tasks| && k <= |prog.tasks[t]|
    requires forall j :: 0 <= j < k ==> IsNotified(prog, nodes, t, j) == IsNotified(prog, nodes', t, j)
    ensures Unnotified(prog, nodes, t, k) == Unnotified(prog, nodes', t, k)
  {
    if k > 0 {
      UnnotifiedSame(prog, nodes, nodes', t, k - 1);
    }
  }

  // The notifications of one task as a list of flags.

  ghost function Flags(prog: Program, nodes: seq<Node>, t: nat): (flags: seq<bool>)
    requires t < |prog.tasks|
    ensures |flags| == |prog.tasks[t]|
    ensures forall j :: 0 <= j < |flags| ==> flags[j] == IsNotified(prog, nodes, t, j)
  {
    seq(|prog.tasks[t]|, j requires 0 <= j < |prog.tasks[t]| => IsNotified(prog, nodes, t, j))
  }

  function Unset(flags: seq<bool>): nat {
    if flags == [] then 0 else Unset(flags[..|flags| - 1]) + if flags[|flags| - 1] then 0 else 1
  }

  lemma {:induction false} UnsetDrops(flags: seq<bool>, i: nat)
    requires i < |flags| && !flags[i]
    ensures Unset(flags[i := true]) == Unset(flags) - 1
  {
    var n := |flags| - 1;
    if i == n {
      assert flags[i := true][..n] == flags[..n];
    } else {
      assert flags[i := true][..n] == flags[..n][i := true];
      UnsetDrops(flags[..n], i);
    }
  }

  lemma {:induction false} UnnotifiedIsUnset(prog: Program, nodes: seq<Node>, t: nat, k: nat)
    requires t < |prog.tasks| && k <= |prog.tasks[t]|
    ensures Unnotified(prog, nodes, t, k) == Unset(Flags(prog, nodes, t)[..k])
  {
    if k > 0 {
      UnnotifiedIsUnset(prog, nodes, t, k - 1);
      assert Flags(prog, nodes, t)[..k][..k - 1] == Flags(prog, nodes, t)[..k - 1];
    }
  }

  lemma UnnotifiedDrops(prog: Program, nodes: seq<Node>, nodes': seq<Node>, t: nat, k: nat, i: nat)
    requires t < |prog.tasks| && i < k <= |prog.tasks[t]|
    requires !IsNotified(prog, nodes, t, i) && IsNotified(prog, nodes', t, i)
    requires forall j :: 0 <= j < k && j != i ==> IsNotified(prog, nodes, t, j) == IsNotified(prog, nodes', t, j)
    ensures Unnotified(prog, nodes', t, k) == Unnotified(prog, nodes, t, k) - 1
  {
    UnnotifiedIsUnset(prog, nodes, t, k);
    UnnotifiedIsUnset(prog, nodes', t, k);
    assert Flags(prog, nodes', t)[..k] == Flags(prog, nodes, t)[..k][i := true];
    UnsetDrops(Flags(prog, nodes, t)[..k], i);
  }

  lemma {:induction false} NothingPending(prog: Program, nodes: seq<Node>, t: nat, k: nat)
    requires t < |prog.tasks| && k <= |prog.tasks[t]|
    ensures Unnotified(prog, nodes, t, k) == 0 <==> forall j :: 0 <= j < k ==> IsNotified(prog, nodes, t, j)
  {
    if k > 0 {
      NothingPending(prog, nodes, t, k - 1);
      UnnotifiedLast(prog, nodes, t, k);
    }
  }

  lemma UnnotifiedLast(prog: Program, nodes: seq<Node>, t: nat, k: nat)
    requires t < |prog.tasks| && 0 < k <= |prog.tasks[t]|
    ensures Unnotified(prog, nodes, t, k) == 0 <==>
            Unnotified(prog, nodes, t, k - 1) == 0 && IsNotified(prog, nodes, t, k - 1)
  {
  }

  lemma {:induction false} AllPending(prog: Program, nodes: seq<Node>, t: nat, k: nat)
    requires t < |prog.tasks| && k <= |prog.tasks[t]|
    requires forall j :: 0 <= j < k ==> !IsNotified(prog, nodes, t, j)
    ensures Unnotified(prog, nodes, t, k) == k
  {
    if k > 0 {
      AllPending(prog, nodes, t, k - 1);
    }
  }

  // ----- the initial state -----

  lemma StartInv(prog: Program, reading: CasReading, capacity: nat)
    requires Valid(prog) && |prog.tasks| < capacity
    ensures SysInv(prog, Start(prog, reading, capacity))
  {
    var s := Start(prog, reading, capacity);
    forall r | 0 <= r < |s.nodes| ensures Inv(s.nodes[r]) {
      InitInv(reading, Modes(prog, r), capacity);
    }
    forall t | 0 <= t < |prog.tasks| ensures CounterOk(prog, s, t) {
      AllPending(prog, s.nodes, t, |prog.tasks[t]|);
    }
    forall t, j | 0 <= t < |prog.tasks| && 0 <= j < |prog.tasks[t]| ensures RemAt(prog, s, t, j) {
      ModeAtPos(prog, t, j);
    }
  }

  // ----- a step inside a queue -----

  /** A step of th in queue r changes notified only at its target. */
  lemma StepNotifies(s: Node, th: Thread)
    requires Inv(s)
    ensures
      match Target(s, th)
      case None => Step(s, th).notified == s.notified
      case Some(pos) => pos < s.fnr && !s.notified[pos] && Step(s, th).notified == s.notified[pos := true]
  {
    match th
    case Adder => AdderFrame(s);
    case Remover(p) => if p < |s.modes| { RemoverNotifies(s, p); }
  }

  lemma UsesAt(prog: Program, s: Sys, r: nat)
    requires Ok(prog, s)
    ensures AtNode(prog, s, r) ==> Uses(prog.tasks[s.task], r) && Index(prog.tasks[s.task], r) == s.stage.acc
  {
    if AtNode(prog, s, r) {
      IndexOfAccess(prog.tasks[s.task], s.stage.acc);
    }
  }

  /** The registrations a queue has received are those of the tasks dispatched before, and perhaps of the task being
      dispatched. */
  lemma LastIsReached(prog: Program, s: Sys, r: nat)
    requires Ok(prog, s) && r < |s.nodes| && AdderAt(prog, s, r)
    ensures
      var n, p := s.nodes[r], Pos(prog.tasks, s.task, r);
      || n.last <= p
      || (n.last == p + 1 && s.task < |prog.tasks| && !s.stage.Count? && Uses(prog.tasks[s.task], r))
    ensures
      var n := s.nodes[r];
      AtNode(prog, s, r) && !n.adder.AddIdle? && !n.adder.AddStored? ==> n.last == Pos(prog.tasks, s.task, r) + 1
  {
    UsesAt(prog, s, r);
  }

  lemma UserBelow(prog: Program, r: nat, pos: nat, k: nat)
    requires k <= |prog.tasks| && pos < |Users(prog.tasks, r, |prog.tasks|)|
    ensures pos < Pos(prog.tasks, k, r) ==> Users(prog.tasks, r, |prog.tasks|)[pos] < k
    ensures k < |prog.tasks| && Uses(prog.tasks[k], r) && pos == Pos(prog.tasks, k, r) ==>
              Users(prog.tasks, r, |prog.tasks|)[pos] == k
  {
    UsersPrefix(prog.tasks, r, k, |prog.tasks|);
    if k < |prog.tasks| && Uses(prog.tasks[k], r) {
      PosIsPosition(prog.tasks, k, r, |prog.tasks|);
    }
  }

  /** The task at a granted position of queue r has been reached by the dispatcher; if the adder granted it,
      it is the one being registered. */
  lemma GrantedUser(prog: Program, s: Sys, r: nat, pos: nat)
    requires Ok(prog, s) && r < |s.nodes| && AdderAt(prog, s, r) && Inv(s.nodes[r]) && pos < s.nodes[r].last
    ensures pos < |Users(prog.tasks, r, |prog.tasks|)|
    ensures
      var u := Users(prog.tasks, r, |prog.tasks|)[pos];
      && (u < s.task || (u == s.task && !s.stage.Count?))
      && (pos + 1 == s.nodes[r].last && AtNode(prog, s, r) && !s.nodes[r].adder.AddIdle? && !s.nodes[r].adder.AddStored?
          ==> u == s.task)
  {
    LastIsReached(prog, s, r);
    UsesAt(prog, s, r);
    UserBelow(prog, r, pos, s.task);
  }

  /** Access j of task t is notified after the step iff it was before or it is the step's target. */
  lemma NotifiedAfter(prog: Program, s: Sys, r: nat, th: Thread, t: nat, j: nat)
    requires Ok(prog, s) && r < |s.nodes| && Inv(s.nodes[r])
    requires t < |prog.tasks| && j < |prog.tasks[t]|
    ensures
      IsNotified(prog, StepNode(prog, s, r, th).nodes, t, j) <==>
        || IsNotified(prog, s.nodes, t, j)
        || (prog.tasks[t][j].res == r && Target(s.nodes[r], th) == Some(Pos(prog.tasks, t, r)))
  {
    StepNotifies(s.nodes[r], th);
    ModeAtPos(prog, t, j);
  }

  lemma OthersCounter(prog: Program, s: Sys, r: nat, th: Thread, t: nat)
    requires Ok(prog, s) && r < |s.nodes| && Inv(s.nodes[r]) && t < |prog.tasks| && CounterOk(prog, s, t)
    requires
      Target(s.nodes[r], th).Some? ==>
        var pos := Target(s.nodes[r], th).value;
        pos < |Users(prog.tasks, r, |prog.tasks|)| && Users(prog.tasks, r, |prog.tasks|)[pos] != t
    ensures CounterOk(prog, StepNode(prog, s, r, th), t)
  {
    var s' := StepNode(prog, s, r, th);
    var accs := prog.tasks[t];
    forall j | 0 <= j < |accs| ensures IsNotified(prog, s.nodes, t, j) == IsNotified(prog, s'.nodes, t, j) {
      NotifiedAfter(prog, s, r, th, t, j);
      IndexOfAccess(accs, j);
      if accs[j].res == r {
        PosIsPosition(prog.tasks, t, r, |prog.tasks|);
      }
    }
    UnnotifiedSame(prog, s.nodes, s'.nodes, t, |accs|);
  }

  /** The target's own counter: one pending decrement fewer, and a launch exactly when it was the last. */
  lemma TargetPending(prog: Program, s: Sys, r: nat, th: Thread, pos: nat)
    requires Ok(prog, s) && r < |s.nodes| && Inv(s.nodes[r]) && Target(s.nodes[r], th) == Some(pos)
    requires pos < |Users(prog.tasks, r, |prog.tasks|)|
    ensures
      var u := Users(prog.tasks, r, |prog.tasks|)[pos];
      Pending(prog, StepNode(prog, s, r, th), u) == Pending(prog, s, u) - 1
  {
    var s' := StepNode(prog, s, r, th);
    var u := Users(prog.tasks, r, |prog.tasks|)[pos];
    var accs := prog.tasks[u];
    var i := Index(accs, r);
    PositionIsPos(prog.tasks, pos, r, |prog.tasks|);
    StepNotifies(s.nodes[r], th);
    forall j | 0 <= j < |accs|
      ensures j == i ==> !IsNotified(prog, s.nodes, u, j) && IsNotified(prog, s'.nodes, u, j)
      ensures j != i ==> IsNotified(prog, s.nodes, u, j) == IsNotified(prog, s'.nodes, u, j)
    {
      NotifiedAfter(prog, s, r, th, u, j);
      IndexOfAccess(accs, j);
    }
    UnnotifiedDrops(prog, s.nodes, s'.nodes, u, |accs|, i);
  }

  lemma StepNodeEffect(prog: Program, s: Sys, r: nat, th: Thread, pos: nat)
    requires Ok(prog, s) && r < |s.nodes| && Target(s.nodes[r], th) == Some(pos)
    requires pos < |Users(prog.tasks, r, |prog.tasks|)|
    ensures
      var u := Users(prog.tasks, r, |prog.tasks|)[pos];
      var s' := StepNode(prog, s, r, th);
      && s'.counter[u] == (s.counter[u] - 1) % WORD
      && s'.launches[u] == s.launches[u] + (if th.Remover? && s.counter[u] == 1 then 1 else 0)
      && s'.task == s.task && s'.stage == s.stage
  {
  }

  /** Only the task being registered can be granted by the adder. */
  lemma TargetReached(prog: Program, s: Sys, r: nat, th: Thread, pos: nat)
    requires Ok(prog, s) && r < |s.nodes| && Inv(s.nodes[r]) && AdderAt(prog, s, r)
    requires Target(s.nodes[r], th) == Some(pos) && (th.Adder? ==> AtNode(prog, s, r))
    ensures pos < |Users(prog.tasks, r, |prog.tasks|)|
    ensures
      var u := Users(prog.tasks, r, |prog.tasks|)[pos];
      && (u < s.task || (u == s.task && !s.stage.Count?))
      && (th.Adder? ==> u == s.task)
  {
    StepNotifies(s.nodes[r], th);
    GrantedUser(prog, s, r, pos);
    if th.Adder? {
      AdderFrame(s.nodes[r]);
    }
  }

  /** Task u's counter has been decremented once, for one pending notification. */
  ghost predicate Drops(prog: Program, s: Sys, s': Sys, u: nat, launching: bool)
    requires Fits(prog, s) && Fits(prog, s') && u < |prog.tasks|
  {
    && s'.task == s.task && s'.stage == s.stage
    && Pending(prog, s', u) == Pending(prog, s, u) - 1
    && s'.counter[u] == (s.counter[u] - 1) % WORD
    && s'.launches[u] == s.launches[u] + (if launching && s.counter[u] == 1 then 1 else 0)
  }

  lemma TargetDrops(prog: Program, s: Sys, r: nat, th: Thread, pos: nat)
    requires Ok(prog, s) && r < |s.nodes| && Inv(s.nodes[r]) && Target(s.nodes[r], th) == Some(pos)
    requires pos < |Users(prog.tasks, r, |prog.tasks|)|
    ensures Drops(prog, s, StepNode(prog, s, r, th), Users(prog.tasks, r, |prog.tasks|)[pos], th.Remover?)
  {
    TargetPending(prog, s, r, th, pos);
    StepNodeEffect(prog, s, r, th, pos);
  }

  /** One pending decrement fewer keeps the counter's account, given who may decrement it. */
  lemma CounterDrops(prog: Program, s: Sys, s': Sys, u: nat, launching: bool)
    requires Ok(prog, s) && Fits(prog, s') && u < |prog.tasks| && CounterOk(prog, s, u)
    requires Drops(prog, s, s', u, launching)
    requires u < s.task || (u == s.task && !s.stage.Count?)
    requires launching || u == s.task
    ensures CounterOk(prog, s', u)
  {
  }

  lemma TargetCounter(prog: Program, s: Sys, r: nat, th: Thread, pos: nat)
    requires Ok(prog, s) && r < |s.nodes| && Inv(s.nodes[r]) && AdderAt(prog, s, r) && CountersOk(prog, s)
    requires Target(s.nodes[r], th) == Some(pos) && (th.Adder? ==> AtNode(prog, s, r))
    ensures pos < |Users(prog.tasks, r, |prog.tasks|)|
    ensures CounterOk(prog, StepNode(prog, s, r, th), Users(prog.tasks, r, |prog.tasks|)[pos])
  {
    TargetReached(prog, s, r, th, pos);
    var u := Users(prog.tasks, r, |prog.tasks|)[pos];
    TargetDrops(prog, s, r, th, pos);
    CounterDrops(prog, s, StepNode(prog, s, r, th), u, th.Remover?);
  }

  lemma NodeStepCounters(prog: Program, s: Sys, r: nat, th: Thread)
    requires Ok(prog, s) && r < |s.nodes| && Inv(s.nodes[r]) && AdderAt(prog, s, r) && CountersOk(prog, s)
    requires th.Adder? ==> AtNode(prog, s, r)
    ensures CountersOk(prog, StepNode(prog, s, r, th))
  {
    var us := Users(prog.tasks, r, |prog.tasks|);
    var target := Target(s.nodes[r], th);
    if target.Some? {
      TargetCounter(prog, s, r, th, target.value);
    }
    forall t | 0 <= t < |prog.tasks| ensures CounterOk(prog, StepNode(prog, s, r, th), t) {
      assert CounterOk(prog, s, t);
      if target.None? || us[target.value] != t {
        OthersCounter(prog, s, r, th, t);
      }
    }
  }

  lemma NodeStepNodes(prog: Program, s: Sys, r: nat, th: Thread)
    requires Ok(prog, s) && r < |s.nodes| && NodesOk(s)
    ensures NodesOk(StepNode(prog, s, r, th))
  {
    StepInv(s.nodes[r], th);
  }

  // ----- a step of the dispatcher -----

  /** The counter of the task being dispatched, when some of its registrations are added to it. */
  lemma CountOwn(prog: Program, s: Sys)
    requires Ok(prog, s) && s.task < |prog.tasks| && !s.stage.Register? && CounterOk(prog, s, s.task)
    ensures CounterOk(prog, DispatchStep(prog, s), s.task)
  {
    assert |prog.tasks[s.task]| < 0x1_0000;
  }

  lemma CountCounters(prog: Program, s: Sys)
    requires Ok(prog, s) && CountersOk(prog, s) && s.task < |prog.tasks| && !s.stage.Register?
    ensures CountersOk(prog, DispatchStep(prog, s))
  {
    var s' := DispatchStep(prog, s);
    assert CounterOk(prog, s, s.task);
    CountOwn(prog, s);
    forall t | 0 <= t < |prog.tasks| ensures CounterOk(prog, s', t) {
      assert CounterOk(prog, s, t);
    }
  }

  lemma CountAdders(prog: Program, s: Sys)
    requires Ok(prog, s) && AddersOk(prog, s) && s.task < |prog.tasks| && !s.stage.Register?
    ensures AddersOk(prog, DispatchStep(prog, s))
  {
    var s' := DispatchStep(prog, s);
    forall r | 0 <= r < |s.nodes| ensures AdderAt(prog, s', r) {
      assert AdderAt(prog, s, r);
      UsesAt(prog, s', r);
    }
  }

  lemma CountInv(prog: Program, s: Sys)
    requires SysInv(prog, s) && s.task < |prog.tasks| && !s.stage.Register?
    ensures SysInv(prog, DispatchStep(prog, s))
  {
    CountCounters(prog, s);
    CountAdders(prog, s);
    SamePhases(prog, s, DispatchStep(prog, s));
  }

  lemma FinishCounter(prog: Program, s: Sys, t: nat)
    requires Ok(prog, s) && t < |prog.tasks| && CounterOk(prog, s, t)
    requires s.task < |prog.tasks| && s.stage.Register? && s.stage.acc >= |prog.tasks[s.task]|
    ensures CounterOk(prog, DispatchStep(prog, s), t)
  {
  }

  lemma FinishCounters(prog: Program, s: Sys)
    requires Ok(prog, s) && CountersOk(prog, s)
    requires s.task < |prog.tasks| && s.stage.Register? && s.stage.acc >= |prog.tasks[s.task]|
    ensures CountersOk(prog, DispatchStep(prog, s))
  {
    var s' := DispatchStep(prog, s);
    forall t | 0 <= t < |prog.tasks| ensures CounterOk(prog, s', t) {
      assert CounterOk(prog, s, t);
      FinishCounter(prog, s, t);
    }
  }

  lemma FinishAdders(prog: Program, s: Sys)
    requires Ok(prog, s) && AddersOk(prog, s)
    requires s.task < |prog.tasks| && s.stage.Register? && s.stage.acc >= |prog.tasks[s.task]|
    ensures AddersOk(prog, DispatchStep(prog, s))
  {
    var s' := DispatchStep(prog, s);
    forall r | 0 <= r < |s.nodes| ensures AdderAt(prog, s', r) {
      assert AdderAt(prog, s, r);
    }
  }

  /** Phases look at queues, phases and launches only, and launches never go back. */
  lemma SamePhases(prog: Program, s: Sys, s': Sys)
    requires Ok(prog, s) && Fits(prog, s') && PhasesOk(prog, s)
    requires s'.nodes == s.nodes && s'.phase == s.phase
    requires forall t :: 0 <= t < |prog.tasks| ==> s.launches[t] <= s'.launches[t]
    ensures PhasesOk(prog, s')
  {
    forall t | 0 <= t < |prog.tasks| ensures PhaseOk(prog, s', t) {
      assert PhaseOk(prog, s, t);
      forall j | 0 <= j < |prog.tasks[t]| ensures RemAt(prog, s', t, j) {
        assert RemAt(prog, s, t, j);
      }
    }
  }

  lemma FinishInv(prog: Program, s: Sys)
    requires SysInv(prog, s) && s.task < |prog.tasks| && s.stage.Register? && s.stage.acc >= |prog.tasks[s.task]|
    ensures SysInv(prog, DispatchStep(prog, s))
  {
    FinishCounters(prog, s);
    FinishAdders(prog, s);
    SamePhases(prog, s, DispatchStep(prog, s));
  }

  lemma RegisterPhases(prog: Program, s: Sys, r: nat)
    requires Ok(prog, s) && r < |s.nodes| && PhasesOk(prog, s) && Inv(s.nodes[r])
    ensures PhasesOk(prog, StepNode(prog, s, r, Adder))
  {
    var s' := StepNode(prog, s, r, Adder);
    AdderFrame(s.nodes[r]);
    forall t | 0 <= t < |prog.tasks| ensures PhaseOk(prog, s', t) {
      assert PhaseOk(prog, s, t);
      forall j | 0 <= j < |prog.tasks[t]| ensures RemAt(prog, s', t, j) {
        assert RemAt(prog, s, t, j);
      }
    }
  }

  /** The adder of the queue being registered with, after one of its steps. */
  lemma RegisterHere(prog: Program, s: Sys)
    requires Ok(prog, s)
    requires s.task < |prog.tasks| && s.stage.Register? && s.stage.acc < |prog.tasks[s.task]|
    requires var r := prog.tasks[s.task][s.stage.acc].res; Inv(s.nodes[r]) && AdderAt(prog, s, r)
    ensures AdderAt(prog, DispatchStep(prog, s), prog.tasks[s.task][s.stage.acc].res)
  {
    var r := prog.tasks[s.task][s.stage.acc].res;
    AdderFrame(s.nodes[r]);
    ModeAtPos(prog, s.task, s.stage.acc);
    UsesAt(prog, s, r);
    UsesAt(prog, DispatchStep(prog, s), r);
  }

  lemma RegisterElsewhere(prog: Program, s: Sys, r: nat)
    requires Ok(prog, s) && r < |s.nodes| && AdderAt(prog, s, r)
    requires s.task < |prog.tasks| && s.stage.Register? && s.stage.acc < |prog.tasks[s.task]|
    requires r != prog.tasks[s.task][s.stage.acc].res
    ensures AdderAt(prog, DispatchStep(prog, s), r)
  {
    RegisterKeepsOthers(prog, s, r);
    StaysElsewhere(prog, s, DispatchStep(prog, s), r);
  }

  lemma RegisterKeepsOthers(prog: Program, s: Sys, r: nat)
    requires Ok(prog, s) && r < |s.nodes|
    requires s.task < |prog.tasks| && s.stage.Register? && s.stage.acc < |prog.tasks[s.task]|
    requires r != prog.tasks[s.task][s.stage.acc].res
    ensures
      var s' := DispatchStep(prog, s);
      && s'.nodes[r] == s.nodes[r] && s'.task == s.task && !s'.stage.Count?
      && s.stage.acc <= s'.stage.acc <= s.stage.acc + 1
  {
  }

  /** Another queue's registrations, when the dispatcher stays at this access or moves on to the next. */
  lemma StaysElsewhere(prog: Program, s: Sys, s': Sys, r: nat)
    requires Ok(prog, s) && Fits(prog, s') && r < |s.nodes| && AdderAt(prog, s, r)
    requires s.task < |prog.tasks| && s.stage.Register? && s.stage.acc < |prog.tasks[s.task]|
    requires r != prog.tasks[s.task][s.stage.acc].res
    requires s'.nodes[r] == s.nodes[r] && s'.task == s.task && !s'.stage.Count?
    requires s.stage.acc <= s'.stage.acc <= s.stage.acc + 1
    ensures AdderAt(prog, s', r)
  {
    UsesAt(prog, s', r);
    IndexOfAccess(prog.tasks[s.task], s.stage.acc);
  }

  lemma RegisterAdders(prog: Program, s: Sys)
    requires Ok(prog, s) && AddersOk(prog, s) && NodesOk(s)
    requires s.task < |prog.tasks| && s.stage.Register? && s.stage.acc < |prog.tasks[s.task]|
    ensures AddersOk(prog, DispatchStep(prog, s))
  {
    forall r | 0 <= r < |s.nodes| ensures AdderAt(prog, DispatchStep(prog, s), r) {
      assert AdderAt(prog, s, r) && Inv(s.nodes[r]);
      if r == prog.tasks[s.task][s.stage.acc].res {
        RegisterHere(prog, s);
      } else {
        RegisterElsewhere(prog, s, r);
      }
    }
  }

  /** Moving on to the next access changes neither counters nor phases. */
  lemma NextAccess(prog: Program, s: Sys)
    requires Ok(prog, s) && CountersOk(prog, s) && PhasesOk(prog, s)
    requires s.task < |prog.tasks| && s.stage.Register? && s.stage.acc < |prog.tasks[s.task]|
    ensures
      var s' := s.(stage := NextStage(prog, s.task, s.stage.acc));
      CountersOk(prog, s') && PhasesOk(prog, s')
  {
    var s' := s.(stage := NextStage(prog, s.task, s.stage.acc));
    forall t | 0 <= t < |prog.tasks| ensures CounterOk(prog, s', t) && PhaseOk(prog, s', t) {
      assert CounterOk(prog, s, t) && PhaseOk(prog, s, t);
      forall i | 0 <= i < |prog.tasks[t]| ensures RemAt(prog, s', t, i) {
        assert RemAt(prog, s, t, i);
      }
    }
  }

  lemma RegisterStep(prog: Program, s: Sys) returns (r: nat)
    requires Ok(prog, s) && s.task < |prog.tasks| && s.stage.Register? && s.stage.acc < |prog.tasks[s.task]|
    ensures r == prog.tasks[s.task][s.stage.acc].res < |s.nodes| && AtNode(prog, s, r)
    ensures
      var s1 := StepNode(prog, s, r, Adder);
      DispatchStep(prog, s) == s1 || DispatchStep(prog, s) == s1.(stage := NextStage(prog, s.task, s.stage.acc))
    ensures StepNode(prog, s, r, Adder).stage == s.stage && StepNode(prog, s, r, Adder).task == s.task
  {
    r := prog.tasks[s.task][s.stage.acc].res;
  }

  lemma RegisterRest(prog: Program, s: Sys)
    requires Ok(prog, s) && NodesOk(s) && AddersOk(prog, s) && CountersOk(prog, s) && PhasesOk(prog, s)
    requires s.task < |prog.tasks| && s.stage.Register? && s.stage.acc < |prog.tasks[s.task]|
    ensures var s' := DispatchStep(prog, s); NodesOk(s') && CountersOk(prog, s') && PhasesOk(prog, s')
  {
    var r := RegisterStep(prog, s);
    assert AdderAt(prog, s, r) && Inv(s.nodes[r]);
    NodeStepNodes(prog, s, r, Adder);
    NodeStepCounters(prog, s, r, Adder);
    RegisterPhases(prog, s, r);
    NextAccess(prog, StepNode(prog, s, r, Adder));
  }

  lemma RegisterInv(prog: Program, s: Sys)
    requires SysInv(prog, s) && s.task < |prog.tasks| && s.stage.Register? && s.stage.acc < |prog.tasks[s.task]|
    ensures SysInv(prog, DispatchStep(prog, s))
  {
    RegisterRest(prog, s);
    RegisterAdders(prog, s);
  }

  // ----- a step of a task -----

  /** Counters and registration look at queues, counters, launches and the dispatcher only. */
  lemma SameRest(prog: Program, s: Sys, s': Sys)
    requires Ok(prog, s) && Fits(prog, s') && CountersOk(prog, s) && AddersOk(prog, s)
    requires s'.nodes == s.nodes && s'.counter == s.counter && s'.launches == s.launches
    requires s'.task == s.task && s'.stage == s.stage
    ensures CountersOk(prog, s') && AddersOk(prog, s')
  {
    forall u | 0 <= u < |prog.tasks| ensures CounterOk(prog, s', u) {
      assert CounterOk(prog, s, u);
    }
    forall r | 0 <= r < |s.nodes| ensures AdderAt(prog, s', r) {
      assert AdderAt(prog, s, r);
    }
  }

  lemma RemoveAdders(prog: Program, s: Sys, r: nat, p: nat)
    requires Ok(prog, s) && AddersOk(prog, s) && r < |s.nodes| && p < |s.nodes[r].modes|
    ensures AddersOk(prog, StepNode(prog, s, r, Remover(p)))
  {
    var s' := StepNode(prog, s, r, Remover(p));
    RemoverFrame(s.nodes[r], p);
    forall i | 0 <= i < |s.nodes| ensures AdderAt(prog, s', i) {
      assert AdderAt(prog, s, i);
    }
  }

  lemma RemovePhaseOwn(prog: Program, s: Sys, t: nat)
    requires Ok(prog, s) && t < |prog.tasks| && s.phase[t].Removing? && s.phase[t].acc < |prog.tasks[t]|
    ensures RemAt(prog, TaskStep(prog, s, t), t, s.phase[t].acc)
  {
    var r, p := RemoveStep(prog, s, t);
  }

  lemma RemovePhaseOther(prog: Program, s: Sys, t: nat, u: nat, j: nat)
    requires Ok(prog, s) && t < |prog.tasks| && s.phase[t].Removing? && s.phase[t].acc < |prog.tasks[t]|
    requires u < |prog.tasks| && j < |prog.tasks[u]| && RemAt(prog, s, u, j) && (u != t || j != s.phase[t].acc)
    ensures RemAt(prog, TaskStep(prog, s, t), u, j)
  {
    var r, p := RemoveStep(prog, s, t);
    RemoverFrame(s.nodes[r], p);
    if prog.tasks[u][j].res == r {
      OtherPosition(prog, r, t, s.phase[t].acc, u, j);
    }
  }

  /** Different accesses to one resource sit at different positions of its queue. */
  lemma OtherPosition(prog: Program, r: nat, t: nat, k: nat, u: nat, j: nat)
    requires Valid(prog) && t < |prog.tasks| && k < |prog.tasks[t]| && u < |prog.tasks| && j < |prog.tasks[u]|
    requires prog.tasks[t][k].res == r == prog.tasks[u][j].res && (u != t || j != k)
    ensures Pos(prog.tasks, t, r) != Pos(prog.tasks, u, r)
  {
    IndexOfAccess(prog.tasks[t], k);
    IndexOfAccess(prog.tasks[u], j);
    if t < u { PosOrder(prog.tasks, t, u, r); }
    if u < t { PosOrder(prog.tasks, u, t, r); }
  }

  lemma RemovePhases(prog: Program, s: Sys, t: nat)
    requires Ok(prog, s) && PhasesOk(prog, s) && t < |prog.tasks|
    requires s.phase[t].Removing? && s.phase[t].acc < |prog.tasks[t]|
    ensures PhasesOk(prog, TaskStep(prog, s, t))
  {
    var s' := TaskStep(prog, s, t);
    forall u | 0 <= u < |prog.tasks| ensures PhaseOk(prog, s', u) {
      assert PhaseOk(prog, s, u);
      forall j | 0 <= j < |prog.tasks[u]| ensures RemAt(prog, s', u, j) {
        assert RemAt(prog, s, u, j);
        if u == t && j == s.phase[t].acc { RemovePhaseOwn(prog, s, t); } else { RemovePhaseOther(prog, s, t, u, j); }
      }
    }
  }

  /** A removing task's step is a step inside one queue, up to its own phase. */
  lemma RemoveStep(prog: Program, s: Sys, t: nat) returns (r: nat, p: nat)
    requires Ok(prog, s) && t < |prog.tasks| && s.phase[t].Removing? && s.phase[t].acc < |prog.tasks[t]|
    ensures r == prog.tasks[t][s.phase[t].acc].res < |s.nodes| && p == Pos(prog.tasks, t, r) < |s.nodes[r].modes|
    ensures
      var s1 := StepNode(prog, s, r, Remover(p));
      TaskStep(prog, s, t) == s1.(phase :=
        if s1.nodes[r].rem[p] == Done then s1.phase[t := Removing(s.phase[t].acc + 1)] else s1.phase)
  {
    r := prog.tasks[t][s.phase[t].acc].res;
    p := Pos(prog.tasks, t, r);
    ModeAtPos(prog, t, s.phase[t].acc);
  }

  lemma RemoveRest(prog: Program, s: Sys, t: nat)
    requires Ok(prog, s) && NodesOk(s) && AddersOk(prog, s) && CountersOk(prog, s)
    requires t < |prog.tasks| && s.phase[t].Removing? && s.phase[t].acc < |prog.tasks[t]|
    ensures var s' := TaskStep(prog, s, t); NodesOk(s') && AddersOk(prog, s') && CountersOk(prog, s')
  {
    var r, p := RemoveStep(prog, s, t);
    assert AdderAt(prog, s, r) && Inv(s.nodes[r]);
    NodeStepNodes(prog, s, r, Remover(p));
    NodeStepCounters(prog, s, r, Remover(p));
    RemoveAdders(prog, s, r, p);
    SameRest(prog, StepNode(prog, s, r, Remover(p)), TaskStep(prog, s, t));
  }

  lemma RemoveInv(prog: Program, s: Sys, t: nat)
    requires SysInv(prog, s) && t < |prog.tasks| && s.phase[t].Removing? && s.phase[t].acc < |prog.tasks[t]|
    ensures SysInv(prog, TaskStep(prog, s, t))
  {
    RemoveRest(prog, s, t);
    RemovePhases(prog, s, t);
  }

  lemma WorkPhases(prog: Program, s: Sys, t: nat)
    requires Ok(prog, s) && PhasesOk(prog, s) && t < |prog.tasks|
    requires !(s.phase[t].Removing? && s.phase[t].acc < |prog.tasks[t]|)
    ensures PhasesOk(prog, TaskStep(prog, s, t))
  {
    var s' := TaskStep(prog, s, t);
    forall u | 0 <= u < |prog.tasks| ensures PhaseOk(prog, s', u) {
      assert PhaseOk(prog, s, u);
      forall j | 0 <= j < |prog.tasks[u]| ensures RemAt(prog, s', u, j) {
        assert RemAt(prog, s, u, j);
      }
    }
  }

  lemma WorkRest(prog: Program, s: Sys, t: nat)
    requires Ok(prog, s) && t < |prog.tasks|
    requires !(s.phase[t].Removing? && s.phase[t].acc < |prog.tasks[t]|)
    ensures
      var s' := TaskStep(prog, s, t);
      && s'.nodes == s.nodes && s'.counter == s.counter && s'.launches == s.launches
      && s'.task == s.task && s'.stage == s.stage
  {
  }

  lemma WorkInv(prog: Program, s: Sys, t: nat)
    requires SysInv(prog, s) && t < |prog.tasks|
    requires !(s.phase[t].Removing? && s.phase[t].acc < |prog.tasks[t]|)
    ensures SysInv(prog, TaskStep(prog, s, t))
  {
    WorkPhases(prog, s, t);
    WorkRest(prog, s, t);
    SameRest(prog, s, TaskStep(prog, s, t));
  }

  lemma SysStepInv(prog: Program, s: Sys, who: Agent)
    requires SysInv(prog, s)
    ensures SysInv(prog, SysStep(prog, s, who))
  {
    match who
    case Dispatcher =>
      if s.task < |prog.tasks| {
        if !s.stage.Register? { CountInv(prog, s); }
        else if s.stage.acc < |prog.tasks[s.task]| { RegisterInv(prog, s); }
        else { FinishInv(prog, s); }
      }
    case Task(t) =>
      if t < |prog.tasks| {
        if s.phase[t].Removing? && s.phase[t].acc < |prog.tasks[t]| { RemoveInv(prog, s, t); }
        else { WorkInv(prog, s, t); }
      }
  }

  /** The invariant holds in every state of every interleaving. */
  lemma {:induction false} RunInv(prog: Program, s: Sys, schedule: seq<Agent>)
    requires SysInv(prog, s)
    ensures SysInv(prog, Run(prog, s, schedule))
    decreases |schedule|
  {
    if schedule != [] {
      SysStepInv(prog, s, schedule[0]);
      RunInv(prog, SysStep(prog, s, schedule[0]), schedule[1..]);
    }
  }
}
