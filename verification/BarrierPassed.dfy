/** A joint run that goes through a barrier on one resource. */
module BarrierPassed {
  import opened Access
  import opened Barrier
  import J = BarrierRun
  import T = LifetimeMachine
  import LT = LifetimeTheorems
  import opened NodeMachine
  import opened Program
  import opened System

  ghost predicate Reachable(prog: Program, reading: CasReading, capacity: nat, order: T.ReadOrder, s: J.Both)
    requires Valid(prog) && |prog.tasks| < capacity
  {
    exists moves: seq<J.Move> :: s == J.Exec(prog, J.Init(prog, reading, capacity, order), moves)
  }

  lemma {:induction false} ExecOn(prog: Program, s: J.Both, moves: seq<J.Move>, m: J.Move)
    requires Fits(prog, s.sys)
    ensures J.Exec(prog, s, moves + [m]) == J.Step(prog, J.Exec(prog, s, moves), m)
    decreases |moves|
  {
    if moves == [] {
      assert moves + [m] == [m];
    } else {
      assert (moves + [m])[0] == moves[0] && (moves + [m])[1..] == moves[1..] + [m];
      ExecOn(prog, J.Step(prog, s, moves[0]), moves[1..], m);
    }
  }

  lemma StepReaches(prog: Program, reading: CasReading, capacity: nat, order: T.ReadOrder, s: J.Both, m: J.Move)
    requires Valid(prog) && |prog.tasks| < capacity && Reachable(prog, reading, capacity, order, s)
    ensures Fits(prog, s.sys) && Reachable(prog, reading, capacity, order, J.Step(prog, s, m))
  {
    var moves: seq<J.Move> :| s == J.Exec(prog, J.Init(prog, reading, capacity, order), moves);
    ExecOn(prog, J.Init(prog, reading, capacity, order), moves, m);
  }

  /** A program of one barrier on one resource. */
  function OneBarrier(body: (nat, seq<int>, nat) -> int): Program {
    Program([[Acc(0, Write)]], {0}, 1, [0], body)
  }

  lemma OneBarrierQueue(body: (nat, seq<int>, nat) -> int)
    ensures var prog := OneBarrier(body);
            Valid(prog) && IsBarrier(prog, 0) && Users(prog.tasks, 0, 1) == [0] && Modes(prog, 0) == [Write]
  {
    assert Users(OneBarrier(body).tasks, 0, 1) == [0];
  }

  /** n steps of the dispatcher. */
  lemma {:induction false} Dispatches(prog: Program, reading: CasReading, capacity: nat, order: T.ReadOrder, s: J.Both,
                                      n: nat) returns (s': J.Both)
    requires Valid(prog) && |prog.tasks| < capacity && Reachable(prog, reading, capacity, order, s)
    requires forall t :: 0 <= t < |prog.tasks| && IsBarrier(prog, t) ==> t in s.caller
    ensures Fits(prog, s.sys) && Reachable(prog, reading, capacity, order, s')
    ensures s' == s.(sys := Run(prog, s.sys, seq(n, _ => Dispatcher)))
    decreases n
  {
    StepReaches(prog, reading, capacity, order, s, J.Work(Dispatcher));
    if n == 0 {
      s' := s;
    } else {
      s' := Dispatches(prog, reading, capacity, order, J.Step(prog, s, J.Work(Dispatcher)), n - 1);
      assert seq(n, _ => Dispatcher)[1..] == seq(n - 1, _ => Dispatcher);
    }
  }

  /** One step of the only add_task. */
  lemma AddsInQueue(body: (nat, seq<int>, nat) -> int, s: Sys, c: int)
    requires Fits(OneBarrier(body), s) && s.counter == [c] && 0 < c < WORD
    ensures
      var s' := StepNode(OneBarrier(body), s, 0, Adder);
      && s'.nodes == [AddStep(s.nodes[0])] && s'.launches == s.launches && s'.phase == s.phase
      && s'.task == s.task && s'.stage == s.stage
      && s'.counter == [if s.nodes[0].adder == AddNotify(0) then c - 1 else c]
  {
    OneBarrierQueue(body);
  }

  /** One step of the dispatcher inside the only registration. */
  lemma RegistersOne(body: (nat, seq<int>, nat) -> int, s: Sys, c: int)
    requires Fits(OneBarrier(body), s) && s.task == 0 && s.stage == Register(0) && s.counter == [c] && 0 < c < WORD
    ensures
      var s', n := DispatchStep(OneBarrier(body), s), AddStep(s.nodes[0]);
      && s'.nodes == [n] && s'.launches == s.launches && s'.phase == s.phase && s'.task == 0
      && s'.stage == (if n.adder == AddIdle then Register(1) else Register(0))
      && s'.counter == [if s.nodes[0].adder == AddNotify(0) then c - 1 else c]
  {
    AddsInQueue(body, s, c);
  }

  /** k steps of the adder. */
  function Adds(s: Node, k: nat): (s': Node)
    requires Sized(s)
    ensures Sized(s')
  {
    if k == 0 then s else AddStep(Adds(s, k - 1))
  }

  lemma OnlyAdder(reading: CasReading)
    ensures
      var n := NodeMachine.Init(reading, [Write], 2);
      && Adds(n, 1).adder == AddStored(0) && Adds(n, 2).adder == AddPublished(0) && Adds(n, 3).adder == AddCheckFirst(0)
      && Adds(n, 4).adder == AddCas(0) && Adds(n, 5).adder == AddNotify(0) && Adds(n, 6).adder == AddIdle
  {
    var n := NodeMachine.Init(reading, [Write], 2);
    assert Adds(n, 1) == n.(adder := AddStored(0));
    assert Adds(n, 2) == n.(last := 1, adder := AddPublished(0));
    assert Adds(n, 3) == n.(last := 1, adder := AddCheckFirst(0));
    assert Adds(n, 4) == n.(last := 1, adder := AddCas(0));
    assert Adds(n, 5) == n.(last := 1, fnr := 1, granter := [Adder], adder := AddNotify(0));
  }

  /** The dispatcher is k steps into the only registration. */
  predicate UpTo(reading: CasReading, s: Sys, k: nat) {
    && s.nodes == [Adds(NodeMachine.Init(reading, [Write], 2), k)]
    && s.launches == [0] && s.phase == [Waiting] && s.task == 0
    && s.stage == (if k == 6 then Register(1) else Register(0))
    && s.counter == [if k == 6 then INVALID_WAIT_STATE else INVALID_WAIT_STATE + 1]
  }

  lemma CountsOne(reading: CasReading, body: (nat, seq<int>, nat) -> int)
    ensures Valid(OneBarrier(body))
    ensures UpTo(reading, DispatchStep(OneBarrier(body), Start(OneBarrier(body), reading, 2)), 0)
  {
    OneBarrierQueue(body);
  }

  lemma AddsOne(reading: CasReading, body: (nat, seq<int>, nat) -> int, s: Sys, k: nat)
    requires k < 6 && Fits(OneBarrier(body), s) && UpTo(reading, s, k)
    ensures UpTo(reading, DispatchStep(OneBarrier(body), s), k + 1)
  {
    OnlyAdder(reading);
    RegistersOne(body, s, INVALID_WAIT_STATE + 1);
  }

  predicate Launched(s: Sys) {
    s.launches == [1] && s.phase == [Waiting] && s.task == 1
  }

  lemma LaunchesOne(reading: CasReading, body: (nat, seq<int>, nat) -> int, s: Sys)
    requires Fits(OneBarrier(body), s) && UpTo(reading, s, 6)
    ensures Launched(DispatchStep(OneBarrier(body), s))
  {
  }

  /** From k steps into the registration to the launch. */
  lemma {:induction false} RegistersFrom(reading: CasReading, body: (nat, seq<int>, nat) -> int, s: Sys, k: nat)
    requires k <= 6 && Fits(OneBarrier(body), s) && UpTo(reading, s, k)
    ensures Launched(Run(OneBarrier(body), s, seq(7 - k, _ => Dispatcher)))
    decreases 6 - k
  {
    var s' := DispatchStep(OneBarrier(body), s);
    assert seq(7 - k, _ => Dispatcher)[1..] == seq(6 - k, _ => Dispatcher);
    if k == 6 {
      LaunchesOne(reading, body, s);
    } else {
      AddsOne(reading, body, s, k);
      RegistersFrom(reading, body, s', k + 1);
    }
  }

  lemma OneBarrierLaunches(reading: CasReading, body: (nat, seq<int>, nat) -> int)
    requires Valid(OneBarrier(body))
    ensures Launched(Run(OneBarrier(body), Start(OneBarrier(body), reading, 2), seq(8, _ => Dispatcher)))
  {
    var s0 := Start(OneBarrier(body), reading, 2);
    assert seq(8, _ => Dispatcher)[1..] == seq(7, _ => Dispatcher);
    CountsOne(reading, body);
    RegistersFrom(reading, body, DispatchStep(OneBarrier(body), s0), 0);
  }

  /** The task starts to run, and its body parks the caller. */
  lemma BodyParks(reading: CasReading, body: (nat, seq<int>, nat) -> int, order: T.ReadOrder, s: J.Both)
    returns (s': J.Both)
    requires Valid(OneBarrier(body)) && Reachable(OneBarrier(body), reading, 2, order, s)
    requires Fits(OneBarrier(body), s.sys) && Launched(s.sys)
    requires s.tree == T.Init(order) && s.caller == map[0 := 0] && s.parked == {} && s.parkedBy == map[]
    ensures Reachable(OneBarrier(body), reading, 2, order, s') && s'.parkedBy == map[0 := 0]
    ensures s'.tree == T.Tree([T.NewFrame(0, 0, false).(self := T.Parked)], [0], order, T.NoScan, false)
  {
    var prog := OneBarrier(body);
    StepReaches(prog, reading, 2, order, s, J.Work(Task(0)));
    s' := J.Step(prog, s, J.Work(Task(0)));
    assert s'.sys.phase == [Reading(0)];
    StepReaches(prog, reading, 2, order, s', J.ParkCaller(0));
    s' := J.Step(prog, s', J.ParkCaller(0));
  }

  /** The next pass over the queue finds the caller ready. */
  lemma PutBack(reading: CasReading, body: (nat, seq<int>, nat) -> int, order: T.ReadOrder, s: J.Both)
    returns (s': J.Both)
    requires Valid(OneBarrier(body)) && Reachable(OneBarrier(body), reading, 2, order, s)
    requires s.tree == T.Tree([T.NewFrame(0, 0, false).(self := T.Parked)], [0], order, T.NoScan, false)
    ensures Reachable(OneBarrier(body), reading, 2, order, s') && s'.parkedBy == s.parkedBy
    ensures LT.Requeues(s'.tree) && LT.Caller(s'.tree) == 0
  {
    var prog := OneBarrier(body);
    StepReaches(prog, reading, 2, order, s, J.Live(T.Walk));
    s' := J.Step(prog, s, J.Live(T.Walk));
    StepReaches(prog, reading, 2, order, s', J.Live(T.Walk));
    s' := J.Step(prog, s', J.Live(T.Walk));
  }

  /** A joint run in which a coroutine awaits a barrier on a resource, is parked by it and put back. */
  lemma ABarrierIsPassed(reading: CasReading, body: (nat, seq<int>, nat) -> int, order: T.ReadOrder)
    returns (s: J.Both)
    ensures
      var prog := OneBarrier(body);
      && Valid(prog) && Reachable(prog, reading, 2, order, s)
      && LT.Requeues(s.tree) && LT.Caller(s.tree) == 0 && s.parkedBy == map[0 := 0]
  {
    var prog := OneBarrier(body);
    OneBarrierQueue(body);
    var s0 := J.Init(prog, reading, 2, order);
    assert s0 == J.Exec(prog, s0, []);
    StepReaches(prog, reading, 2, order, s0, J.Await(0));
    s := J.Step(prog, s0, J.Await(0));
    assert s == s0.(caller := map[0 := 0]);
    s := Dispatches(prog, reading, 2, order, s, 8);
    OneBarrierLaunches(reading, body);
    s := BodyParks(reading, body, order, s);
    s := PutBack(reading, body, order, s);
  }
}
