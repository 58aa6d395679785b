/** The whole scheduler as one step machine: a dispatcher registering a program task by task, the resource
    queues, and the tasks, which read, write and then leave their queues one after the other.
    Every step is one atomic access to shared memory by one thread. */
module System {
  import opened Access
  import opened NodeMachine
  import opened Options
  import opened Program

  const INVALID_WAIT_STATE: int := 0x8000_0000
  const WORD: int := 0x1_0000_0000

  datatype Stage =
    | Count                // about to add to the wait counter: the number of resources, or one for a barrier
    | Another(acc: nat)    // a barrier about to add one for this access, which is not its first
    | Register(acc: nat)   // inside add_task for this access; past the last one, about to subtract INVALID_WAIT_STATE

  datatype Phase =
    | Waiting
    | Reading(acc: nat)
    | Writing(acc: nat)
    | Removing(acc: nat)   // inside remove_task for this access
    | Finished

  datatype Agent = Dispatcher | Task(id: nat)

  datatype Sys = Sys(
    nodes: seq<Node>,       // one queue per resource
    counter: seq<int>,      // waitCounter of every task, a 32-bit unsigned word
    launches: seq<nat>,     // how often every task has been handed over for execution
    phase: seq<Phase>,
    view: seq<seq<int>>,    // what every task has read so far
    mem: seq<int>,
    task: nat,              // the task the dispatcher is at
    stage: Stage
  )

  predicate Fits(prog: Program, s: Sys) {
    && |prog.initial| == prog.resources == |s.nodes| == |s.mem|
    && (forall r :: 0 <= r < |s.nodes| ==> Sized(s.nodes[r]) && s.nodes[r].modes == Modes(prog, r))
    && |s.counter| == |s.launches| == |s.phase| == |s.view| == |prog.tasks|
    && s.task <= |prog.tasks|
  }

  function Start(prog: Program, reading: CasReading, capacity: nat): (s: Sys)
    requires Valid(prog) && |prog.tasks| < capacity
    ensures Fits(prog, s)
  {
    var n := |prog.tasks|;
    Sys(seq(prog.resources, r requires 0 <= r < prog.resources => Init(reading, Modes(prog, r), capacity)),
        seq(n, _ => INVALID_WAIT_STATE), seq(n, _ => 0), seq(n, _ => Waiting), seq(n, _ => []),
        prog.initial, 0, Count)
  }

  /** fetch_sub(1) on the wait counter of the task at position pos of queue r. A remover that reads 1 puts the
      task on its ready queue; add_task ignores what it reads. */
  function Decrement(prog: Program, s: Sys, r: nat, pos: nat, launching: bool): (s': Sys)
    requires Fits(prog, s) && r < prog.resources
    ensures Fits(prog, s')
  {
    var us := Users(prog.tasks, r, |prog.tasks|);
    if pos < |us| then
      var u := us[pos];
      s.(counter := s.counter[u := (s.counter[u] - 1) % WORD],
         launches := if launching && s.counter[u] == 1 then s.launches[u := s.launches[u] + 1] else s.launches)
    else s
  }

  /** One step of a thread inside queue r. */
  function StepNode(prog: Program, s: Sys, r: nat, th: Thread): (s': Sys)
    requires Fits(prog, s) && r < prog.resources
    ensures Fits(prog, s')
  {
    var s1 := s.(nodes := s.nodes[r := Step(s.nodes[r], th)]);
    match Target(s.nodes[r], th)
    case None => s1
    case Some(pos) => Decrement(prog, s1, r, pos, th.Remover?)
  }

  /** What the first addition to the wait counter of task t adds. */
  function FirstCount(prog: Program, t: nat): nat
    requires t < |prog.tasks|
  {
    if t in prog.barriers && |prog.tasks[t]| > 0 then 1 else |prog.tasks[t]|
  }

  /** After the registration of access j of task t. */
  function NextStage(prog: Program, t: nat, j: nat): Stage
    requires t < |prog.tasks|
  {
    if t in prog.barriers && j + 1 < |prog.tasks[t]| then Another(j + 1) else Register(j + 1)
  }

  function DispatchStep(prog: Program, s: Sys): (s': Sys)
    requires Fits(prog, s)
    ensures Fits(prog, s')
  {
    if s.task == |prog.tasks| then s else
    var t := s.task;
    var accs := prog.tasks[t];
    match s.stage
    case Count =>
      s.(counter := s.counter[t := (s.counter[t] + FirstCount(prog, t)) % WORD], stage := Register(0))
    case Another(j) =>
      s.(counter := s.counter[t := (s.counter[t] + 1) % WORD], stage := Register(j))
    case Register(j) =>
      if j < |accs| && accs[j].res < prog.resources then
        var s1 := StepNode(prog, s, accs[j].res, Adder);
        if s1.nodes[accs[j].res].adder == AddIdle then s1.(stage := NextStage(prog, t, j)) else s1
      else
        s.(counter := s.counter[t := (s.counter[t] - INVALID_WAIT_STATE) % WORD],
           launches := if s.counter[t] == INVALID_WAIT_STATE then s.launches[t := s.launches[t] + 1] else s.launches,
           task := t + 1,
           stage := Count)
  }

  function TaskStep(prog: Program, s: Sys, t: nat): (s': Sys)
    requires Fits(prog, s) && t < |prog.tasks|
    ensures Fits(prog, s')
  {
    var accs := prog.tasks[t];
    match s.phase[t]
    case Waiting =>
      if s.launches[t] > 0 then s.(phase := s.phase[t := Reading(0)]) else s
    case Reading(j) =>
      if j < |accs| && accs[j].res < prog.resources then
        s.(view := s.view[t := s.view[t] + [s.mem[accs[j].res]]], phase := s.phase[t := Reading(j + 1)])
      else s.(phase := s.phase[t := Writing(0)])
    case Writing(j) =>
      if j < |accs| && accs[j].res < prog.resources then
        s.(mem := if accs[j].mode != Read then s.mem[accs[j].res := prog.body(t, s.view[t], j)] else s.mem,
           phase := s.phase[t := Writing(j + 1)])
      else s.(phase := s.phase[t := Removing(0)])
    case Removing(j) =>
      if j < |accs| && accs[j].res < prog.resources then
        var r := accs[j].res;
        var p := Pos(prog.tasks, t, r);
        var s1 := StepNode(prog, s, r, Remover(p));
        if p < |s1.nodes[r].rem| && s1.nodes[r].rem[p] == Done
        then s1.(phase := s1.phase[t := Removing(j + 1)])
        else s1
      else s.(phase := s.phase[t := Finished])
    case Finished => s
  }

  function SysStep(prog: Program, s: Sys, who: Agent): (s': Sys)
    requires Fits(prog, s)
    ensures Fits(prog, s')
  {
    match who
    case Dispatcher => DispatchStep(prog, s)
    case Task(t) => if t < |prog.tasks| then TaskStep(prog, s, t) else s
  }

  /** Every interleaving of the dispatcher and the tasks is some schedule. */
  function Run(prog: Program, s: Sys, schedule: seq<Agent>): (s': Sys)
    requires Fits(prog, s)
    ensures Fits(prog, s')
    decreases |schedule|
  {
    if schedule == [] then s else Run(prog, SysStep(prog, s, schedule[0]), schedule[1..])
  }
}
