/** What a dispatcher hands to the library: a list of tasks, each with the resources it accesses and how. */
module Program {
  import opened Access

  datatype Acc = Acc(res: nat, mode: AccessMode)

  /** barriers are the tasks that add one to their wait counter before each registration, where all others add the
      number of their registrations before the first. body(t, view, j) is the value task t stores through its j-th
      access after reading `view`. */
  datatype Program = Program(
    tasks: seq<seq<Acc>>,
    barriers: set<nat>,
    resources: nat,
    initial: seq<int>,
    body: (nat, seq<int>, nat) -> int
  )

  ghost predicate Distinct(accs: seq<Acc>) {
    forall j, k :: 0 <= j < k < |accs| ==> accs[j].res != accs[k].res
  }

  /** A task registers at most once with a resource, and its access count fits the 16-bit resource counter. */
  ghost predicate Valid(prog: Program) {
    && |prog.initial| == prog.resources
    && (forall t :: 0 <= t < |prog.tasks| ==> Distinct(prog.tasks[t]) && |prog.tasks[t]| < 0x1_0000)
    && (forall t, j :: 0 <= t < |prog.tasks| && 0 <= j < |prog.tasks[t]| ==> prog.tasks[t][j].res < prog.resources)
  }

  /** Index of the first access to resource r, or |accs|. */
  function Index(accs: seq<Acc>, r: nat): (j: nat)
    ensures j <= |accs|
    ensures j < |accs| ==> accs[j].res == r
    ensures forall k :: 0 <= k < j ==> accs[k].res != r
  {
    if accs == [] then 0 else if accs[0].res == r then 0 else 1 + Index(accs[1..], r)
  }

  predicate Uses(accs: seq<Acc>, r: nat) {
    Index(accs, r) < |accs|
  }

  lemma IndexOfAccess(accs: seq<Acc>, j: nat)
    requires Distinct(accs) && j < |accs|
    ensures Index(accs, accs[j].res) == j
  {
  }

  /** The tasks below n that use resource r, in dispatch order: position p of r's queue holds Users(..)[p]. */
  function Users(tasks: seq<seq<Acc>>, r: nat, n: nat): (us: seq<nat>)
    requires n <= |tasks|
    ensures forall p :: 0 <= p < |us| ==> us[p] < n && Uses(tasks[us[p]], r)
    ensures forall p, q :: 0 <= p < q < |us| ==> us[p] < us[q]
    ensures |us| <= n
  {
    if n == 0 then []
    else Users(tasks, r, n - 1) + if Uses(tasks[n - 1], r) then [n - 1] else []
  }

  /** Position of task t in the queue of resource r. */
  function Pos(tasks: seq<seq<Acc>>, t: nat, r: nat): nat
    requires t <= |tasks|
  {
    |Users(tasks, r, t)|
  }

  lemma {:induction false} UsersPrefix(tasks: seq<seq<Acc>>, r: nat, m: nat, n: nat)
    requires m <= n <= |tasks|
    ensures Users(tasks, r, m) <= Users(tasks, r, n)
    decreases n - m
  {
    if m < n {
      UsersPrefix(tasks, r, m, n - 1);
    }
  }

  lemma PosIsPosition(tasks: seq<seq<Acc>>, t: nat, r: nat, n: nat)
    requires t < n <= |tasks| && Uses(tasks[t], r)
    ensures Pos(tasks, t, r) < |Users(tasks, r, n)|
    ensures Users(tasks, r, n)[Pos(tasks, t, r)] == t
  {
    UsersPrefix(tasks, r, t + 1, n);
    assert Users(tasks, r, t + 1)[Pos(tasks, t, r)] == t;
  }

  lemma PositionIsPos(tasks: seq<seq<Acc>>, p: nat, r: nat, n: nat)
    requires n <= |tasks| && p < |Users(tasks, r, n)|
    ensures var t := Users(tasks, r, n)[p]; Pos(tasks, t, r) == p
  {
    var us := Users(tasks, r, n);
    var t := us[p];
    PosIsPosition(tasks, t, r, n);
    var q := Pos(tasks, t, r);
    assert us[q] == us[p];
  }

  /** Positions are ordered as the tasks are. */
  lemma PosOrder(tasks: seq<seq<Acc>>, t: nat, u: nat, r: nat)
    requires t < u <= |tasks| && Uses(tasks[t], r)
    ensures Pos(tasks, t, r) < Pos(tasks, u, r)
  {
    PosIsPosition(tasks, t, r, u);
  }

  /** The access modes registered with resource r, in registration order. */
  function Modes(prog: Program, r: nat): (ms: seq<AccessMode>)
    ensures |ms| == |Users(prog.tasks, r, |prog.tasks|)|
  {
    var us := Users(prog.tasks, r, |prog.tasks|);
    seq(|us|, p requires 0 <= p < |us| => prog.tasks[us[p]][Index(prog.tasks[us[p]], r)].mode)
  }

  lemma ModeAtPos(prog: Program, t: nat, j: nat)
    requires Valid(prog) && t < |prog.tasks| && j < |prog.tasks[t]|
    ensures
      var r := prog.tasks[t][j].res;
      var p := Pos(prog.tasks, t, r);
      p < |Modes(prog, r)| && Modes(prog, r)[p] == prog.tasks[t][j].mode
  {
    var r := prog.tasks[t][j].res;
    IndexOfAccess(prog.tasks[t], j);
    PosIsPosition(prog.tasks, t, r, |prog.tasks|);
  }

  // ----- running the tasks one by one -----

  /** What task t reads in memory mem. */
  function ViewOf(prog: Program, t: nat, mem: seq<int>): (v: seq<int>)
    requires t < |prog.tasks|
    ensures |v| == |prog.tasks[t]|
  {
    seq(|prog.tasks[t]|, j requires 0 <= j < |prog.tasks[t]| =>
      if prog.tasks[t][j].res < |mem| then mem[prog.tasks[t][j].res] else 0)
  }

  predicate Writes(accs: seq<Acc>, r: nat) {
    Uses(accs, r) && accs[Index(accs, r)].mode != Read
  }

  /** Memory after task t has run alone in memory mem. */
  function RunTask(prog: Program, t: nat, mem: seq<int>): (m: seq<int>)
    requires t < |prog.tasks|
    ensures |m| == |mem|
  {
    var view := ViewOf(prog, t, mem);
    seq(|mem|, r requires 0 <= r < |mem| =>
      if Writes(prog.tasks[t], r) then prog.body(t, view, Index(prog.tasks[t], r)) else mem[r])
  }

  /** Memory after tasks 0 .. k-1 have run one by one in dispatch order. */
  function SerialMem(prog: Program, k: nat): (m: seq<int>)
    requires k <= |prog.tasks|
    ensures |m| == |prog.initial|
  {
    if k == 0 then prog.initial else RunTask(prog, k - 1, SerialMem(prog, k - 1))
  }

  /** A resource keeps its value across tasks that do not write it. */
  lemma {:induction false} SerialUnwritten(prog: Program, r: nat, lo: nat, hi: nat)
    requires lo <= hi <= |prog.tasks| && r < |prog.initial|
    requires forall t :: lo <= t < hi ==> !Writes(prog.tasks[t], r)
    ensures SerialMem(prog, lo)[r] == SerialMem(prog, hi)[r]
    decreases hi - lo
  {
    if lo < hi {
      SerialUnwritten(prog, r, lo, hi - 1);
    }
  }
}
