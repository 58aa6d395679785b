/** The scheduler and the task tree run together, tied by their barriers: a coroutine that awaits a barrier stands still
    until the body of the barrier task parks it, and the body runs only once the scheduler has launched that task.
 */
module BarrierRun {
  import opened Access
  import opened Barrier
  import opened LifetimeInvariant
  import T = LifetimeMachine
  import LT = LifetimeTheorems
  import opened NodeMachine
  import opened OrderSuffices
  import opened Program
  import opened SerialEquivalence
  import opened System
  import SI = SystemInvariant

  datatype Both = Both(
    sys: Sys,
    tree: T.Tree,
    caller: map<nat, nat>,    // the frame that awaits, or awaited, each barrier task
    parked: set<nat>,         // the barriers whose body has parked its caller
    parkedBy: map<nat, nat>   // history: the barrier that parked each frame last
  )

  datatype Move =
    | Work(who: Agent)        // a step of the scheduler
    | Live(e: T.Event)        // a step of the task tree
    | Await(f: nat)           // frame f awaits the barrier that is dispatched next, and is suspended
    | ParkCaller(b: nat)      // the body of barrier b

  /** Frame f is suspended at a barrier whose body has not run yet. */
  predicate Suspended(s: Both, f: nat) {
    exists b :: b in s.caller && s.caller[b] == f && b !in s.parked
  }

  /** A barrier is dispatched by the coroutine that awaits it, and leaves its resources after its body. */
  predicate MayWork(prog: Program, s: Both, who: Agent)
    requires Fits(prog, s.sys)
  {
    match who
    case Dispatcher => IsBarrier(prog, s.sys.task) ==> s.sys.task in s.caller
    case Task(t) =>
      IsBarrier(prog, t) && t !in s.parked && s.sys.phase[t].Writing? ==> s.sys.phase[t].acc < |prog.tasks[t]|
  }

  predicate MayLive(s: Both, e: T.Event) {
    match e
    case Park(_) => false
    case Spawn(p, _, _) => !Suspended(s, p)
    case Link(p) => !Suspended(s, p)
    case Return(p) => !Suspended(s, p)
    case _ => true
  }

  predicate MayAwait(prog: Program, s: Both, f: nat) {
    && IsBarrier(prog, s.sys.task) && s.sys.task !in s.caller
    && f < |s.tree.frames| && T.Free(s.tree.frames[f]) && !Suspended(s, f)
  }

  /** The body takes the queue's lock, which a walking worker holds. */
  predicate MayPark(prog: Program, s: Both, b: nat)
    requires Fits(prog, s.sys)
  {
    b in s.caller && b !in s.parked && Active(prog, s.sys, b) && s.tree.scan.NoScan?
  }

  /** A move that is not enabled does nothing. */
  function Step(prog: Program, s: Both, m: Move): (s': Both)
    requires Fits(prog, s.sys)
    ensures Fits(prog, s'.sys)
  {
    match m
    case Work(who) => if MayWork(prog, s, who) then s.(sys := SysStep(prog, s.sys, who)) else s
    case Live(e) => if MayLive(s, e) then s.(tree := T.Step(s.tree, e)) else s
    case Await(f) => if MayAwait(prog, s, f) then s.(caller := s.caller[s.sys.task := f]) else s
    case ParkCaller(b) =>
      if MayPark(prog, s, b) then
        s.(tree := T.Step(s.tree, T.Park(s.caller[b])),
           parked := s.parked + {b},
           parkedBy := s.parkedBy[s.caller[b] := b])
      else s
  }

  function Init(prog: Program, reading: CasReading, capacity: nat, order: T.ReadOrder): (s: Both)
    requires Valid(prog) && |prog.tasks| < capacity
    ensures Fits(prog, s.sys)
  {
    Both(Start(prog, reading, capacity), T.Init(order), map[], {}, map[])
  }

  function Exec(prog: Program, s: Both, moves: seq<Move>): (s': Both)
    requires Fits(prog, s.sys)
    ensures Fits(prog, s'.sys)
    decreases |moves|
  {
    if moves == [] then s else Exec(prog, Step(prog, s, moves[0]), moves[1..])
  }

  // ----- the invariant -----

  /** A suspended caller is still as it was when it began to wait, and waits for one barrier only. */
  ghost predicate CallersOk(prog: Program, s: Both) {
    && (forall b :: b in s.caller ==> IsBarrier(prog, b) && s.caller[b] < |s.tree.frames|)
    && (forall b :: b in s.caller && b !in s.parked ==> T.Free(s.tree.frames[s.caller[b]]))
    && (forall b, c :: b in s.caller && b !in s.parked && c in s.caller && c !in s.parked && s.caller[b] == s.caller[c]
                       ==> b == c)
  }

  /** A frame in the queue was parked by the body of a launched barrier that it awaited. */
  ghost predicate ParkedBy(prog: Program, s: Both, f: nat)
    requires Fits(prog, s.sys)
  {
    && f in s.parkedBy
    && var b := s.parkedBy[f];
       b in s.caller && s.caller[b] == f && IsBarrier(prog, b) && s.sys.launches[b] > 0
  }

  ghost predicate ParkedOk(prog: Program, s: Both)
    requires Fits(prog, s.sys)
  {
    forall f :: 0 <= f < |s.tree.frames| && s.tree.frames[f].self == T.Parked ==> ParkedBy(prog, s, f)
  }

  predicate PastWork(phase: Phase) {
    phase.Removing? || phase.Finished?
  }

  ghost predicate LeavesAfter(prog: Program, s: Both)
    requires Fits(prog, s.sys)
  {
    forall b :: 0 <= b < |prog.tasks| && IsBarrier(prog, b) && PastWork(s.sys.phase[b]) ==> b in s.parked
  }

  /** Past its first step, the dispatch of a barrier has a caller. */
  predicate Dispatched(s: Sys, b: nat) {
    b < s.task || (b == s.task && !s.stage.Count?)
  }

  ghost predicate DispatchOk(prog: Program, s: Both) {
    forall b :: 0 <= b < |prog.tasks| && IsBarrier(prog, b) && Dispatched(s.sys, b) ==> b in s.caller
  }

  ghost predicate BothInv(prog: Program, s: Both) {
    && SI.SysInv(prog, s.sys) && Inv(s.tree)
    && CallersOk(prog, s) && ParkedOk(prog, s) && LeavesAfter(prog, s) && DispatchOk(prog, s)
  }

  // ----- steps of the scheduler -----

  lemma NodeStepLaunches(prog: Program, s: Sys, r: nat, th: Thread, b: nat)
    requires Fits(prog, s) && r < prog.resources && b < |prog.tasks|
    ensures s.launches[b] <= StepNode(prog, s, r, th).launches[b]
  {
  }

  lemma LaunchesStay(prog: Program, s: Sys, who: Agent, b: nat)
    requires Fits(prog, s) && b < |prog.tasks|
    ensures s.launches[b] <= SysStep(prog, s, who).launches[b]
  {
    match who
    case Dispatcher =>
      if s.task < |prog.tasks| && s.stage.Register? && s.stage.acc < |prog.tasks[s.task]|
         && prog.tasks[s.task][s.stage.acc].res < prog.resources {
        NodeStepLaunches(prog, s, prog.tasks[s.task][s.stage.acc].res, Adder, b);
      }
    case Task(t) =>
      if t < |prog.tasks| && s.phase[t].Removing? && s.phase[t].acc < |prog.tasks[t]|
         && prog.tasks[t][s.phase[t].acc].res < prog.resources {
        var r := prog.tasks[t][s.phase[t].acc].res;
        NodeStepLaunches(prog, s, r, Remover(Pos(prog.tasks, t, r)), b);
      }
  }

  /** A task gets past its work only by the step that ends its writing. */
  lemma WorkEnds(prog: Program, s: Sys, who: Agent, b: nat)
    requires SI.Ok(prog, s) && b < |prog.tasks| && PastWork(SysStep(prog, s, who).phase[b])
    ensures PastWork(s.phase[b]) || (who == Task(b) && s.phase[b].Writing? && s.phase[b].acc >= |prog.tasks[b]|)
  {
  }

  /** A task's dispatch begins only by a step of the dispatcher at that task. */
  lemma DispatchBegins(prog: Program, s: Sys, who: Agent, b: nat)
    requires SI.Ok(prog, s) && b < |prog.tasks| && Dispatched(SysStep(prog, s, who), b)
    ensures Dispatched(s, b) || (who == Dispatcher && b == s.task)
  {
  }

  lemma WorkKeeps(prog: Program, s: Both, who: Agent)
    requires BothInv(prog, s)
    ensures BothInv(prog, Step(prog, s, Work(who)))
  {
    var s' := Step(prog, s, Work(who));
    SI.SysStepInv(prog, s.sys, who);
    forall b | 0 <= b < |prog.tasks|
      ensures s.sys.launches[b] <= s'.sys.launches[b]
      ensures IsBarrier(prog, b) && PastWork(s'.sys.phase[b]) ==> b in s'.parked
      ensures IsBarrier(prog, b) && Dispatched(s'.sys, b) ==> b in s'.caller
    {
      LaunchesStay(prog, s.sys, who, b);
      if s' != s && Dispatched(s'.sys, b) {
        DispatchBegins(prog, s.sys, who, b);
      }
      if s' != s && PastWork(s'.sys.phase[b]) {
        WorkEnds(prog, s.sys, who, b);
      }
    }
    forall f | 0 <= f < |s'.tree.frames| && s'.tree.frames[f].self == T.Parked
      ensures ParkedBy(prog, s', f)
    {
      assert ParkedBy(prog, s, f);
    }
  }

  // ----- steps of the task tree -----

  predicate Acts(e: T.Event, f: nat) {
    match e
    case Spawn(p, _, _) => p == f
    case Link(p) => p == f
    case Park(p) => p == f
    case Return(p) => p == f
    case _ => false
  }

  /** A frame that does nothing itself stays as it is, whatever the others do. */
  lemma StaysFree(t: T.Tree, e: T.Event, f: nat)
    requires Inv(t) && f < |t.frames| && T.Free(t.frames[f]) && !Acts(e, f)
    ensures f < |T.Step(t, e).frames| && T.Free(T.Step(t, e).frames[f])
  {
    if e.Walk? {
      WalkLeavesFree(t, f);
    } else if e.Destroy? && e.id < |t.frames| {
      DestroyLeavesFree(t, e.id, f);
    }
  }

  lemma WalkLeavesFree(t: T.Tree, f: nat)
    requires Inv(t) && f < |t.frames| && T.Free(t.frames[f])
    ensures f < |T.WalkStep(t).frames| && T.Free(T.WalkStep(t).frames[f])
  {
  }

  lemma DestroyLeavesFree(t: T.Tree, id: nat, f: nat)
    requires id < |t.frames| && f < |t.frames| && T.Free(t.frames[f])
    ensures f < |T.DestroyStep(t, id).frames| && T.Free(T.DestroyStep(t, id).frames[f])
  {
  }

  lemma StaysParked(t: T.Tree, e: T.Event, f: nat)
    requires !e.Park? && f < |T.Step(t, e).frames| && T.Step(t, e).frames[f].self == T.Parked
    ensures f < |t.frames| && t.frames[f].self == T.Parked
  {
    if e.Destroy? && e.id < |t.frames| {
      DestroyParksNobody(t, e.id, f);
    } else if e.Walk? {
      WalkParksNobody(t, f);
    }
  }

  lemma DestroyParksNobody(t: T.Tree, id: nat, f: nat)
    requires id < |t.frames| && f < |T.DestroyStep(t, id).frames|
    ensures f < |t.frames| && T.DestroyStep(t, id).frames[f].self == t.frames[f].self
  {
  }

  lemma WalkParksNobody(t: T.Tree, f: nat)
    requires f < |T.WalkStep(t).frames| && T.WalkStep(t).frames[f].self == T.Parked
    ensures f < |t.frames| && t.frames[f].self == T.Parked
  {
  }

  lemma FramesStay(t: T.Tree, e: T.Event)
    ensures |t.frames| <= |T.Step(t, e).frames|
  {
  }

  lemma LiveKeeps(prog: Program, s: Both, e: T.Event)
    requires BothInv(prog, s)
    ensures BothInv(prog, Step(prog, s, Live(e)))
  {
    var s' := Step(prog, s, Live(e));
    StepInv(s.tree, e);
    FramesStay(s.tree, e);
    if MayLive(s, e) {
      forall b | b in s.caller && b !in s.parked
        ensures T.Free(s'.tree.frames[s.caller[b]])
      {
        assert Suspended(s, s.caller[b]);
        StaysFree(s.tree, e, s.caller[b]);
      }
      forall f | 0 <= f < |s'.tree.frames| && s'.tree.frames[f].self == T.Parked
        ensures ParkedBy(prog, s', f)
      {
        StaysParked(s.tree, e, f);
        assert ParkedBy(prog, s, f);
      }
    }
  }

  // ----- awaiting and parking -----

  lemma AwaitKeeps(prog: Program, s: Both, f: nat)
    requires BothInv(prog, s)
    ensures BothInv(prog, Step(prog, s, Await(f)))
  {
    if MayAwait(prog, s, f) {
      AwaitKeepsCallers(prog, s, f);
      forall g | 0 <= g < |s.tree.frames| && s.tree.frames[g].self == T.Parked
        ensures ParkedBy(prog, Step(prog, s, Await(f)), g)
      {
        assert ParkedBy(prog, s, g);
      }
    }
  }

  lemma AwaitKeepsCallers(prog: Program, s: Both, f: nat)
    requires Fits(prog, s.sys) && CallersOk(prog, s) && MayAwait(prog, s, f)
    ensures CallersOk(prog, Step(prog, s, Await(f)))
  {
  }

  /** The body of a barrier finds its caller suspended, and appends it to the queue. */
  lemma ParkAppends(prog: Program, s: Both, b: nat)
    requires BothInv(prog, s) && MayPark(prog, s, b)
    ensures
      var s' := Step(prog, s, ParkCaller(b));
      && s'.tree.queue == s.tree.queue + [s.caller[b]]
      && s'.tree.frames == s.tree.frames[s.caller[b] := s.tree.frames[s.caller[b]].(self := T.Parked)]
  {
  }

  lemma ParkKeeps(prog: Program, s: Both, b: nat)
    requires BothInv(prog, s)
    ensures BothInv(prog, Step(prog, s, ParkCaller(b)))
  {
    if MayPark(prog, s, b) {
      var s' := Step(prog, s, ParkCaller(b));
      ParkAppends(prog, s, b);
      StepInv(s.tree, T.Park(s.caller[b]));
      assert SI.PhaseOk(prog, s.sys, b);
      forall f | 0 <= f < |s'.tree.frames| && s'.tree.frames[f].self == T.Parked
        ensures ParkedBy(prog, s', f)
      {
        if f != s.caller[b] {
          assert ParkedBy(prog, s, f);
        }
      }
    }
  }

  lemma MoveKeeps(prog: Program, s: Both, m: Move)
    requires BothInv(prog, s)
    ensures BothInv(prog, Step(prog, s, m))
  {
    match m
    case Work(who) => WorkKeeps(prog, s, who);
    case Live(e) => LiveKeeps(prog, s, e);
    case Await(f) => AwaitKeeps(prog, s, f);
    case ParkCaller(b) => ParkKeeps(prog, s, b);
  }

  lemma OrderStays(prog: Program, s: Both, m: Move)
    requires Fits(prog, s.sys)
    ensures Step(prog, s, m).tree.order == s.tree.order
  {
  }

  lemma {:induction false} ExecKeeps(prog: Program, s: Both, moves: seq<Move>)
    requires BothInv(prog, s)
    ensures BothInv(prog, Exec(prog, s, moves)) && Exec(prog, s, moves).tree.order == s.tree.order
    decreases |moves|
  {
    if moves != [] {
      MoveKeeps(prog, s, moves[0]);
      OrderStays(prog, s, moves[0]);
      ExecKeeps(prog, Step(prog, s, moves[0]), moves[1..]);
    }
  }

  /** Every joint run keeps the invariants of both machines and what ties them. */
  lemma JointRunInv(prog: Program, reading: CasReading, capacity: nat, order: T.ReadOrder, moves: seq<Move>)
    requires Valid(prog) && |prog.tasks| < capacity
    ensures
      var s := Exec(prog, Init(prog, reading, capacity, order), moves);
      BothInv(prog, s) && s.tree.order == order
  {
    SI.StartInv(prog, reading, capacity);
    InitInv(order);
    assert forall b :: 0 <= b < |prog.tasks| ==> Start(prog, reading, capacity).phase[b] == Waiting;
    ExecKeeps(prog, Init(prog, reading, capacity, order), moves);
  }

  // ----- who awaits which barrier -----

  /** The caller of a barrier is the frame that awaited it, when it was the next to be dispatched. */
  lemma {:induction false} CallerAwaited(prog: Program, s: Both, moves: seq<Move>, b: nat) returns (m: nat)
    requires Fits(prog, s.sys) && b !in s.caller && b in Exec(prog, s, moves).caller
    ensures m < |moves| && moves[m] == Await(Exec(prog, s, moves).caller[b])
    ensures Fits(prog, Exec(prog, s, moves[..m]).sys) && Exec(prog, s, moves[..m]).sys.task == b
    decreases |moves|
  {
    assert moves != [];
    var next := Step(prog, s, moves[0]);
    if b in next.caller {
      m := 0;
      CallerStays(prog, next, moves[1..], b);
    } else {
      m := CallerAwaited(prog, next, moves[1..], b);
      assert moves[..m + 1][1..] == moves[1..][..m];
      m := m + 1;
    }
  }

  lemma {:induction false} CallerStays(prog: Program, s: Both, moves: seq<Move>, b: nat)
    requires Fits(prog, s.sys) && b in s.caller
    ensures b in Exec(prog, s, moves).caller && Exec(prog, s, moves).caller[b] == s.caller[b]
    decreases |moves|
  {
    if moves != [] {
      CallerStays(prog, Step(prog, s, moves[0]), moves[1..], b);
    }
  }

  // ----- what a barrier guarantees -----

  /** Every earlier user of any resource of barrier b is past. */
  ghost predicate EarlierArePast(prog: Program, s: Sys, b: nat)
    requires Fits(prog, s) && b < |prog.tasks|
  {
    forall k, u, i ::
      0 <= k < |prog.tasks[b]| && 0 <= u < b && 0 <= i < |prog.tasks[u]| && prog.tasks[u][i].res == prog.tasks[b][k].res
      ==> IsPast(prog, s, u, i)
  }

  /** Every child that f dispatched, other than as finishing before f returns, is removed from its resources and has
      released f. */
  ghost predicate ChildrenHaveLeft(t: T.Tree, f: nat) {
    forall c :: 0 < c < |t.frames| && t.frames[c].creator == f && t.frames[c].linking ==>
                  Left(t.frames[c]) && t.frames[c].regs == 0
  }

  lemma ParkedIsBehind(prog: Program, s: Both, f: nat)
    requires BothInv(prog, s) && f < |s.tree.frames| && s.tree.frames[f].self == T.Parked
    ensures ParkedBy(prog, s, f) && EarlierArePast(prog, s.sys, s.parkedBy[f])
  {
    assert ParkedBy(prog, s, f);
    var b := s.parkedBy[f];
    forall k, u, i | 0 <= k < |prog.tasks[b]| && 0 <= u < b && 0 <= i < |prog.tasks[u]|
                     && prog.tasks[u][i].res == prog.tasks[b][k].res
      ensures IsPast(prog, s.sys, u, i)
    {
      LaunchedAfterEarlier(prog, s.sys, b, k, u, i);
    }
  }

  lemma ChildlessHaveLeft(t: T.Tree, f: nat)
    requires Inv(t) && f < |t.frames| && t.frames[f].self == T.Parked && KidCount(t.frames, f) == 0
    ensures ChildrenHaveLeft(t, f)
  {
    KidsNone(t.frames, f);
    forall c | 0 < c < |t.frames| && t.frames[c].creator == f && t.frames[c].linking
      ensures Left(t.frames[c]) && t.frames[c].regs == 0
    {
      assert FrameOk(t.frames[c]) && FrameOk(t.frames[f]) && PendingOk(t.frames, c);
    }
  }

  /** In every joint run, a coroutine parked at a barrier was parked by the launched barrier it awaited, and everything
      dispatched earlier on any resource of that barrier is past. */
  lemma ParkedAfterEverythingEarlier(prog: Program, reading: CasReading, capacity: nat, order: T.ReadOrder,
                                     moves: seq<Move>, f: nat)
    requires Valid(prog) && |prog.tasks| < capacity
    ensures
      var s := Exec(prog, Init(prog, reading, capacity, order), moves);
      f < |s.tree.frames| && s.tree.frames[f].self == T.Parked ==>
        ParkedBy(prog, s, f) && EarlierArePast(prog, s.sys, s.parkedBy[f])
  {
    JointRunInv(prog, reading, capacity, order, moves);
    var s := Exec(prog, Init(prog, reading, capacity, order), moves);
    if f < |s.tree.frames| && s.tree.frames[f].self == T.Parked {
      ParkedIsBehind(prog, s, f);
    }
  }

  /** In every joint run, whenever a coroutine is put back to continue after a barrier, everything dispatched earlier on
      any resource of that barrier is past, and its own children have left, unless the test read a set flag before the
      count and the coroutine's task object was dropped in between. */
  lemma ContinuesAfterEverything(prog: Program, reading: CasReading, capacity: nat, order: T.ReadOrder,
                                 moves: seq<Move>)
    requires Valid(prog) && |prog.tasks| < capacity
    ensures
      var s := Exec(prog, Init(prog, reading, capacity, order), moves);
      LT.Requeues(s.tree) ==>
        var f := LT.Caller(s.tree);
        && ParkedBy(prog, s, f) && EarlierArePast(prog, s.sys, s.parkedBy[f])
        && (order.CountFirst? || !LT.FlagWasRead(s.tree) || s.tree.frames[f].owner != T.Dropped ==>
              ChildrenHaveLeft(s.tree, f))
  {
    JointRunInv(prog, reading, capacity, order, moves);
    var s := Exec(prog, Init(prog, reading, capacity, order), moves);
    if LT.Requeues(s.tree) {
      var f := LT.Caller(s.tree);
      LT.CallerState(s.tree);
      ParkedIsBehind(prog, s, f);
      if KidCount(s.tree.frames, f) == 0 {
        ChildlessHaveLeft(s.tree, f);
      }
    }
  }

  /** In every joint run, a barrier at work has a caller, and its body finds it standing still and parks it as soon as
      the queue's lock is free; a barrier past its work has parked its caller. */
  lemma EveryBarrierParks(prog: Program, reading: CasReading, capacity: nat, order: T.ReadOrder, moves: seq<Move>,
                          b: nat)
    requires Valid(prog) && |prog.tasks| < capacity && IsBarrier(prog, b)
    ensures
      var s := Exec(prog, Init(prog, reading, capacity, order), moves);
      && (PastWork(s.sys.phase[b]) ==> b in s.parked)
      && (Active(prog, s.sys, b) && b !in s.parked ==>
            b in s.caller && s.caller[b] < |s.tree.frames| && T.Free(s.tree.frames[s.caller[b]]))
      && (Active(prog, s.sys, b) && b !in s.parked && s.tree.scan.NoScan? ==>
            Step(prog, s, ParkCaller(b)).tree.queue == s.tree.queue + [s.caller[b]])
  {
    JointRunInv(prog, reading, capacity, order, moves);
    var s := Exec(prog, Init(prog, reading, capacity, order), moves);
    assert SI.PhaseOk(prog, s.sys, b) && SI.CounterOk(prog, s.sys, b);
    if MayPark(prog, s, b) {
      ParkAppends(prog, s, b);
    }
  }
}
