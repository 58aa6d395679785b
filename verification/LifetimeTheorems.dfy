/** What the invariant of the task tree gives for every run. */
module LifetimeTheorems {
  import opened LifetimeInvariant
  import opened LifetimeMachine
  import opened Options

  ghost predicate Reachable(order: ReadOrder, t: Tree) {
    exists events: seq<Event> :: t == Run(order, events)
  }

  lemma ReachableInv(order: ReadOrder, t: Tree)
    requires Reachable(order, t)
    ensures Inv(t) && t.order == order
  {
    var events: seq<Event> :| t == Run(order, events);
    RunInv(order, events);
    OrderStays(order, events);
  }

  // ----- counters and frames -----

  /** The frames that hold a handle to p as their parent. */
  function Kids(frames: seq<Frame>, p: nat): set<nat> {
    set c | 0 <= c < |frames| && IsKid(frames[c], p)
  }

  lemma {:induction false} KidsAreCounted(frames: seq<Frame>, p: nat)
    ensures KidCount(frames, p) == |Kids(frames, p)|
  {
    if frames != [] {
      KidsAreCounted(frames[..|frames| - 1], p);
      LastKid(frames, p);
    }
  }

  lemma LastKid(frames: seq<Frame>, p: nat)
    requires frames != []
    ensures
      var n := |frames| - 1;
      var kids, fewer := Kids(frames, p), Kids(frames[..n], p);
      |kids| == |fewer| + One(IsKid(frames[n], p))
  {
    var n := |frames| - 1;
    var kids, fewer := Kids(frames, p), Kids(frames[..n], p);
    assert forall c :: c in fewer ==> frames[..n][c] == frames[c];
    assert kids == if IsKid(frames[n], p) then fewer + {n} else fewer;
  }

  /** A frame's counter is the number of handles to it: its own, its owner's, and one for each
      linked child whose handle to its parent has not been released. */
  lemma CounterCountsHandles(order: ReadOrder, t: Tree, p: nat)
    requires Reachable(order, t) && p < |t.frames|
    ensures t.frames[p].count == One(HoldsSelf(t.frames[p])) + One(HoldsOwner(t.frames[p]))
                                 + |Kids(t.frames, p)|
  {
    ReachableInv(order, t);
    assert CountOk(t.frames, p);
    KidsAreCounted(t.frames, p);
  }

  /** Whoever has a handle to a frame finds it alive: a frame is alive while it runs, while its owner can still read its
      result, and while a child of it has not released it. The owner only reads a result that has been stored. */
  lemma NoUseAfterFree(order: ReadOrder, t: Tree, f: nat)
    requires Reachable(order, t) && f < |t.frames|
    ensures HoldsSelf(t.frames[f]) || HoldsOwner(t.frames[f]) ==> t.frames[f].phase == Alive
    ensures t.frames[f].owner.Reading? ==> !Unfinished(t.frames[f])
    ensures forall p :: 0 <= p < |t.frames| && IsKid(t.frames[f], p) ==> t.frames[p].phase == Alive
  {
    ReachableInv(order, t);
    assert FrameOk(t.frames[f]);
    if HoldsSelf(t.frames[f]) || HoldsOwner(t.frames[f]) {
      HandleKeepsAlive(t.frames, f);
    }
    forall p | 0 <= p < |t.frames| && IsKid(t.frames[f], p)
      ensures t.frames[p].phase == Alive
    {
      KidKeepsAlive(t.frames, f, p);
    }
  }

  /** A task removes itself from its resources only after its final suspend, and all of its linked children have been
      removed from theirs and have released it before that. Their own memory may be freed only later: the parent may be
      destroyed from inside the destructor of the last child that releases it. */
  lemma ChildrenLeaveFirst(order: ReadOrder, t: Tree, p: nat, c: nat)
    requires Reachable(order, t) && p < |t.frames| && c < |t.frames| && t.frames[p].phase != Alive
    ensures t.frames[p].self != Running && t.frames[p].self != Parked && t.frames[p].owner == Dropped
    ensures t.frames[c].parent == Some(p) ==> Left(t.frames[c]) && t.frames[c].regs == 0
  {
    ReachableInv(order, t);
    assert FrameOk(t.frames[p]) && FrameOk(t.frames[c]) && CountOk(t.frames, p);
    KidsNone(t.frames, p);
  }

  // ----- the root's wait -----

  /** c was dispatched, other than as finishing before its creator, by the root or by such a descendant of it. */
  predicate Descends(frames: seq<Frame>, c: nat)
    decreases c
  {
    && 0 < c < |frames| && frames[c].linking
    && (frames[c].creator == 0 || (frames[c].creator < c && Descends(frames, frames[c].creator)))
  }

  /** A frame whose own handle is gone and whose counter leaves no room for children has only children that
      have released it. */
  lemma ChildOfIdle(frames: seq<Frame>, c: nat)
    requires 0 < c < |frames| && FramesInv(frames) && frames[c].linking
    requires frames[c].creator < |frames| && !HoldsSelf(frames[frames[c].creator])
    requires KidCount(frames, frames[c].creator) == 0
    ensures Left(frames[c]) && frames[c].regs == 0
  {
    var p := frames[c].creator;
    assert FrameOk(frames[c]) && FrameOk(frames[p]) && PendingOk(frames, c);
    KidsNone(frames, p);
  }

  lemma LeftIsIdle(frames: seq<Frame>, p: nat)
    requires p < |frames| && FramesInv(frames) && Left(frames[p])
    ensures !HoldsSelf(frames[p]) && KidCount(frames, p) == 0
  {
    assert FrameOk(frames[p]) && CountOk(frames, p);
  }

  lemma {:induction false} DescendantsHaveLeft(frames: seq<Frame>, c: nat)
    requires FramesInv(frames) && Descends(frames, c)
    requires !HoldsSelf(frames[0]) && KidCount(frames, 0) == 0
    ensures Left(frames[c]) && frames[c].regs == 0
    decreases c
  {
    if frames[c].creator != 0 {
      DescendantsHaveLeft(frames, frames[c].creator);
      LeftIsIdle(frames, frames[c].creator);
    }
    ChildOfIdle(frames, c);
  }

  /** The root's wait loop has seen no handle but its own. */
  predicate WaitIsOver(t: Tree) {
    |t.frames| > 0 && t.frames[0].owner == Held && t.frames[0].count <= 1
  }

  /** When the root's wait loop ends, every descendant is removed from every resource and has released its parent; only
      the freeing of its memory may still be under way. */
  lemma RootWaitsForAll(order: ReadOrder, t: Tree, c: nat)
    requires Reachable(order, t) && WaitIsOver(t) && Descends(t.frames, c)
    ensures Left(t.frames[c]) && t.frames[c].regs == 0
  {
    ReachableInv(order, t);
    assert CountOk(t.frames, 0) && FrameOk(t.frames[0]);
    DescendantsHaveLeft(t.frames, c);
  }

  /** A state in which the wait is over and a descendant's memory has not been freed yet. */
  lemma WaitEndsBeforeFreeing(order: ReadOrder) returns (t: Tree)
    ensures Reachable(order, t) && WaitIsOver(t) && |t.frames| == 2 && Descends(t.frames, 1)
    ensures t.frames[1].phase == Released && t.frames[0].self == Gone
  {
    t := ChildReturns(order);
    t := RootReturns(order, t);
  }

  /** A child runs to its end and is destroyed as far as the release of its parent. */
  lemma ChildReturns(order: ReadOrder) returns (t: Tree)
    ensures Reachable(order, t) && |t.frames| == 2 && t.frames[0] == NewFrame(0, 0, false).(count := 3)
    ensures t.frames[1].parent == Some(0) && t.frames[1].phase == Releasing && t.frames[1].linking
    ensures t.frames[1].creator == 0
  {
    t := Init(order);
    InitReachable(order);
    Dispatches(order, t, 0);
    t := Dispatched(t, 0);
    StepReaches(order, t, Drop(1));
    t := Step(t, Drop(1));
    StepReaches(order, t, OwnerMove(1));
    t := Step(t, OwnerMove(1));
    t := ReturnsAlone(order, t, 1);
    assert t.frames[1].phase == Deregistering && t.frames[1].regs == 0;
    StepReaches(order, t, Destroy(1));
    t := Step(t, Destroy(1));
  }

  /** A frame that nobody awaits returns and resets its own handle. */
  lemma ReturnsAlone(order: ReadOrder, t: Tree, id: nat) returns (t': Tree)
    requires Reachable(order, t) && id < |t.frames| && Free(t.frames[id]) && t.frames[id].working == 1
    ensures Reachable(order, t')
    ensures t'.frames == t.frames[id := Release(t.frames[id]).(self := Gone, working := 0)]
  {
    StepReaches(order, t, Return(id));
    var a := Step(t, Return(id));
    StepReaches(order, a, SelfMove(id));
    var b := Step(a, SelfMove(id));
    StepReaches(order, b, SelfMove(id));
    t' := Step(b, SelfMove(id));
    ReturnFrames(t, id);
  }

  lemma SelfMoveFrames(t: Tree, id: nat)
    requires id < |t.frames|
    ensures Step(t, SelfMove(id)).frames == t.frames[id := SelfStep(t.frames[id])]
  {
  }

  lemma ReturnFrames(t: Tree, id: nat)
    requires id < |t.frames| && Free(t.frames[id]) && t.frames[id].working == 1
    ensures Step(Step(Step(t, Return(id)), SelfMove(id)), SelfMove(id)).frames ==
            t.frames[id := Release(t.frames[id]).(self := Gone, working := 0)]
  {
    var a := Step(t, Return(id));
    SelfMoveFrames(a, id);
    SelfMoveFrames(Step(a, SelfMove(id)), id);
    assert a.frames == t.frames[id := t.frames[id].(self := Returned)];
  }

  lemma RootReturns(order: ReadOrder, t: Tree) returns (t': Tree)
    requires Reachable(order, t) && |t.frames| == 2 && t.frames[0] == NewFrame(0, 0, false).(count := 3)
    requires t.frames[1].parent == Some(0) && t.frames[1].phase == Releasing && t.frames[1].linking
    requires t.frames[1].creator == 0
    ensures Reachable(order, t') && WaitIsOver(t') && |t'.frames| == 2 && Descends(t'.frames, 1)
    ensures t'.frames[1].phase == Released && t'.frames[0].self == Gone
  {
    var m := ReturnsAlone(order, t, 0);
    StepReaches(order, m, Destroy(1));
    t' := Step(m, Destroy(1));
  }

  lemma InitReachable(order: ReadOrder)
    ensures Reachable(order, Init(order))
  {
    assert Init(order) == Run(order, []);
  }

  // ----- destroyed once -----

  function Rank(phase: Phase): nat {
    match phase
    case Alive => 0
    case Deregistering => 1
    case Releasing => 2
    case Released => 3
    case Freed => 4
  }

  predicate Later(f: Frame, g: Frame) {
    && Rank(f.phase) <= Rank(g.phase)
    && (f.phase != Alive ==> g.regs <= f.regs && g.count == 0)
  }

  lemma FrameLater(t: Tree, e: Event, f: nat)
    requires Inv(t) && (e.Drop? || e.Get? || e.Synchronous? || e.OwnerMove? || e.Return? || e.SelfMove?)
    requires f < |t.frames|
    ensures f < |Step(t, e).frames| && Later(t.frames[f], Step(t, e).frames[f])
  {
    assert FrameOk(t.frames[f]);
    if HoldsSelf(t.frames[f]) || HoldsOwner(t.frames[f]) {
      HandleKeepsAlive(t.frames, f);
    }
  }

  lemma DispatchLater(t: Tree, e: Event, f: nat)
    requires Inv(t) && (e.Spawn? || e.Link?) && f < |t.frames|
    ensures f < |Step(t, e).frames| && Later(t.frames[f], Step(t, e).frames[f])
  {
    assert FrameOk(t.frames[f]) && BusyOk(t.frames, f);
    if HoldsSelf(t.frames[f]) || HoldsOwner(t.frames[f]) {
      HandleKeepsAlive(t.frames, f);
    }
  }

  lemma DestroyLater(t: Tree, id: nat, f: nat)
    requires Inv(t) && id < |t.frames| && f < |t.frames|
    ensures f < |DestroyStep(t, id).frames| && Later(t.frames[f], DestroyStep(t, id).frames[f])
  {
    assert FrameOk(t.frames[f]) && FrameOk(t.frames[id]);
    if t.frames[id].phase == Releasing && t.frames[id].parent.Some? {
      KidKeepsAlive(t.frames, id, t.frames[id].creator);
    }
  }

  lemma OtherLater(t: Tree, e: Event, f: nat)
    requires Inv(t) && (e.Park? || e.Destroy? || e.Walk?) && f < |t.frames|
    ensures f < |Step(t, e).frames| && Later(t.frames[f], Step(t, e).frames[f])
  {
    assert FrameOk(t.frames[f]);
    if e.Destroy? && e.id < |t.frames| {
      DestroyLater(t, e.id, f);
    }
  }

  lemma StepLater(t: Tree, e: Event, f: nat)
    requires Inv(t) && f < |t.frames|
    ensures f < |Step(t, e).frames| && Later(t.frames[f], Step(t, e).frames[f])
  {
    if e.Spawn? || e.Link? {
      DispatchLater(t, e, f);
    } else if e.Park? || e.Destroy? || e.Walk? {
      OtherLater(t, e, f);
    } else {
      FrameLater(t, e, f);
    }
  }

  predicate LaterIn(t: Tree, t': Tree, f: nat) {
    f < |t.frames| && f < |t'.frames| && Later(t.frames[f], t'.frames[f])
  }

  lemma LaterSelf(order: ReadOrder, events: seq<Event>, f: nat)
    requires f < |Run(order, events).frames|
    ensures LaterIn(Run(order, events), Run(order, events), f)
  {
    RunInv(order, events);
    assert FrameOk(Run(order, events).frames[f]);
  }

  lemma RunLater(order: ReadOrder, events: seq<Event>, e: Event, f: nat)
    requires f < |Run(order, events).frames|
    ensures LaterIn(Run(order, events), Run(order, events + [e]), f)
  {
    RunInv(order, events);
    RunOn(order, events, e);
    StepLater(Run(order, events), e, f);
  }

  lemma LaterInTransitive(a: Tree, b: Tree, c: Tree, f: nat)
    requires LaterIn(a, b, f) && LaterIn(b, c, f)
    ensures LaterIn(a, c, f)
  {
  }

  /** Destruction happens once: a frame's phase only ever advances, its counter never leaves zero again, and no
      registration comes back. */
  lemma {:induction false} DestroyedOnce(order: ReadOrder, earlier: seq<Event>, more: seq<Event>, f: nat)
    requires f < |Run(order, earlier).frames|
    ensures LaterIn(Run(order, earlier), Run(order, earlier + more), f)
    decreases |more|
  {
    if more == [] {
      assert earlier + more == earlier;
      LaterSelf(order, earlier, f);
    } else {
      var n := |more| - 1;
      assert earlier + more == (earlier + more[..n]) + [more[n]];
      DestroyedOnce(order, earlier, more[..n], f);
      RunLater(order, earlier + more[..n], more[n], f);
      LaterInTransitive(Run(order, earlier), Run(order, earlier + more[..n]), Run(order, earlier + more), f);
    }
  }

  // ----- continuations -----

  /** An awaiting coroutine is continued exactly once. While it is suspended, exactly one party has it to resume: the
      unfinished task, through the continuation stored before the CAS, or the task's final suspend, carrying that
      same continuation. Nothing resumes a coroutine that is not suspended, and none is left behind. */
  lemma ContinuedExactlyOnce(order: ReadOrder, t: Tree, f: nat)
    requires Reachable(order, t) && f < |t.frames|
    ensures !t.broken
    ensures
      var g := t.frames[f];
      && (g.owner.Suspended? ==>
           && g.cont == Some(g.owner.w)
           && (Unfinished(g) || g.self == Resetting(g.cont) || g.self == Resuming(g.owner.w)))
      && (g.self.Resuming? ==> g.owner == Suspended(g.self.w))
      && (g.self == Gone ==> !g.owner.Suspended?)
  {
    ReachableInv(order, t);
    assert FrameOk(t.frames[f]);
  }

  // ----- the barrier -----

  /** The next walk step puts a parked caller back on a worker's queue. */
  predicate Requeues(t: Tree) {
    match t.scan
    case CountRead(i, count) =>
      i < |t.queue| && t.queue[i] < |t.frames| && Ready(count, t.frames[t.queue[i]].outside)
    case FlagRead(i, outside) =>
      i < |t.queue| && t.queue[i] < |t.frames| && Ready(t.frames[t.queue[i]].count, outside)
    case _ => false
  }

  /** The worker has read the flag and found it set. */
  predicate FlagWasRead(t: Tree) {
    t.scan.FlagRead? && t.scan.outside
  }

  function Caller(t: Tree): nat
    requires Requeues(t)
  {
    t.queue[t.scan.i]
  }

  lemma CallerState(t: Tree)
    requires Inv(t) && Requeues(t)
    ensures var f := t.frames[Caller(t)];
            && f.self == Parked && f.count == 1 + One(HoldsOwner(f)) + KidCount(t.frames, Caller(t))
            && (f.outside <==> f.owner != Cleared && f.owner != Dropped)
  {
    assert FrameOk(t.frames[Caller(t)]) && CountOk(t.frames, Caller(t));
  }

  /** Reading the count before the flag: a parked caller is put back only when it has no live child. */
  lemma CountFirstIsSafe(t: Tree)
    requires Reachable(CountFirst, t) && Requeues(t)
    ensures KidCount(t.frames, Caller(t)) == 0
  {
    ReachableInv(CountFirst, t);
    CallerState(t);
  }

  /** Reading the flag before the count: the caller put back has no live child exactly when its task object was not
      dropped between a flag read as set and the count; otherwise it has one. */
  lemma FlagFirstExactly(t: Tree)
    requires Reachable(FlagFirst, t) && Requeues(t)
    ensures KidCount(t.frames, Caller(t)) == One(FlagWasRead(t) && t.frames[Caller(t)].owner == Dropped)
  {
    ReachableInv(FlagFirst, t);
    CallerState(t);
  }

  lemma {:induction false} OrderStays(order: ReadOrder, events: seq<Event>)
    ensures Run(order, events).order == order
  {
    if events != [] {
      OrderStays(order, events[..|events| - 1]);
    }
  }

  /** A parked caller without live children passes the test, unless its task object is being dropped meanwhile. */
  lemma ChildlessIsReady(order: ReadOrder, t: Tree, f: nat)
    requires Reachable(order, t) && f < |t.frames| && t.frames[f].self == Parked && t.frames[f].owner != Cleared
    ensures Ready(t.frames[f].count, t.frames[f].outside) <==> KidCount(t.frames, f) == 0
  {
    ReachableInv(order, t);
    assert FrameOk(t.frames[f]) && CountOk(t.frames, f);
  }

  /** The barrier queue holds exactly the parked callers, each once; putting one back keeps the others in order. */
  lemma QueueHoldsTheParked(order: ReadOrder, t: Tree)
    requires Reachable(order, t)
    ensures forall f :: 0 <= f < |t.frames| ==> (t.frames[f].self == Parked <==> f in t.queue)
    ensures forall i, j :: 0 <= i < j < |t.queue| ==> t.queue[i] != t.queue[j]
    ensures Requeues(t) ==>
              && WalkStep(t).frames[Caller(t)].self == Running && Caller(t) !in WalkStep(t).queue
              && WalkStep(t).queue == t.queue[..t.scan.i] + t.queue[t.scan.i + 1..]
  {
    ReachableInv(order, t);
  }

  lemma StepReaches(order: ReadOrder, t: Tree, e: Event)
    requires Reachable(order, t)
    ensures Reachable(order, Step(t, e))
  {
    var events: seq<Event> :| t == Run(order, events);
    RunOn(order, events, e);
  }

  /** A dispatch by a free frame: the child exists and holds its parent. */
  function Dispatched(t: Tree, p: nat): Tree
    requires p < |t.frames|
  {
    t.(frames := t.frames[p := t.frames[p].(count := t.frames[p].count + 1)]
                 + [NewFrame(p, 0, true).(parent := Some(p), linkPending := false)])
  }

  lemma SpawnThenLink(t: Tree, p: nat)
    requires p < |t.frames| && Free(t.frames[p])
    ensures Step(Step(t, Spawn(p, 0, true)), Link(p)) == Dispatched(t, p)
  {
  }

  lemma Dispatches(order: ReadOrder, t: Tree, p: nat)
    requires Reachable(order, t) && p < |t.frames| && Free(t.frames[p])
    ensures Reachable(order, Dispatched(t, p))
  {
    StepReaches(order, t, Spawn(p, 0, true));
    StepReaches(order, Step(t, Spawn(p, 0, true)), Link(p));
    SpawnThenLink(t, p);
  }

  /** A frame parks and the worker reads its flag. */
  function ParkedAndRead(t: Tree): Tree
    requires |t.frames| > 1
  {
    t.(frames := t.frames[1 := t.frames[1].(self := Parked)], queue := [1], scan := FlagRead(0, t.frames[1].outside))
  }

  lemma ParkThenRead(t: Tree)
    requires Reachable(FlagFirst, t) && |t.frames| > 1 && t.queue == [] && t.scan == NoScan && t.order == FlagFirst
    requires Free(t.frames[1])
    ensures Reachable(FlagFirst, ParkedAndRead(t))
  {
    var a := t.(frames := t.frames[1 := t.frames[1].(self := Parked)], queue := [1]);
    StepReaches(FlagFirst, t, Park(1));
    assert Step(t, Park(1)) == a;
    StepReaches(FlagFirst, a, Walk);
    StepReaches(FlagFirst, a.(scan := Next(0)), Walk);
  }

  /** Then its task object is dropped while it has a child. */
  lemma DropThenReady(t: Tree) returns (t': Tree)
    requires Reachable(FlagFirst, t) && |t.frames| > 1 && t.queue == [1] && t.scan == FlagRead(0, true)
    requires MayAwait(t.frames[1]) && t.frames[1].count == 3
    ensures Reachable(FlagFirst, t') && Requeues(t') && Caller(t') == 1
    ensures |t'.frames| == |t.frames| && forall c :: 0 <= c < |t.frames| && c != 1 ==> t'.frames[c] == t.frames[c]
  {
    var a := t.(frames := t.frames[1 := Dropping(t.frames[1])]);
    StepReaches(FlagFirst, t, Drop(1));
    assert Step(t, Drop(1)) == a;
    StepReaches(FlagFirst, a, OwnerMove(1));
    t' := Step(a, OwnerMove(1));
  }

  /** A run in which reading the flag first puts a caller back whose child is alive: task 1 parks with child 2; the
      worker reads the flag; the object of task 1 is dropped; the worker reads the count. */
  lemma FlagFirstCanFail() returns (t: Tree)
    ensures Reachable(FlagFirst, t) && Requeues(t) && Caller(t) == 1 && |t.frames| == 3
    ensures t.frames[2].parent == Some(1) && t.frames[2].phase == Alive && t.frames[2].self == Running
  {
    t := Init(FlagFirst);
    InitReachable(FlagFirst);
    Dispatches(FlagFirst, t, 0);
    t := Dispatched(t, 0);
    Dispatches(FlagFirst, t, 1);
    t := Dispatched(t, 1);
    ParkThenRead(t);
    t := ParkedAndRead(t);
    t := DropThenReady(t);
  }

  lemma RunOn(order: ReadOrder, events: seq<Event>, e: Event)
    ensures Run(order, events + [e]) == Step(Run(order, events), e)
  {
    assert (events + [e])[..|events|] == events;
  }
}
