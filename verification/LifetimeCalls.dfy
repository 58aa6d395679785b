/** What was asked of the task tree, read off the events, against what the frames do: which dispatch created a frame,
    who awaits it and goes on, and whom a pass over the barrier queue reaches.
 */
module LifetimeCalls {
  import opened LifetimeInvariant
  import opened LifetimeMachine
  import opened LifetimeTheorems
  import opened Options

  lemma RunLast(order: ReadOrder, events: seq<Event>)
    requires events != []
    ensures var n := |events| - 1; Run(order, events) == Step(Run(order, events[..n]), events[n])
  {
  }

  // ----- dispatches -----

  /** What no step changes about a frame, and how its registrations go: one at a time, once it is being destroyed. */
  predicate Same(f: Frame, g: Frame, destroyed: bool) {
    && g.creator == f.creator && g.linking == f.linking
    && (g.phase == Alive ==> f.phase == Alive)
    && (g.regs == f.regs || (destroyed && f.phase == Deregistering && g.regs == f.regs - 1))
  }

  lemma OwnerSame(f: Frame)
    ensures Same(f, OwnerStep(f), false) && Same(f, SelfStep(f), false)
  {
  }

  lemma DestroySame(t: Tree, id: nat, f: nat)
    requires id < |t.frames| && f < |t.frames|
    ensures f < |DestroyStep(t, id).frames| && Same(t.frames[f], DestroyStep(t, id).frames[f], id == f)
  {
  }

  lemma StepSame(t: Tree, e: Event, f: nat)
    requires f < |t.frames|
    ensures f < |Step(t, e).frames| && Same(t.frames[f], Step(t, e).frames[f], e == Destroy(f))
  {
    OwnerSame(t.frames[f]);
    if e.Destroy? && e.id < |t.frames| {
      DestroySame(t, e.id, f);
    } else if e.Walk? {
      WalkSame(t, f);
    }
  }

  lemma WalkSame(t: Tree, f: nat)
    requires f < |t.frames|
    ensures f < |WalkStep(t).frames| && Same(t.frames[f], WalkStep(t).frames[f], false)
  {
  }

  lemma StepCreates(t: Tree, e: Event)
    ensures |t.frames| <= |Step(t, e).frames| <= |t.frames| + 1
    ensures |Step(t, e).frames| > |t.frames| ==>
              && e.Spawn? && e.p < |t.frames| && Free(t.frames[e.p])
              && Step(t, e).frames[|t.frames|] == NewFrame(e.p, e.regs, e.linking)
  {
  }

  /** Event m is the dispatch that created frame c. */
  ghost predicate CreatedBy(order: ReadOrder, events: seq<Event>, c: nat, m: nat) {
    && m < |events| && events[m].Spawn?
    && |Run(order, events[..m]).frames| == c && |Run(order, events[..m + 1]).frames| == c + 1
  }

  lemma CreatedBefore(order: ReadOrder, events: seq<Event>, c: nat, m: nat)
    requires events != [] && CreatedBy(order, events[..|events| - 1], c, m)
    ensures CreatedBy(order, events, c, m)
  {
    var n := |events| - 1;
    assert events[..n][..m] == events[..m] && events[..n][..m + 1] == events[..m + 1];
  }

  /** Every frame but the root's was created by one dispatch, has its creator and its way of returning from there, and
      is registered with as many resources as that dispatch asked for until it is destroyed. */
  lemma {:induction false} FrameWasDispatched(order: ReadOrder, events: seq<Event>, c: nat) returns (m: nat)
    requires 0 < c < |Run(order, events).frames|
    ensures CreatedBy(order, events, c, m)
    ensures
      var f := Run(order, events).frames[c];
      && f.creator == events[m].p && f.linking == events[m].linking
      && (f.phase == Alive ==> f.regs == events[m].regs)
    decreases |events|
  {
    assert events != [];
    var n := |events| - 1;
    var before := Run(order, events[..n]);
    RunLast(order, events);
    StepCreates(before, events[n]);
    if c < |before.frames| {
      m := FrameWasDispatched(order, events[..n], c);
      CreatedBefore(order, events, c, m);
      StepSame(before, events[n], c);
      AliveKeepsRegs(before, events[n], c);
    } else {
      m := n;
      assert events[..n + 1] == events;
    }
  }

  lemma AliveKeepsRegs(t: Tree, e: Event, f: nat)
    requires f < |t.frames|
    ensures f < |Step(t, e).frames|
    ensures Step(t, e).frames[f].phase == Alive ==>
              t.frames[f].phase == Alive && Step(t, e).frames[f].regs == t.frames[f].regs
  {
    StepSame(t, e, f);
  }

  /** At any step a frame loses at most one registration, and only by its own destruction. */
  lemma LeavesOneByOne(t: Tree, e: Event, f: nat)
    requires f < |t.frames|
    ensures f < |Step(t, e).frames|
    ensures var before, after := t.frames[f], Step(t, e).frames[f];
            after.regs == before.regs ||
            (after.regs == before.regs - 1 && e == Destroy(f) && before.phase == Deregistering)
  {
    StepSame(t, e, f);
  }

  // ----- awaiting -----

  /** Coroutine w awaits the frame and has not read its result yet. */
  predicate AwaitedBy(o: Owner, w: nat) {
    o == Storing(w) || o == Casing(w) || o == Suspended(w) || o == Reading(w)
  }

  function AwaitRank(o: Owner): nat {
    match o
    case Storing(_) => 4
    case Casing(_) => 3
    case Suspended(_) => 2
    case Reading(_) => 1
    case _ => 0
  }

  /** The owner's side of a frame changes only by its own steps, by the final suspend that resumes it, and by the event
      that begins an await or a drop. */
  lemma OwnerStays(t: Tree, e: Event, f: nat)
    requires f < |t.frames| && e != OwnerMove(f) && e != SelfMove(f)
    requires !(e.Drop? && e.id == f) && !(e.Get? && e.id == f) && !(e.Synchronous? && e.id == f)
    ensures f < |Step(t, e).frames| && Step(t, e).frames[f].owner == t.frames[f].owner
  {
    if e.Destroy? && e.id < |t.frames| {
      DestroyKeepsOwner(t, e.id, f);
    } else if e.Walk? {
      WalkKeepsOwner(t, f);
    }
  }

  lemma DestroyKeepsOwner(t: Tree, id: nat, f: nat)
    requires id < |t.frames| && f < |t.frames|
    ensures f < |DestroyStep(t, id).frames| && DestroyStep(t, id).frames[f].owner == t.frames[f].owner
  {
  }

  lemma WalkKeepsOwner(t: Tree, f: nat)
    requires f < |t.frames|
    ensures f < |WalkStep(t).frames| && WalkStep(t).frames[f].owner == t.frames[f].owner
  {
  }

  /** A coroutine awaits only because it asked to, by the event that named it. */
  lemma AwaitBegins(t: Tree, e: Event, f: nat, w: nat)
    requires Inv(t) && f < |t.frames| && f < |Step(t, e).frames| && AwaitedBy(Step(t, e).frames[f].owner, w)
    ensures AwaitedBy(t.frames[f].owner, w)
            || (t.frames[f].owner == Held && (e == Get(f, w) || e == Synchronous(f, w)))
  {
    assert FrameOk(t.frames[f]);
    if e == OwnerMove(f) || e == SelfMove(f) || (e.Drop? && e.id == f) || (e.Get? && e.id == f)
       || (e.Synchronous? && e.id == f) {
      OwnAwaitBegins(t, e, f, w);
    } else {
      OwnerStays(t, e, f);
    }
  }

  lemma OwnAwaitBegins(t: Tree, e: Event, f: nat, w: nat)
    requires f < |t.frames| && f < |Step(t, e).frames| && AwaitedBy(Step(t, e).frames[f].owner, w)
    requires e == OwnerMove(f) || e == SelfMove(f) || (e.Drop? && e.id == f) || (e.Get? && e.id == f)
             || (e.Synchronous? && e.id == f)
    ensures AwaitedBy(t.frames[f].owner, w)
            || (t.frames[f].owner == Held && (e == Get(f, w) || e == Synchronous(f, w)))
  {
  }

  predicate AwaitedIn(t: Tree, f: nat, w: nat) {
    f < |t.frames| && AwaitedBy(t.frames[f].owner, w)
  }

  /** Event m began the await of f by w that is still going on. */
  ghost predicate AwaitsSince(order: ReadOrder, events: seq<Event>, f: nat, w: nat, m: nat) {
    && m < |events| && (events[m] == Get(f, w) || events[m] == Synchronous(f, w))
    && forall j :: m < j <= |events| ==> AwaitedIn(Run(order, events[..j]), f, w)
  }

  lemma AwaitsOn(order: ReadOrder, events: seq<Event>, f: nat, w: nat, m: nat)
    requires events != [] && AwaitsSince(order, events[..|events| - 1], f, w, m)
    requires AwaitedIn(Run(order, events), f, w)
    ensures AwaitsSince(order, events, f, w, m)
  {
    var n := |events| - 1;
    forall j | m < j <= |events|
      ensures AwaitedIn(Run(order, events[..j]), f, w)
    {
      if j <= n {
        assert events[..n][..j] == events[..j];
      } else {
        assert events[..j] == events;
      }
    }
  }

  lemma LastAwait(order: ReadOrder, events: seq<Event>, f: nat, w: nat)
    requires AwaitedIn(Run(order, events), f, w)
    ensures events != []
    ensures
      var n := |events| - 1;
      || AwaitedIn(Run(order, events[..n]), f, w)
      || ((events[n] == Get(f, w) || events[n] == Synchronous(f, w)) && events[..n + 1] == events)
  {
    assert events != [];
    var n := |events| - 1;
    RunLast(order, events);
    RunInv(order, events[..n]);
    StepCreates(Run(order, events[..n]), events[n]);
    AwaitBegins(Run(order, events[..n]), events[n], f, w);
  }

  /** The coroutine that awaits a frame, whether about to suspend, suspended or resumed, is the one that asked for the
      frame's result, and it has been awaiting ever since. */
  lemma {:induction false} AwaiterAsked(order: ReadOrder, events: seq<Event>, f: nat, w: nat) returns (m: nat)
    requires AwaitedIn(Run(order, events), f, w)
    ensures AwaitsSince(order, events, f, w, m)
    decreases |events|
  {
    LastAwait(order, events, f, w);
    var n := |events| - 1;
    if AwaitedIn(Run(order, events[..n]), f, w) {
      m := AwaiterAsked(order, events[..n], f, w);
      AwaitsOn(order, events, f, w, m);
    } else {
      m := n;
    }
  }

  /** An await is given up by nobody: whatever happens, the coroutine goes on awaiting, no further from its end, until
      it has read the result by a step of its own. */
  lemma AwaitGoesOn(t: Tree, e: Event, f: nat, w: nat)
    requires Inv(t) && f < |t.frames| && AwaitedBy(t.frames[f].owner, w)
    ensures f < |Step(t, e).frames|
    ensures
      var o, o' := t.frames[f].owner, Step(t, e).frames[f].owner;
      || (AwaitedBy(o', w) && AwaitRank(o') <= AwaitRank(o))
      || (o == Reading(w) && e == OwnerMove(f) && o' == Cleared && !Unfinished(t.frames[f]))
  {
    assert FrameOk(t.frames[f]);
    if e != OwnerMove(f) && e != SelfMove(f) && !(e.Drop? && e.id == f) && !(e.Get? && e.id == f)
       && !(e.Synchronous? && e.id == f) {
      OwnerStays(t, e, f);
    }
  }

  function SelfRank(s: Self): nat {
    match s
    case Returned => 3
    case Resetting(_) => 2
    case Resuming(_) => 1
    case _ => 0
  }

  /** Nobody is left waiting. An awaiting coroutine that is not suspended gets nearer to the result by each step of its
      own: if its exchange fails, because the task has returned meanwhile, it goes on to read the stored result. A
      suspended one waits for a task that is still at work, or each step of that task's final suspend gets nearer to
      resuming it. */
  lemma AwaiterGoesOn(order: ReadOrder, t: Tree, f: nat, w: nat)
    requires Reachable(order, t) && f < |t.frames| && AwaitedBy(t.frames[f].owner, w)
    ensures
      var g, own, other := t.frames[f], Step(t, OwnerMove(f)).frames[f], Step(t, SelfMove(f)).frames[f];
      && (!g.owner.Suspended? ==> AwaitRank(own.owner) < AwaitRank(g.owner))
      && (g.owner == Casing(w) && !Unfinished(g) ==> own.owner == Reading(w))
      && (g.owner == Suspended(w) ==>
           || g.self == Running || g.self == Parked
           || other.owner == Reading(w)
           || (other.owner == Suspended(w) && SelfRank(other.self) < SelfRank(g.self)))
  {
    ReachableInv(order, t);
    assert FrameOk(t.frames[f]);
  }

  // ----- a pass over the barrier queue -----

  /** The next walk step decides about the caller f. */
  predicate Tests(t: Tree, f: nat) {
    && (t.scan.CountRead? || t.scan.FlagRead?)
    && t.scan.i < |t.queue| && t.queue[t.scan.i] == f
  }

  ghost predicate TestedSince(order: ReadOrder, events: seq<Event>, b: nat, f: nat) {
    exists m :: b <= m < |events| && events[m] == Walk && Tests(Run(order, events[..m]), f)
  }

  /** Event b began a pass that is still going on. */
  ghost predicate PassSince(order: ReadOrder, events: seq<Event>, b: nat) {
    && b < |events| && events[b] == Walk && Run(order, events[..b]).scan == NoScan
    && forall j :: b < j <= |events| ==> Run(order, events[..j]).scan != NoScan
  }

  /** During a pass nothing but the walk changes queue or scan. */
  lemma OnlyWalkScans(t: Tree, e: Event)
    requires t.scan != NoScan && e != Walk
    ensures Step(t, e).queue == t.queue && Step(t, e).scan == t.scan
  {
  }

  /** What a walk step does to the part of the queue not yet decided about. */
  lemma WalkDecides(t: Tree)
    requires Inv(t) && t.scan != NoScan && WalkStep(t).scan != NoScan
    ensures t.scan.i <= |t.queue| && WalkStep(t).scan.i <= |WalkStep(t).queue|
    ensures
      var t' := WalkStep(t);
      if t.scan.Next? then t'.queue[t'.scan.i..] == t.queue[t.scan.i..]
      else t.scan.i < |t.queue| && t'.queue[t'.scan.i..] == t.queue[t.scan.i + 1..]
  {
  }

  lemma TestedBefore(order: ReadOrder, events: seq<Event>, b: nat, f: nat)
    requires events != [] && TestedSince(order, events[..|events| - 1], b, f)
    ensures TestedSince(order, events, b, f)
  {
    var n := |events| - 1;
    var m :| b <= m < n && events[..n][m] == Walk && Tests(Run(order, events[..n][..m]), f);
    assert events[..n][..m] == events[..m];
  }

  /** Of the callers found in the queue at the beginning of the pass, the first s have been decided about, and the part
      of the queue in front of the worker is the rest. */
  ghost predicate PassAt(order: ReadOrder, events: seq<Event>, b: nat, s: nat)
    requires b <= |events|
  {
    var queue, t := Run(order, events[..b]).queue, Run(order, events);
    && s <= |queue| && t.scan != NoScan && t.scan.i <= |t.queue| && t.queue[t.scan.i..] == queue[s..]
    && forall k :: 0 <= k < s ==> TestedSince(order, events, b, queue[k])
  }

  /** One walk step moves the worker over at most one caller, which it decides about. */
  lemma WalkAdvances(t: Tree, queue: seq<nat>, s: nat) returns (s': nat)
    requires Inv(t) && t.scan != NoScan && WalkStep(t).scan != NoScan
    requires s <= |queue| && t.scan.i <= |t.queue| && t.queue[t.scan.i..] == queue[s..]
    ensures s <= s' <= |queue| && s' <= s + 1 && (s' == s + 1 ==> Tests(t, queue[s]))
    ensures WalkStep(t).scan.i <= |WalkStep(t).queue|
    ensures WalkStep(t).queue[WalkStep(t).scan.i..] == queue[s'..]
  {
    WalkDecides(t);
    s' := s;
    if !t.scan.Next? {
      assert t.queue[t.scan.i..][0] == queue[s..][0];
      assert t.queue[t.scan.i..][1..] == t.queue[t.scan.i + 1..] && queue[s..][1..] == queue[s + 1..];
      s' := s + 1;
    }
  }

  lemma EventAdvances(t: Tree, e: Event, queue: seq<nat>, s: nat) returns (s': nat)
    requires Inv(t) && t.scan != NoScan && Step(t, e).scan != NoScan
    requires s <= |queue| && t.scan.i <= |t.queue| && t.queue[t.scan.i..] == queue[s..]
    ensures s <= s' <= |queue| && s' <= s + 1 && (s' == s + 1 ==> e == Walk && Tests(t, queue[s]))
    ensures Step(t, e).scan.i <= |Step(t, e).queue| && Step(t, e).queue[Step(t, e).scan.i..] == queue[s'..]
  {
    s' := s;
    if e == Walk {
      s' := WalkAdvances(t, queue, s);
    } else {
      OnlyWalkScans(t, e);
    }
  }

  lemma TestedOn(order: ReadOrder, events: seq<Event>, b: nat, s: nat)
    requires events != [] && b < |events| - 1 && PassAt(order, events[..|events| - 1], b, s)
    ensures events[..|events| - 1][..b] == events[..b]
    ensures forall k :: 0 <= k < s ==> TestedSince(order, events, b, Run(order, events[..b]).queue[k])
  {
    assert events[..|events| - 1][..b] == events[..b];
    forall k | 0 <= k < s
      ensures TestedSince(order, events, b, Run(order, events[..b]).queue[k])
    {
      TestedBefore(order, events, b, Run(order, events[..b]).queue[k]);
    }
  }

  lemma PassStep(order: ReadOrder, events: seq<Event>, b: nat, s: nat) returns (s': nat)
    requires events != [] && b < |events| - 1
    requires PassAt(order, events[..|events| - 1], b, s) && Run(order, events).scan != NoScan
    ensures PassAt(order, events, b, s')
  {
    var n := |events| - 1;
    RunLast(order, events);
    RunInv(order, events[..n]);
    TestedOn(order, events, b, s);
    s' := EventAdvances(Run(order, events[..n]), events[n], Run(order, events[..b]).queue, s);
  }

  /** The pass is still going on. */
  lemma PassScans(order: ReadOrder, events: seq<Event>, b: nat)
    requires PassSince(order, events, b)
    ensures Run(order, events).scan != NoScan
  {
    assert events[..|events|] == events;
  }

  lemma {:induction false} PassSplits(order: ReadOrder, events: seq<Event>, b: nat) returns (s: nat)
    requires PassSince(order, events, b)
    ensures PassAt(order, events, b, s)
    decreases |events|
  {
    if |events| - 1 == b {
      PassBegins(order, events);
      s := 0;
    } else {
      PassBefore(order, events, b);
      PassScans(order, events, b);
      s := PassSplits(order, events[..|events| - 1], b);
      s := PassStep(order, events, b, s);
    }
  }

  lemma PassBegins(order: ReadOrder, events: seq<Event>)
    requires events != [] && events[|events| - 1] == Walk && Run(order, events[..|events| - 1]).scan == NoScan
    ensures PassAt(order, events, |events| - 1, 0)
  {
    RunLast(order, events);
  }

  lemma PassBefore(order: ReadOrder, events: seq<Event>, b: nat)
    requires PassSince(order, events, b) && b < |events| - 1
    ensures PassSince(order, events[..|events| - 1], b)
  {
    var n := |events| - 1;
    assert events[..n][..b] == events[..b];
    forall j | b < j <= n ensures Run(order, events[..n][..j]).scan != NoScan {
      assert events[..n][..j] == events[..j];
    }
  }

  /** A pass reaches everybody: when it is about to end, every caller that was in the queue when it began has been
      decided about, whatever else has happened meanwhile. */
  lemma PassReachesAll(order: ReadOrder, events: seq<Event>, b: nat, f: nat)
    requires PassSince(order, events, b) && WalkStep(Run(order, events)).scan == NoScan
    requires f in Run(order, events[..b]).queue
    ensures TestedSince(order, events, b, f)
  {
    var s := PassSplits(order, events, b);
    RunInv(order, events);
    var queue := Run(order, events[..b]).queue;
    assert Run(order, events).queue[Run(order, events).scan.i..] == [];
    var k :| 0 <= k < |queue| && queue[k] == f;
  }

  /** Only a passed test puts a parked caller back. */
  lemma PutBackByTest(t: Tree, e: Event, f: nat)
    requires Inv(t) && f < |t.frames| && t.frames[f].self == Parked
    ensures f < |Step(t, e).frames|
    ensures Step(t, e).frames[f].self != Parked ==> e == Walk && Requeues(t) && Caller(t) == f
  {
    if e.Destroy? && e.id < |t.frames| {
      DestroyKeepsSelf(t, e.id, f);
    }
  }

  lemma DestroyKeepsSelf(t: Tree, id: nat, f: nat)
    requires id < |t.frames| && f < |t.frames|
    ensures f < |DestroyStep(t, id).frames| && DestroyStep(t, id).frames[f].self == t.frames[f].self
  {
  }

  /** What the worker still has to do in its pass. */
  function PassRank(t: Tree): int {
    match t.scan
    case NoScan => -1
    case Next(i) => 2 * (|t.queue| - i) + 1
    case CountRead(i, _) => 2 * (|t.queue| - i)
    case FlagRead(i, _) => 2 * (|t.queue| - i)
  }

  /** Every walk step of a pass brings it nearer to its end, and nobody else's step sets it back. */
  lemma PassEnds(order: ReadOrder, t: Tree, e: Event)
    requires Reachable(order, t) && t.scan != NoScan
    ensures 0 <= PassRank(t)
    ensures if e == Walk then PassRank(WalkStep(t)) < PassRank(t) else PassRank(Step(t, e)) == PassRank(t)
  {
    ReachableInv(order, t);
    if e != Walk {
      OnlyWalkScans(t, e);
    }
  }

  // ----- everything under way moves on -----

  function OwnerRank(o: Owner): nat {
    match o
    case Cleared => 1
    case Dropped => 0
    case _ => 1 + AwaitRank(o)
  }

  function DestroyRank(f: Frame): int {
    f.regs + 4 - Rank(f.phase)
  }

  /** Every step of an owner that is not suspended, of a final suspend, and of a destruction brings it closer to its
      end. */
  lemma EachMovesOn(t: Tree, f: nat)
    requires f < |t.frames|
    ensures
      var g := t.frames[f];
      && (g.owner.Storing? || g.owner.Casing? || g.owner.Reading? || g.owner.Cleared? ==>
            OwnerRank(Step(t, OwnerMove(f)).frames[f].owner) < OwnerRank(g.owner))
      && (g.self.Returned? || g.self.Resetting? || g.self.Resuming? ==>
            SelfRank(Step(t, SelfMove(f)).frames[f].self) < SelfRank(g.self))
  {
  }

  lemma DestructionMovesOn(order: ReadOrder, t: Tree, f: nat)
    requires Reachable(order, t) && f < |t.frames| && t.frames[f].phase != Alive && t.frames[f].phase != Freed
    ensures 0 <= DestroyRank(t.frames[f])
    ensures DestroyRank(Step(t, Destroy(f)).frames[f]) < DestroyRank(t.frames[f])
  {
    ReachableInv(order, t);
    assert FrameOk(t.frames[f]);
    if t.frames[f].phase == Releasing {
      ReleaseMovesOn(t, f);
    }
  }

  lemma ReleaseMovesOn(t: Tree, f: nat)
    requires Inv(t) && f < |t.frames| && t.frames[f].phase == Releasing
    ensures DestroyRank(DestroyStep(t, f).frames[f]) < DestroyRank(t.frames[f])
  {
    if t.frames[f].parent.Some? {
      KidKeepsAlive(t.frames, f, t.frames[f].parent.value);
    }
  }

  /** Whoever asks for the result of a frame whose handle is held begins to await it, and reads at once only if the task
      has finished. */
  lemma AskingBegins(order: ReadOrder, t: Tree, f: nat, w: nat)
    requires Reachable(order, t) && 0 < f < |t.frames| && MayAwait(t.frames[f])
    ensures AwaitedBy(Step(t, Get(f, w)).frames[f].owner, w) && AwaitedBy(Step(t, Synchronous(f, w)).frames[f].owner, w)
    ensures Step(t, Get(f, w)).frames[f].owner == Reading(w) ==> !Unfinished(t.frames[f])
    ensures Step(t, Synchronous(f, w)).frames[f].owner != Reading(w)
  {
    ReachableInv(order, t);
    assert FrameOk(t.frames[f]);
  }

  // ----- the root leaves last -----

  /** Everything the root dispatched, directly or not, has left. */
  ghost predicate AllHaveLeft(t: Tree) {
    forall c: nat :: c < |t.frames| && Descends(t.frames, c) ==> Left(t.frames[c]) && t.frames[c].regs == 0
  }

  /** The root object has begun to give up its handle, and all is quiet below it. */
  ghost predicate RootIsGone(t: Tree) {
    |t.frames| > 0 && !HoldsSelf(t.frames[0]) && AllHaveLeft(t)
  }

  lemma {:induction false} DescentStays(t: Tree, e: Event, c: nat)
    requires c < |t.frames| && |t.frames| <= |Step(t, e).frames| && Descends(Step(t, e).frames, c)
    ensures Descends(t.frames, c)
    decreases c
  {
    StepSame(t, e, c);
    if t.frames[c].creator != 0 {
      DescentStays(t, e, t.frames[c].creator);
    }
  }

  lemma LeftStays(t: Tree, e: Event, c: nat)
    requires Inv(t) && c < |t.frames| && Left(t.frames[c]) && t.frames[c].regs == 0
    ensures c < |Step(t, e).frames| && Left(Step(t, e).frames[c]) && Step(t, e).frames[c].regs == 0
  {
    StepLater(t, e, c);
    StepSame(t, e, c);
    assert FrameOk(t.frames[c]);
    LeftPhaseStays(t.frames[c], Step(t, e).frames[c]);
  }

  lemma LeftPhaseStays(f: Frame, g: Frame)
    requires Later(f, g) && Left(f)
    ensures Left(g)
  {
  }

  /** A frame without its own handle does not come back to life. */
  lemma GoneStays(t: Tree, e: Event, f: nat)
    requires Inv(t) && f < |t.frames| && !HoldsSelf(t.frames[f])
    ensures f < |Step(t, e).frames| && !HoldsSelf(Step(t, e).frames[f])
  {
    if e.Destroy? && e.id < |t.frames| {
      DestroyKeepsSelf(t, e.id, f);
    }
  }

  /** A new frame does not descend from a root whose descendants have all left. */
  lemma NoNewDescendants(t: Tree, e: Event)
    requires Inv(t) && RootIsGone(t) && |Step(t, e).frames| > |t.frames|
    ensures !Descends(Step(t, e).frames, |t.frames|)
  {
    StepCreates(t, e);
    var c := |t.frames|;
    if Descends(Step(t, e).frames, c) && e.p != 0 {
      assert Step(t, e).frames[c].creator == e.p;
      DescentStays(t, e, e.p);
      LeftIsIdle(t.frames, e.p);
    }
  }

  lemma RootStaysGone(t: Tree, e: Event)
    requires Inv(t) && RootIsGone(t)
    ensures RootIsGone(Step(t, e))
  {
    var t' := Step(t, e);
    StepCreates(t, e);
    GoneStays(t, e, 0);
    forall c: nat | c < |t'.frames| && Descends(t'.frames, c)
      ensures Left(t'.frames[c]) && t'.frames[c].regs == 0
    {
      if c == |t.frames| {
        NoNewDescendants(t, e);
      } else {
        DescentStays(t, e, c);
        LeftStays(t, e, c);
      }
    }
  }

  /** The root's handle is let go only by a drop that has waited. */
  lemma RootDropWaits(t: Tree, e: Event)
    requires Inv(t) && t.frames[0].owner == Held
    ensures |Step(t, e).frames| > 0
    ensures Step(t, e).frames[0].owner != Held ==> WaitIsOver(t)
  {
    assert FrameOk(t.frames[0]);
    if e != OwnerMove(0) && e != SelfMove(0) && !(e.Drop? && e.id == 0) && !(e.Get? && e.id == 0)
       && !(e.Synchronous? && e.id == 0) {
      OwnerStays(t, e, 0);
    }
  }

  lemma WaitedIsGone(t: Tree)
    requires Inv(t) && WaitIsOver(t)
    ensures RootIsGone(t)
  {
    assert CountOk(t.frames, 0) && FrameOk(t.frames[0]);
    forall c: nat | c < |t.frames| && Descends(t.frames, c)
      ensures Left(t.frames[c]) && t.frames[c].regs == 0
    {
      DescendantsHaveLeft(t.frames, c);
    }
  }

  /** The root leaves last: in every run, from the moment its handle is let go, everything it dispatched, directly or
      not, is registered nowhere and has released its parent, and that stays so. */
  lemma {:induction false} RootLeavesLast(order: ReadOrder, events: seq<Event>)
    ensures var t := Run(order, events);
            |t.frames| > 0 && (t.frames[0].owner != Held ==> AllHaveLeft(t))
    ensures Run(order, events).frames[0].owner != Held ==> RootIsGone(Run(order, events))
    decreases |events|
  {
    if events != [] {
      var n := |events| - 1;
      var before := Run(order, events[..n]);
      RootLeavesLast(order, events[..n]);
      RunInv(order, events[..n]);
      RunLast(order, events);
      if before.frames[0].owner == Held {
        RootDropWaits(before, events[n]);
        if WaitIsOver(before) {
          WaitedIsGone(before);
          RootStaysGone(before, events[n]);
        }
      } else {
        RootStaysGone(before, events[n]);
      }
    }
  }
}
