/** The invariant of the task tree and its preservation by every step. */
module LifetimeInvariant {
  import opened LifetimeMachine
  import opened Options

  // ----- counting handles -----

  function One(b: bool): nat {
    if b then 1 else 0
  }

  /** The frame has released its handle to its parent; its memory may or may not have been freed yet. */
  predicate Left(f: Frame) {
    f.phase == Released || f.phase == Freed
  }

  /** The child's handle to its parent exists until the child's destructor releases it. */
  predicate IsKid(c: Frame, p: nat) {
    c.parent == Some(p) && !Left(c)
  }

  function KidCount(frames: seq<Frame>, p: nat): nat {
    if frames == [] then 0
    else KidCount(frames[..|frames| - 1], p) + One(IsKid(frames[|frames| - 1], p))
  }

  lemma {:induction false} KidUpdate(frames: seq<Frame>, c: nat, x: Frame, p: nat)
    requires c < |frames|
    ensures KidCount(frames[c := x], p) + One(IsKid(frames[c], p)) == KidCount(frames, p) + One(IsKid(x, p))
  {
    var n := |frames| - 1;
    if c == n {
      assert frames[c := x][..n] == frames[..n];
    } else {
      assert frames[c := x][..n] == frames[..n][c := x];
      KidUpdate(frames[..n], c, x, p);
    }
  }

  lemma {:induction false} KidsNone(frames: seq<Frame>, p: nat)
    ensures KidCount(frames, p) == 0 <==> forall c :: 0 <= c < |frames| ==> !IsKid(frames[c], p)
  {
    if frames != [] {
      KidsNone(frames[..|frames| - 1], p);
      assert forall c :: 0 <= c < |frames| - 1 ==> frames[..|frames| - 1][c] == frames[c];
    }
  }

  lemma KidAppend(frames: seq<Frame>, x: Frame, p: nat)
    ensures KidCount(frames + [x], p) == KidCount(frames, p) + One(IsKid(x, p))
  {
    assert (frames + [x])[..|frames|] == frames;
  }

  // ----- one frame -----

  /** The frame still holds its handle to itself. */
  predicate HoldsSelf(f: Frame) {
    f.self == Running || f.self == Parked || f.self == Returned || f.self.Resetting?
  }

  predicate HoldsOwner(f: Frame) {
    f.owner != Dropped
  }

  predicate Unfinished(f: Frame) {
    f.self == Running || f.self == Parked || f.self == Returned
  }

  /** The frame is destroyed exactly when its count has reached zero, after its own final suspend. */
  predicate PhaseOk(f: Frame) {
    && (f.phase == Alive <==> f.count > 0)
    && (f.phase == Releasing || Left(f) ==> f.regs == 0)
    && (f.outside <==> f.owner != Cleared && f.owner != Dropped)
  }

  /** Continuation hand-off: workingState 1 is running, 2 is running with a suspended owner, 0 is done. */
  predicate HandOff(f: Frame) {
    && f.working <= 2
    && (f.owner.Casing? ==> f.cont == Some(f.owner.w))
    && (f.working == 1 ==> Unfinished(f) && !f.owner.Suspended? && !f.owner.Reading?)
    && (f.working == 0 ==> (f.self == Resetting(None) || f.self == Gone) && !f.owner.Suspended?)
    && (f.working == 2 ==> f.cont.Some? && f.self != Resetting(None))
    && (f.working == 2 && f.self != Gone ==> f.owner == Suspended(f.cont.value))
    && (f.working == 2 && f.self == Gone ==> f.owner.Reading? || f.owner == Cleared || f.owner == Dropped)
    && (f.self.Resetting? && f.self.k.Some? ==> f.working == 2 && f.self.k == f.cont)
    && (f.self.Resuming? ==> f.working == 2 && Some(f.self.w) == f.cont)
  }

  predicate DispatchOk(f: Frame) {
    && (f.linkPending ==> f.owner == Held && f.parent == None)
    && (f.busy.Some? ==> f.self == Running)
    && (f.linking && !f.linkPending ==> f.parent == Some(f.creator))
    && (f.parent.Some? ==> f.parent == Some(f.creator))
  }

  predicate FrameOk(f: Frame) {
    PhaseOk(f) && HandOff(f) && DispatchOk(f)
  }

  // ----- the tree -----

  predicate Older(frames: seq<Frame>) {
    && |frames| > 0 && frames[0].parent == None && !frames[0].linking
    && forall c :: 0 < c < |frames| ==> frames[c].creator < c
  }

  predicate FramesOk(frames: seq<Frame>) {
    forall i :: 0 <= i < |frames| ==> FrameOk(frames[i])
  }

  /** The counter equals the number of live handles. */
  predicate CountOk(frames: seq<Frame>, p: nat)
    requires p < |frames|
  {
    frames[p].count == One(HoldsSelf(frames[p])) + One(HoldsOwner(frames[p])) + KidCount(frames, p)
  }

  predicate CountsOk(frames: seq<Frame>) {
    forall p :: 0 <= p < |frames| ==> CountOk(frames, p)
  }

  predicate BusyOk(frames: seq<Frame>, p: nat)
    requires p < |frames|
  {
    frames[p].busy.Some? ==>
      && p < frames[p].busy.value < |frames|
      && frames[frames[p].busy.value].linkPending && frames[frames[p].busy.value].creator == p
  }

  predicate PendingOk(frames: seq<Frame>, c: nat)
    requires c < |frames|
  {
    frames[c].linkPending ==> frames[c].creator < |frames| && frames[frames[c].creator].busy == Some(c)
  }

  predicate LinksOk(frames: seq<Frame>) {
    forall i :: 0 <= i < |frames| ==> BusyOk(frames, i) && PendingOk(frames, i)
  }

  predicate FramesInv(frames: seq<Frame>) {
    Older(frames) && FramesOk(frames) && CountsOk(frames) && LinksOk(frames)
  }

  predicate QueueOk(frames: seq<Frame>, queue: seq<nat>) {
    && (forall i :: 0 <= i < |queue| ==> queue[i] < |frames| && frames[queue[i]].self == Parked)
    && (forall i, j :: 0 <= i < j < |queue| ==> queue[i] != queue[j])
    && (forall f :: 0 <= f < |frames| && frames[f].self == Parked ==> f in queue)
  }

  /** What the worker has read of a parked frame can only have come down since. */
  predicate ScanOk(t: Tree) {
    match t.scan
    case NoScan => true
    case Next(i) => i <= |t.queue|
    case CountRead(i, count) =>
      i < |t.queue| && t.queue[i] < |t.frames| && t.frames[t.queue[i]].count <= count && t.order.CountFirst?
    case FlagRead(i, outside) =>
      i < |t.queue| && t.queue[i] < |t.frames| && (t.frames[t.queue[i]].outside ==> outside) && t.order.FlagFirst?
  }

  predicate Inv(t: Tree) {
    FramesInv(t.frames) && QueueOk(t.frames, t.queue) && ScanOk(t) && !t.broken
  }

  lemma InitInv(order: ReadOrder)
    ensures Inv(Init(order))
  {
    var frames := Init(order).frames;
    KidAppend([], frames[0], 0);
    assert [] + [frames[0]] == frames;
  }

  // ----- one frame changes, its handles stay -----

  predicate SameHandles(f: Frame, g: Frame) {
    && f.count == g.count && HoldsSelf(f) == HoldsSelf(g) && HoldsOwner(f) == HoldsOwner(g)
    && SameTies(f, g) && (f.parent == None || (Left(f) <==> Left(g)))
  }

  predicate SameTies(f: Frame, g: Frame) {
    && f.parent == g.parent && f.creator == g.creator && f.linking == g.linking
    && f.linkPending == g.linkPending && f.busy == g.busy
  }

  lemma LinksPut(frames: seq<Frame>, id: nat, g: Frame)
    requires id < |frames| && LinksOk(frames) && SameTies(frames[id], g)
    ensures LinksOk(frames[id := g])
  {
    var frames' := frames[id := g];
    forall i | 0 <= i < |frames|
      ensures BusyOk(frames', i) && PendingOk(frames', i)
    {
      assert BusyOk(frames, i) && PendingOk(frames, i);
    }
  }

  lemma CountsPut(frames: seq<Frame>, id: nat, g: Frame)
    requires id < |frames| && CountsOk(frames) && SameHandles(frames[id], g)
    ensures CountsOk(frames[id := g])
  {
    var frames' := frames[id := g];
    forall p | 0 <= p < |frames|
      ensures CountOk(frames', p)
    {
      assert CountOk(frames, p);
      KidUpdate(frames, id, g, p);
    }
  }

  lemma PutInv(frames: seq<Frame>, id: nat, g: Frame)
    requires id < |frames| && FramesInv(frames) && SameHandles(frames[id], g) && FrameOk(g)
    ensures FramesInv(frames[id := g])
  {
    LinksPut(frames, id, g);
    CountsPut(frames, id, g);
  }

  // ----- one handle less -----

  lemma CountsRelease(frames: seq<Frame>, id: nat, g: Frame)
    requires id < |frames| && CountsOk(frames) && SameTies(frames[id], g) && g.count + 1 == frames[id].count
    requires One(HoldsSelf(g)) + One(HoldsOwner(g)) + 1 == One(HoldsSelf(frames[id])) + One(HoldsOwner(frames[id]))
    requires !Left(frames[id]) && !Left(g)
    ensures CountsOk(frames[id := g])
  {
    var frames' := frames[id := g];
    forall p | 0 <= p < |frames|
      ensures CountOk(frames', p)
    {
      assert CountOk(frames, p);
      KidUpdate(frames, id, g, p);
    }
  }

  lemma ReleaseInv(frames: seq<Frame>, id: nat, g: Frame)
    requires id < |frames| && FramesInv(frames) && SameTies(frames[id], g) && g.count + 1 == frames[id].count
    requires One(HoldsSelf(g)) + One(HoldsOwner(g)) + 1 == One(HoldsSelf(frames[id])) + One(HoldsOwner(frames[id]))
    requires !Left(frames[id]) && !Left(g) && FrameOk(g)
    ensures FramesInv(frames[id := g])
  {
    LinksPut(frames, id, g);
    CountsRelease(frames, id, g);
  }

  /** A handle keeps its frame alive. */
  lemma HandleKeepsAlive(frames: seq<Frame>, id: nat)
    requires id < |frames| && FramesInv(frames) && (HoldsSelf(frames[id]) || HoldsOwner(frames[id]))
    ensures frames[id].count > 0 && frames[id].phase == Alive
  {
    assert CountOk(frames, id) && FrameOk(frames[id]);
  }

  lemma KidKeepsAlive(frames: seq<Frame>, c: nat, p: nat)
    requires c < |frames| && p < |frames| && FramesInv(frames) && IsKid(frames[c], p)
    ensures frames[p].count > 0 && frames[p].phase == Alive
  {
    assert CountOk(frames, p) && FrameOk(frames[p]);
    KidsNone(frames, p);
  }

  // ----- releasing the parent -----

  lemma CountsLeave(frames: seq<Frame>, c: nat, p: nat)
    requires c < |frames| && p < |frames| && c != p && CountsOk(frames)
    requires IsKid(frames[c], p) && frames[p].count > 0 && frames[p].phase == Alive
    ensures CountsOk(frames[c := frames[c].(phase := Released)][p := Release(frames[p])])
  {
    var f := frames[c].(phase := Released);
    var freed := frames[c := f];
    var frames' := freed[p := Release(frames[p])];
    forall q | 0 <= q < |frames|
      ensures CountOk(frames', q)
    {
      assert CountOk(frames, q);
      KidUpdate(frames, c, f, q);
      KidUpdate(freed, p, Release(frames[p]), q);
    }
  }

  lemma ReleaseParentInv(frames: seq<Frame>, c: nat)
    requires c < |frames| && FramesInv(frames) && frames[c].phase == Releasing
    ensures frames[c].parent == None ==> FramesInv(frames[c := frames[c].(phase := Released)])
    ensures frames[c].parent.Some? ==>
              && frames[c].parent.value < c && frames[frames[c].parent.value].count > 0
              && FramesInv(frames[c := frames[c].(phase := Released)]
                                 [frames[c].parent.value := Release(frames[frames[c].parent.value])])
  {
    var f := frames[c].(phase := Released);
    assert FrameOk(frames[c]);
    if frames[c].parent == None {
      PutInv(frames, c, f);
    } else {
      var p := frames[c].parent.value;
      KidKeepsAlive(frames, c, p);
      CountsLeave(frames, c, p);
      LinksPut(frames, c, f);
      LinksPut(frames[c := f], p, Release(frames[p]));
      assert FrameOk(frames[p]);
    }
  }

  // ----- the frame alone -----

  /** A step that a parked frame's test can only see come down. */
  predicate Calmer(f: Frame, g: Frame) {
    && (f.self == Parked <==> g.self == Parked)
    && (f.self == Parked ==> g.count <= f.count && (g.outside ==> f.outside))
  }

  lemma DroppingOk(f: Frame)
    requires FrameOk(f) && MayAwait(f)
    ensures FrameOk(Dropping(f)) && SameHandles(f, Dropping(f)) && Calmer(f, Dropping(f))
  {
  }

  lemma AwaitOk(f: Frame, w: nat)
    requires FrameOk(f) && MayAwait(f)
    ensures FrameOk(GetReady(f, w)) && SameHandles(f, GetReady(f, w)) && Calmer(f, GetReady(f, w))
    ensures FrameOk(f.(owner := Storing(w)))
  {
  }

  lemma OwnerStepOk(f: Frame)
    requires FrameOk(f) && f.owner != Cleared
    ensures FrameOk(OwnerStep(f)) && SameHandles(f, OwnerStep(f)) && Calmer(f, OwnerStep(f))
  {
  }

  lemma OwnerDropOk(f: Frame)
    requires FrameOk(f) && f.owner == Cleared && f.count > 0
    ensures FrameOk(OwnerStep(f)) && SameTies(f, OwnerStep(f)) && Calmer(f, OwnerStep(f))
    ensures OwnerStep(f).owner == Dropped && OwnerStep(f).self == f.self && OwnerStep(f).count == f.count - 1
    ensures !Left(f) && !Left(OwnerStep(f))
  {
  }

  lemma SelfStepOk(f: Frame)
    requires FrameOk(f) && !f.self.Resetting?
    ensures FrameOk(SelfStep(f)) && SameHandles(f, SelfStep(f)) && Calmer(f, SelfStep(f)) && !Misfires(f)
  {
  }

  lemma ResetOk(f: Frame)
    requires FrameOk(f) && f.self.Resetting? && f.count > 0
    ensures FrameOk(SelfStep(f)) && SameTies(f, SelfStep(f)) && Calmer(f, SelfStep(f))
    ensures !HoldsSelf(SelfStep(f)) && SelfStep(f).owner == f.owner && SelfStep(f).count == f.count - 1
    ensures !Left(f) && !Left(SelfStep(f))
  {
  }

  // ----- the parked callers -----

  predicate Calm(frames: seq<Frame>, frames': seq<Frame>) {
    && |frames| <= |frames'|
    && (forall i :: 0 <= i < |frames| ==> Calmer(frames[i], frames'[i]))
    && (forall i :: |frames| <= i < |frames'| ==> frames'[i].self != Parked)
  }

  lemma CalmKeeps(t: Tree, frames': seq<Frame>)
    requires QueueOk(t.frames, t.queue) && ScanOk(t) && Calm(t.frames, frames')
    ensures QueueOk(frames', t.queue) && ScanOk(t.(frames := frames'))
  {
    forall i | 0 <= i < |t.queue|
      ensures t.queue[i] < |frames'| && Calmer(t.frames[t.queue[i]], frames'[t.queue[i]])
    {
    }
  }

  // ----- steps -----

  lemma PutStep(t: Tree, id: nat, g: Frame)
    requires Inv(t) && id < |t.frames|
    requires FrameOk(g) && SameHandles(t.frames[id], g) && Calmer(t.frames[id], g)
    ensures Inv(Put(t, id, g))
  {
    PutInv(t.frames, id, g);
    CalmKeeps(t, t.frames[id := g]);
  }

  lemma OwnerMoves(t: Tree, id: nat)
    requires Inv(t) && id < |t.frames|
    ensures Inv(Put(t, id, OwnerStep(t.frames[id])))
  {
    var f := t.frames[id];
    assert FrameOk(f);
    if f.owner == Cleared {
      HandleKeepsAlive(t.frames, id);
      OwnerDropOk(f);
      ReleaseInv(t.frames, id, OwnerStep(f));
      CalmKeeps(t, t.frames[id := OwnerStep(f)]);
    } else {
      OwnerStepOk(f);
      PutStep(t, id, OwnerStep(f));
    }
  }

  lemma SelfMoves(t: Tree, id: nat)
    requires Inv(t) && id < |t.frames|
    ensures Inv(Put(t, id, SelfStep(t.frames[id]))) && !Misfires(t.frames[id])
  {
    var f := t.frames[id];
    assert FrameOk(f);
    if f.self.Resetting? {
      HandleKeepsAlive(t.frames, id);
      ResetOk(f);
      ReleaseInv(t.frames, id, SelfStep(f));
      CalmKeeps(t, t.frames[id := SelfStep(f)]);
    } else {
      SelfStepOk(f);
      PutStep(t, id, SelfStep(f));
    }
  }

  lemma Deregisters(t: Tree, id: nat)
    requires Inv(t) && id < |t.frames| && t.frames[id].phase == Deregistering
    ensures Inv(DestroyStep(t, id))
  {
    var f := t.frames[id];
    assert FrameOk(f);
    PutStep(t, id, if f.regs > 0 then f.(regs := f.regs - 1) else f.(phase := Releasing));
  }

  lemma Frees(t: Tree, id: nat)
    requires Inv(t) && id < |t.frames| && t.frames[id].phase == Released
    ensures Inv(DestroyStep(t, id))
  {
    assert FrameOk(t.frames[id]);
    PutStep(t, id, t.frames[id].(phase := Freed));
  }

  lemma ReleasesParent(t: Tree, id: nat)
    requires Inv(t) && id < |t.frames| && t.frames[id].phase == Releasing
    ensures Inv(DestroyStep(t, id))
  {
    ReleaseParentInv(t.frames, id);
    CalmKeeps(t, DestroyStep(t, id).frames);
  }

  lemma SpawnCounts(frames: seq<Frame>, p: nat, f: Frame, child: Frame)
    requires p < |frames| && Older(frames) && FramesOk(frames) && CountsOk(frames)
    requires f == frames[p].(busy := f.busy) && child.parent == None && child.count == 2
    requires HoldsSelf(child) && HoldsOwner(child)
    ensures CountsOk(frames[p := f] + [child])
  {
    var frames' := frames[p := f] + [child];
    forall q | 0 <= q < |frames'|
      ensures CountOk(frames', q)
    {
      KidAppend(frames[p := f], child, q);
      KidUpdate(frames, p, f, q);
      if q < |frames| {
        assert CountOk(frames, q);
      } else {
        forall c | 0 <= c < |frames|
          ensures !IsKid(frames[c], q)
        {
          assert FrameOk(frames[c]);
        }
        KidsNone(frames, q);
      }
    }
  }

  function Spawned(frames: seq<Frame>, p: nat, regs: nat, linking: bool): seq<Frame>
    requires p < |frames|
  {
    frames[p := frames[p].(busy := if linking then Some(|frames|) else None)] + [NewFrame(p, regs, linking)]
  }

  lemma SpawnLinks(frames: seq<Frame>, p: nat, regs: nat, linking: bool)
    requires p < |frames| && LinksOk(frames) && frames[p].busy == None
    ensures LinksOk(Spawned(frames, p, regs, linking))
  {
    var frames' := Spawned(frames, p, regs, linking);
    forall i | 0 <= i < |frames'|
      ensures BusyOk(frames', i) && PendingOk(frames', i)
    {
      if i < |frames| {
        assert BusyOk(frames, i) && PendingOk(frames, i);
      }
    }
  }

  lemma SpawnFrames(frames: seq<Frame>, p: nat, regs: nat, linking: bool)
    requires p < |frames| && Older(frames) && FramesOk(frames) && Free(frames[p])
    ensures var frames' := Spawned(frames, p, regs, linking);
            Older(frames') && FramesOk(frames') && Calm(frames, frames')
  {
    assert FrameOk(frames[p]);
    assert FrameOk(NewFrame(p, regs, linking));
    var frames' := Spawned(frames, p, regs, linking);
    forall i | 0 <= i < |frames'|
      ensures FrameOk(frames'[i])
    {
      assert i < |frames| ==> FrameOk(frames[i]);
    }
  }

  lemma Spawns(t: Tree, p: nat, regs: nat, linking: bool)
    requires Inv(t) && p < |t.frames| && Free(t.frames[p])
    ensures Inv(t.(frames := Spawned(t.frames, p, regs, linking)))
  {
    var f := t.frames[p].(busy := if linking then Some(|t.frames|) else None);
    SpawnFrames(t.frames, p, regs, linking);
    SpawnCounts(t.frames, p, f, NewFrame(p, regs, linking));
    SpawnLinks(t.frames, p, regs, linking);
    CalmKeeps(t, Spawned(t.frames, p, regs, linking));
  }

  /** The creator's and the child's frames once the child holds its parent. */
  function Linked(frames: seq<Frame>, p: nat, c: nat): seq<Frame>
    requires p < |frames| && c < |frames|
  {
    frames[p := frames[p].(busy := None, count := frames[p].count + 1)]
          [c := frames[c].(parent := Some(p), linkPending := false)]
  }

  lemma LinkCounts(frames: seq<Frame>, p: nat, c: nat)
    requires p < |frames| && c < |frames| && p != c && CountsOk(frames)
    requires frames[c].parent == None && !Left(frames[c])
    ensures CountsOk(Linked(frames, p, c))
  {
    var f := frames[p].(busy := None, count := frames[p].count + 1);
    var g := frames[c].(parent := Some(p), linkPending := false);
    var frames' := Linked(frames, p, c);
    forall q | 0 <= q < |frames|
      ensures CountOk(frames', q)
    {
      assert CountOk(frames, q);
      KidUpdate(frames, p, f, q);
      KidUpdate(frames[p := f], c, g, q);
    }
  }

  lemma LinkLinks(frames: seq<Frame>, p: nat, c: nat)
    requires p < |frames| && c < |frames| && p != c && LinksOk(frames) && frames[p].busy == Some(c)
    ensures LinksOk(Linked(frames, p, c))
  {
    var frames' := Linked(frames, p, c);
    assert BusyOk(frames, p) && PendingOk(frames, c);
    forall i | 0 <= i < |frames|
      ensures BusyOk(frames', i) && PendingOk(frames', i)
    {
      assert BusyOk(frames, i) && PendingOk(frames, i);
    }
  }

  lemma LinkFrames(frames: seq<Frame>, p: nat, c: nat)
    requires 0 <= p < c < |frames| && Older(frames) && FramesOk(frames)
    requires frames[p].count > 0 && frames[p].self == Running && frames[p].phase == Alive
    requires frames[c].linkPending && frames[c].creator == p
    ensures var frames' := Linked(frames, p, c);
            Older(frames') && FramesOk(frames') && Calm(frames, frames')
  {
    assert FrameOk(frames[p]) && FrameOk(frames[c]);
    var frames' := Linked(frames, p, c);
    forall i | 0 <= i < |frames|
      ensures FrameOk(frames'[i]) && Calmer(frames[i], frames'[i])
    {
      assert FrameOk(frames[i]);
    }
  }

  lemma Links(t: Tree, p: nat, c: nat)
    requires Inv(t) && p < |t.frames| && t.frames[p].busy == Some(c)
    ensures p < c < |t.frames| && Inv(t.(frames := Linked(t.frames, p, c)))
  {
    assert BusyOk(t.frames, p) && FrameOk(t.frames[p]) && FrameOk(t.frames[c]);
    HandleKeepsAlive(t.frames, p);
    HandleKeepsAlive(t.frames, c);
    LinkFrames(t.frames, p, c);
    LinkCounts(t.frames, p, c);
    LinkLinks(t.frames, p, c);
    CalmKeeps(t, Linked(t.frames, p, c));
  }

  lemma Parks(t: Tree, id: nat)
    requires Inv(t) && id < |t.frames| && Free(t.frames[id]) && t.scan.NoScan?
    ensures Inv(Put(t, id, t.frames[id].(self := Parked)).(queue := t.queue + [id]))
  {
    assert FrameOk(t.frames[id]);
    PutInv(t.frames, id, t.frames[id].(self := Parked));
  }

  lemma WithoutKeeps(frames: seq<Frame>, queue: seq<nat>, i: nat)
    requires i < |queue| && QueueOk(frames, queue)
    ensures QueueOk(frames[queue[i] := frames[queue[i]].(self := Running)], Without(queue, i))
  {
    var queue', frames' := Without(queue, i), frames[queue[i] := frames[queue[i]].(self := Running)];
    forall j | 0 <= j < |queue'|
      ensures queue'[j] == queue[if j < i then j else j + 1]
    {
    }
    forall f | 0 <= f < |frames'| && frames'[f].self == Parked
      ensures f in queue'
    {
      var j :| 0 <= j < |queue| && queue[j] == f;
      assert f == queue'[if j < i then j else j - 1];
    }
  }

  lemma Unparks(t: Tree, i: nat)
    requires Inv(t) && i < |t.queue|
    ensures Inv(Verdict(t, i, true))
  {
    var f := t.frames[t.queue[i]];
    assert FrameOk(f);
    PutInv(t.frames, t.queue[i], f.(self := Running));
    WithoutKeeps(t.frames, t.queue, i);
  }

  lemma Walks(t: Tree)
    requires Inv(t)
    ensures Inv(WalkStep(t))
  {
    match t.scan
    case NoScan =>
    case Next(i) =>
    case CountRead(i, count) => if Ready(count, t.frames[t.queue[i]].outside) { Unparks(t, i); }
    case FlagRead(i, outside) => if Ready(t.frames[t.queue[i]].count, outside) { Unparks(t, i); }
  }

  lemma FrameStep(t: Tree, e: Event)
    requires Inv(t) && (e.Drop? || e.Get? || e.Synchronous? || e.OwnerMove? || e.Return? || e.SelfMove?)
    requires e.id < |t.frames|
    ensures Inv(Step(t, e))
  {
    var f := t.frames[e.id];
    assert FrameOk(f);
    if e.OwnerMove? {
      OwnerMoves(t, e.id);
    } else if e.SelfMove? {
      SelfMoves(t, e.id);
    } else if e.Return? {
      if Free(f) { PutStep(t, e.id, f.(self := Returned)); }
    } else if MayAwait(f) {
      DroppingOk(f);
      PutStep(t, e.id, Dropping(f));
      if !e.Drop? {
        AwaitOk(f, e.w);
        PutStep(t, e.id, GetReady(f, e.w));
        PutStep(t, e.id, f.(owner := Storing(e.w)));
      }
    }
  }

  lemma SpawnEvent(t: Tree, e: Event)
    requires Inv(t) && e.Spawn?
    ensures Inv(Step(t, e))
  {
    if e.p < |t.frames| && Free(t.frames[e.p]) {
      Spawns(t, e.p, e.regs, e.linking);
    }
  }

  lemma LinkIsLinked(t: Tree, p: nat, c: nat)
    requires p < c < |t.frames| && t.frames[p].busy == Some(c)
    ensures Step(t, Link(p)) == t.(frames := Linked(t.frames, p, c))
  {
  }

  lemma LinkIdles(t: Tree, p: nat)
    requires p < |t.frames| ==> t.frames[p].busy == None
    ensures Step(t, Link(p)) == t
  {
  }

  lemma LinkEvent(t: Tree, p: nat)
    requires Inv(t)
    ensures Inv(Step(t, Link(p)))
  {
    if p < |t.frames| && t.frames[p].busy.Some? {
      Links(t, p, t.frames[p].busy.value);
      LinkIsLinked(t, p, t.frames[p].busy.value);
    } else {
      LinkIdles(t, p);
    }
  }

  lemma OtherStep(t: Tree, e: Event)
    requires Inv(t) && (e.Park? || e.Destroy? || e.Walk?)
    ensures Inv(Step(t, e))
  {
    match e
    case Walk => Walks(t);
    case Park(id) => if id < |t.frames| && Free(t.frames[id]) && t.scan.NoScan? { Parks(t, id); }
    case Destroy(id) =>
      if id < |t.frames| && t.frames[id].phase == Deregistering { Deregisters(t, id); }
      if id < |t.frames| && t.frames[id].phase == Releasing { ReleasesParent(t, id); }
      if id < |t.frames| && t.frames[id].phase == Released { Frees(t, id); }
  }

  /** Every atomic action keeps the invariant. */
  lemma StepInv(t: Tree, e: Event)
    requires Inv(t)
    ensures Inv(Step(t, e))
  {
    if e.Spawn? {
      SpawnEvent(t, e);
    } else if e.Link? {
      LinkEvent(t, e.p);
    } else if e.Park? || e.Destroy? || e.Walk? {
      OtherStep(t, e);
    } else if e.id < |t.frames| {
      FrameStep(t, e);
    }
  }

  /** Every run keeps the invariant. */
  lemma {:induction false} RunInv(order: ReadOrder, events: seq<Event>)
    ensures Inv(Run(order, events))
  {
    if events == [] {
      InitInv(order);
    } else {
      RunInv(order, events[..|events| - 1]);
      StepInv(Run(order, events[..|events| - 1]), events[|events| - 1]);
    }
  }
}
