/** The step machine of the task tree: reference-counted frames, the hand-off of a continuation between an awaiting
    owner and the final suspend, the link from child to parent, the destruction of a frame, and the queue of callers
    parked at a barrier. One atomic action a step. Frame 0 is the root.
 */
module LifetimeMachine {
  import opened Options

  /** The handle held outside the frame: by a task object, by an awaiter, or by the root object. The ids are those of
      awaiting coroutines. */
  datatype Owner =
    | Held
    | Storing(w: nat)      // suspended, about to store the continuation
    | Casing(w: nat)       // stored, about to CAS workingState from 1 to 2
    | Suspended(w: nat)    // the CAS won
    | Reading(w: nat)      // continued, about to read the result and clear coroOutsideTask
    | Cleared              // about to drop the handle
    | Dropped

  /** The frame's handle to itself. */
  datatype Self =
    | Running
    | Parked                        // in the barrier queue
    | Returned                      // result stored, about to CAS workingState from 1 to 0
    | Resetting(k: Option<nat>)     // the handle and the continuation moved out, about to reset the handle
    | Resuming(w: nat)              // about to resume the continuation
    | Gone

  /** Alive while the count is above zero; then each registration is removed, the handle to the parent is released by
      the promise's destructor, which may destroy the parent in turn, and only then is the frame's memory freed. */
  datatype Phase = Alive | Deregistering | Releasing | Released | Freed

  /** creator, linking, linkPending and busy describe a dispatch: the creator is busy from the creation of the child
      until it has stored its own handle as the child's parent, unless the child is dispatched as finishing before
      its creator returns. */
  datatype Frame = Frame(
    count: nat,
    outside: bool,
    owner: Owner,
    self: Self,
    working: nat,
    cont: Option<nat>,
    creator: nat,
    linking: bool,
    linkPending: bool,
    busy: Option<nat>,
    parent: Option<nat>,
    phase: Phase,
    regs: nat
  )

  /** The order in which the barrier test reads its two operands, which the language leaves open. */
  datatype ReadOrder = CountFirst | FlagFirst

  /** A worker walking the barrier queue under its lock. */
  datatype Scan =
    | NoScan
    | Next(i: nat)
    | CountRead(i: nat, count: nat)
    | FlagRead(i: nat, outside: bool)

  /** broken: a continuation was resumed that was not suspended. */
  datatype Tree = Tree(frames: seq<Frame>, queue: seq<nat>, order: ReadOrder, scan: Scan, broken: bool)

  datatype Event =
    | Spawn(p: nat, regs: nat, linking: bool)
    | Link(p: nat)
    | Drop(id: nat)
    | Get(id: nat, w: nat)
    | Synchronous(id: nat, w: nat)
    | OwnerMove(id: nat)
    | Park(id: nat)
    | Return(id: nat)
    | SelfMove(id: nat)
    | Destroy(id: nat)
    | Walk

  function NewFrame(creator: nat, regs: nat, linking: bool): Frame {
    Frame(2, true, Held, Running, 1, None, creator, linking, linking, None, None, Alive, regs)
  }

  function Init(order: ReadOrder): (t: Tree)
    ensures |t.frames| == 1
  {
    Tree([NewFrame(0, 0, false)], [], order, NoScan, false)
  }

  /** One handle less; whoever takes the count from one to zero destroys the frame. */
  function Release(f: Frame): Frame {
    f.(count := if f.count == 0 then 0xFFFF_FFFF else f.count - 1,
       phase := if f.count == 1 then Deregistering else f.phase)
  }

  function Put(t: Tree, id: nat, f: Frame): Tree
    requires id < |t.frames|
  {
    t.(frames := t.frames[id := f])
  }

  predicate Free(f: Frame) {
    f.self == Running && f.busy == None
  }

  function SpawnStep(t: Tree, p: nat, regs: nat, linking: bool): Tree
    requires p < |t.frames|
  {
    var parent := t.frames[p].(busy := if linking then Some(|t.frames|) else None);
    if Free(t.frames[p]) then t.(frames := t.frames[p := parent] + [NewFrame(p, regs, linking)]) else t
  }

  function LinkStep(t: Tree, p: nat): Tree
    requires p < |t.frames|
  {
    match t.frames[p].busy
    case None => t
    case Some(c) =>
      if c < |t.frames| && c != p then
        Put(Put(t, p, t.frames[p].(busy := None, count := t.frames[p].count + 1)),
            c, t.frames[c].(parent := Some(p), linkPending := false))
      else t
  }

  /** The root's handle is dropped only when the spin on the count has seen no other handle. */
  predicate MayDrop(f: Frame, root: bool) {
    f.owner == Held && !f.linkPending && (root ==> f.count <= 1)
  }

  function Dropping(f: Frame): Frame {
    f.(owner := Cleared, outside := false)
  }

  predicate MayAwait(f: Frame) {
    f.owner == Held && !f.linkPending
  }

  function GetReady(f: Frame, w: nat): Frame {
    f.(owner := if f.working == 0 then Reading(w) else Storing(w))
  }

  function OwnerStep(f: Frame): Frame {
    match f.owner
    case Storing(w) => f.(owner := Casing(w), cont := Some(w))
    case Casing(w) => if f.working == 1 then f.(owner := Suspended(w), working := 2) else f.(owner := Reading(w))
    case Reading(_) => f.(owner := Cleared, outside := false)
    case Cleared => Release(f).(owner := Dropped)
    case _ => f
  }

  /** The steps of the final suspend that touch the frame only. */
  function SelfStep(f: Frame): Frame {
    match f.self
    case Returned =>
      if f.working == 1 then f.(working := 0, self := Resetting(None)) else f.(self := Resetting(f.cont))
    case Resetting(k) => Release(f).(self := if k.Some? then Resuming(k.value) else Gone)
    case Resuming(w) => f.(self := Gone, owner := if f.owner == Suspended(w) then Reading(w) else f.owner)
    case _ => f
  }

  predicate Misfires(f: Frame) {
    f.self.Resuming? && f.owner != Suspended(f.self.w)
  }

  function DestroyStep(t: Tree, id: nat): Tree
    requires id < |t.frames|
  {
    var f := t.frames[id];
    match f.phase
    case Deregistering => Put(t, id, if f.regs > 0 then f.(regs := f.regs - 1) else f.(phase := Releasing))
    case Releasing =>
      var t' := Put(t, id, f.(phase := Released));
      if f.parent.Some? && f.parent.value < |t.frames| then Put(t', f.parent.value, Release(t'.frames[f.parent.value]))
      else t'
    case Released => Put(t, id, f.(phase := Freed))
    case _ => t
  }

  function Without(queue: seq<nat>, i: nat): seq<nat>
    requires i < |queue|
  {
    queue[..i] + queue[i + 1..]
  }

  /** The test: the count less the flag is one, in unsigned arithmetic. */
  predicate Ready(count: nat, outside: bool) {
    count == if outside then 2 else 1
  }

  function Verdict(t: Tree, i: nat, ready: bool): Tree
    requires i < |t.queue| && t.queue[i] < |t.frames|
  {
    if ready then
      Put(t, t.queue[i], t.frames[t.queue[i]].(self := Running)).(queue := Without(t.queue, i), scan := Next(i))
    else t.(scan := Next(i + 1))
  }

  /** One action of process_and_extract. */
  function WalkStep(t: Tree): Tree {
    match t.scan
    case NoScan => t.(scan := Next(0))
    case Next(i) =>
      if i < |t.queue| && t.queue[i] < |t.frames| then
        var f := t.frames[t.queue[i]];
        t.(scan := if t.order.CountFirst? then CountRead(i, f.count) else FlagRead(i, f.outside))
      else t.(scan := NoScan)
    case CountRead(i, count) =>
      if i < |t.queue| && t.queue[i] < |t.frames| then Verdict(t, i, Ready(count, t.frames[t.queue[i]].outside)) else t
    case FlagRead(i, outside) =>
      if i < |t.queue| && t.queue[i] < |t.frames| then Verdict(t, i, Ready(t.frames[t.queue[i]].count, outside)) else t
  }

  /** The event's action; an event that is not enabled does nothing. */
  function Step(t: Tree, e: Event): Tree {
    match e
    case Spawn(p, regs, linking) => if p < |t.frames| then SpawnStep(t, p, regs, linking) else t
    case Link(p) => if p < |t.frames| then LinkStep(t, p) else t
    case Drop(id) =>
      if id < |t.frames| && MayDrop(t.frames[id], id == 0) then Put(t, id, Dropping(t.frames[id])) else t
    case Get(id, w) =>
      if 0 < id < |t.frames| && MayAwait(t.frames[id]) then Put(t, id, GetReady(t.frames[id], w)) else t
    case Synchronous(id, w) =>
      if 0 < id < |t.frames| && MayAwait(t.frames[id]) then Put(t, id, t.frames[id].(owner := Storing(w))) else t
    case OwnerMove(id) => if id < |t.frames| then Put(t, id, OwnerStep(t.frames[id])) else t
    case Park(id) =>
      if id < |t.frames| && Free(t.frames[id]) && t.scan.NoScan? then
        Put(t, id, t.frames[id].(self := Parked)).(queue := t.queue + [id])
      else t
    case Return(id) =>
      if id < |t.frames| && Free(t.frames[id]) then Put(t, id, t.frames[id].(self := Returned)) else t
    case SelfMove(id) =>
      if id < |t.frames| then
        Put(t, id, SelfStep(t.frames[id])).(broken := t.broken || Misfires(t.frames[id]))
      else t
    case Destroy(id) => if id < |t.frames| then DestroyStep(t, id) else t
    case Walk => WalkStep(t)
  }

  function Run(order: ReadOrder, events: seq<Event>): Tree {
    if events == [] then Init(order) else Step(Run(order, events[..|events| - 1]), events[|events| - 1])
  }
}
