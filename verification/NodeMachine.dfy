/** The step machine of one resource queue (ResourceNode): one adder and one remover per registered task,
    interleaved at single atomic loads, stores, fetch-adds and compare-and-swaps.

    Positions identify tasks: the entry at position p is the p-th registration, and "handle equals
    tasks[cur].handle" is "cur == p" because handles are unique within a node.
 */
module NodeMachine {
  import opened Access
  import opened Options

  /** How `first.compare_exchange_strong(cur, ++cur, ..)` is read.
      Intended: expected cur, desired cur + 1.
      AsWritten: `cur` is taken by reference, so it is already incremented when it is compared. */
  datatype CasReading = Intended | AsWritten

  datatype Thread = Adder | Remover(pos: nat)

  /** Program counter of add_task; pos is `old_last`. */
  datatype AddPc =
    | AddIdle
    | AddStored(pos: nat)       // entry written, last not yet advanced
    | AddPublished(pos: nat)    // last advanced, about to load firstNotReady
    | AddCheckFirst(pos: nat)   // firstNotReady was pos, about to load first
    | AddCas(pos: nat)          // about to CAS firstNotReady
    | AddNotify(pos: nat)       // CAS won, about to decrement the wait counter

  /** Program counter of remove_task. A walker is a remover that did not find its task at `first`. */
  datatype RemPc =
    | NotStarted
    | HeadInc
    | WalkLoad(cur: nat)
    | Walk(cur: nat, seen: nat)
    | WalkCas
    | Check(cur: nat, walker: bool)
    | CheckFnr(cur: nat, walker: bool)
    | AdvanceCas(cur: nat, walker: bool)
    | GrantFnr(cur: nat)
    | GrantLast(cur: nat, seen: nat)
    | GrantCas(pos: nat)
    | Wake(pos: nat)
    | LoopLast(mode: AccessMode, pos: nat, parallelExit: bool)
    | LoopCas(mode: AccessMode, pos: nat, seenLast: nat)
    | WakeNext(mode: AccessMode, pos: nat, seenLast: nat)
    | Recheck(mode: AccessMode, pos: nat, seenLast: nat)
    | Done

  /** History: which remover moved `first` past a position, and whether it was a walker. No step reads it. */
  datatype Clear = Clear(who: nat, walker: bool)

  datatype Node = Node(
    reading: CasReading,
    modes: seq<AccessMode>,    // access mode of every registration, in registration order
    first: nat,
    fnr: nat,                  // firstNotReady
    last: nat,
    removed: seq<bool>,        // remove_state of every array entry
    notified: seq<bool>,       // whether the wait counter of an entry has been decremented
    adder: AddPc,
    rem: seq<RemPc>,
    cleared: seq<Clear>,       // history, one per position below first
    granter: seq<Thread>       // history, one per position below firstNotReady
  )

  predicate Sized(s: Node) {
    && |s.modes| < |s.removed|
    && |s.notified| == |s.rem| == |s.modes|
  }

  function Init(reading: CasReading, modes: seq<AccessMode>, capacity: nat): (s: Node)
    requires |modes| < capacity
    ensures Sized(s)
  {
    Node(reading, modes, 0, 0, 0, seq(capacity, _ => false), seq(|modes|, _ => false),
         AddIdle, seq(|modes|, _ => NotStarted), [], [])
  }

  // ----- add_task -----

  function AddStep(s: Node): (s': Node)
    requires Sized(s)
    ensures Sized(s') && s'.modes == s.modes && s'.reading == s.reading
  {
    match s.adder
    case AddIdle =>
      if s.last < |s.modes| then s.(adder := AddStored(s.last)) else s
    case AddStored(p) =>
      s.(last := s.last + 1, adder := AddPublished(p))
    case AddPublished(p) =>
      s.(adder := if s.fnr == p then AddCheckFirst(p) else AddIdle)
    case AddCheckFirst(p) =>
      var joins := 0 < p < |s.modes| && !IsSerialAccess(s.modes[p], s.modes[p - 1]);
      s.(adder := if s.first == p || joins then AddCas(p) else AddIdle)
    case AddCas(p) =>
      if s.fnr == p
      then s.(fnr := p + 1, granter := s.granter + [Adder], adder := AddNotify(p))
      else s.(adder := AddIdle)
    case AddNotify(p) =>
      if p < |s.notified| then s.(notified := s.notified[p := true], adder := AddIdle) else s
  }

  // ----- remove_task -----

  function At(s: Node, p: nat, pc: RemPc): (s': Node)
    requires Sized(s) && p < |s.modes|
    ensures Sized(s') && s'.modes == s.modes && s'.reading == s.reading
  {
    s.(rem := s.rem[p := pc])
  }

  /** The value compared with `first` by `compare_exchange_strong(cur, ++cur, ..)`. */
  function Expected(reading: CasReading, cur: nat): nat {
    if reading == Intended then cur else cur + 1
  }

  /** Move first past position cur on behalf of remover p. */
  function Advance(s: Node, p: nat, cur: nat, walker: bool): (s': Node)
    requires Sized(s) && p < |s.modes|
    ensures Sized(s') && s'.modes == s.modes && s'.reading == s.reading
  {
    At(s.(first := cur + 1, cleared := s.cleared + [Clear(p, walker)]), p, Check(cur + 1, walker))
  }

  /** CAS on first by remover p holding `cur`: advance and re-check, or leave. */
  function CasFirst(s: Node, p: nat, cur: nat, walker: bool): (s': Node)
    requires Sized(s) && p < |s.modes|
    ensures Sized(s') && s'.modes == s.modes && s'.reading == s.reading
  {
    if s.first == Expected(s.reading, cur) then Advance(s, p, cur, walker) else At(s, p, Done)
  }

  /** Move firstNotReady past position pos on behalf of remover p. */
  function Grant(s: Node, p: nat, pos: nat, won: RemPc): (s': Node)
    requires Sized(s) && p < |s.modes|
    ensures Sized(s') && s'.modes == s.modes && s'.reading == s.reading
  {
    At(s.(fnr := pos + 1, granter := s.granter + [Remover(p)]), p, won)
  }

  /** CAS on firstNotReady by remover p: grant position pos and continue at `won`, or leave. */
  function CasFnr(s: Node, p: nat, pos: nat, won: RemPc): (s': Node)
    requires Sized(s) && p < |s.modes|
    ensures Sized(s') && s'.modes == s.modes && s'.reading == s.reading
  {
    if s.fnr == pos then Grant(s, p, pos, won) else At(s, p, Done)
  }

  /** Publish remove_state of remover p's own entry. */
  function Mark(s: Node, p: nat): (s': Node)
    requires Sized(s) && p < |s.modes|
    ensures Sized(s') && s'.modes == s.modes && s'.reading == s.reading
  {
    At(s.(removed := s.removed[p := true]), p, WalkCas)
  }

  /** Decrement the wait counter of position pos. */
  function Notify(s: Node, p: nat, pos: nat, next: RemPc): (s': Node)
    requires Sized(s) && p < |s.modes| && pos < |s.modes|
    ensures Sized(s') && s'.modes == s.modes && s'.reading == s.reading
  {
    At(s.(notified := s.notified[pos := true]), p, next)
  }

  /** The thread-local part of the granting loop between two shared accesses:
      the inner while test, the parallel_exit test, or the loop on a changed last. */
  function Inner(modes: seq<AccessMode>, mode: AccessMode, pos: nat, seenLast: nat, parallelExit: bool): RemPc {
    if pos != seenLast then
      if pos < |modes| && !IsSerialAccess(mode, modes[pos]) then LoopCas(mode, pos, seenLast) else Done
    else
      if parallelExit then Recheck(mode, pos, seenLast) else Done
  }

  function RemStep(s: Node, p: nat): (s': Node)
    requires Sized(s) && p < |s.modes|
    ensures Sized(s') && s'.modes == s.modes && s'.reading == s.reading
  {
    match s.rem[p]
    case NotStarted =>
      if s.notified[p] then At(s, p, if s.first == p then HeadInc else WalkLoad(s.first + 1)) else s
    case HeadInc =>
      Advance(s, p, s.first, false)
    case WalkLoad(cur) =>
      At(s, p, Walk(cur, s.fnr))
    case Walk(cur, seen) =>
      if cur == seen then At(s, p, GrantFnr(cur))
      else if cur == p then Mark(s, p)
      else At(s, p, Walk(cur + 1, seen))
    case WalkCas =>
      CasFirst(s, p, p, true)
    case Check(cur, walker) =>
      if cur < |s.removed| && s.removed[cur] then At(s, p, CheckFnr(cur, walker))
      else At(s, p, if walker then Done else GrantFnr(cur))
    case CheckFnr(cur, walker) =>
      At(s, p, if cur != s.fnr then AdvanceCas(cur, walker) else GrantFnr(cur))
    case AdvanceCas(cur, walker) =>
      CasFirst(s, p, cur, walker)
    case GrantFnr(cur) =>
      At(s, p, GrantLast(cur, s.fnr))
    case GrantLast(cur, seen) =>
      At(s, p, if seen == cur && s.last != cur then GrantCas(seen) else Done)
    case GrantCas(pos) =>
      CasFnr(s, p, pos, Wake(pos))
    case Wake(pos) =>
      if pos < |s.modes| then Notify(s, p, pos, LoopLast(s.modes[pos], pos + 1, false)) else s
    case LoopLast(mode, pos, parallelExit) =>
      At(s, p, Inner(s.modes, mode, pos, s.last, parallelExit))
    case LoopCas(mode, pos, seenLast) =>
      CasFnr(s, p, pos, WakeNext(mode, pos, seenLast))
    case WakeNext(mode, pos, seenLast) =>
      if pos < |s.modes| then Notify(s, p, pos, Inner(s.modes, mode, pos + 1, seenLast, true)) else s
    case Recheck(mode, pos, seenLast) =>
      At(s, p, if seenLast != s.last then LoopLast(mode, pos, true) else Done)
    case Done => s
  }

  function Step(s: Node, th: Thread): (s': Node)
    requires Sized(s)
    ensures Sized(s') && s'.modes == s.modes && s'.reading == s.reading
  {
    match th
    case Adder => AddStep(s)
    case Remover(p) => if p < |s.modes| then RemStep(s, p) else s
  }

  /** A run is a schedule: which thread takes the next step. Every interleaving is some schedule. */
  function Exec(s: Node, schedule: seq<Thread>): (s': Node)
    requires Sized(s)
    ensures Sized(s') && s'.modes == s.modes && s'.reading == s.reading
    decreases |schedule|
  {
    if schedule == [] then s else Exec(Step(s, schedule[0]), schedule[1..])
  }

  /** The position whose wait counter the next step of th decrements, if any. */
  function Target(s: Node, th: Thread): (target: Option<nat>) {
    match th
    case Adder => if s.adder.AddNotify? then Some(s.adder.pos) else None
    case Remover(p) =>
      if p < |s.rem| && (s.rem[p].Wake? || s.rem[p].WakeNext?) then Some(s.rem[p].pos) else None
  }
}
