/** Every interleaving of the work-stealing deque refines an abstract double-ended sequence. */
module DequeTheorems {
  import opened Ring
  import opened DequeMachine

  // ----- the abstract deque -----

  /** One past the last element that no pop has taken yet. While a pop has lowered bottom but not yet decided,
      the element at bottom is still there. */
  function End(d: DequeState): int {
    if d.owner.PopTop? || d.owner.PopCas? || d.owner.PopRestore? then d.bottom + 1 else d.bottom
  }

  ghost predicate Ordered(d: DequeState) {
    HasBuffers(d) && d.top <= End(d)
  }

  /** The abstract content, oldest element first. */
  function Content(d: DequeState): (c: seq<int>)
    requires Ordered(d)
    ensures |c| == End(d) - d.top
  {
    Slice(Current(d), d.top, End(d))
  }

  // ----- the invariant -----

  ghost predicate OwnerOk(d: DequeState)
    requires Ordered(d)
  {
    match d.owner
    case Idle => true
    case PushTop(_, t) => t <= d.top && d.bottom - t <= |Current(d)|
    case PushStore(_) => d.bottom - d.top < |Current(d)|
    case PushPublish(x) => d.bottom - d.top < |Current(d)| && Load(Current(d), d.bottom) == x
    case PopTop(b) => b == d.bottom
    case PopCas(b) => b == d.bottom <= d.top
    case PopRestore(b, won) =>
      b == d.bottom && d.top == b + 1 && (won.Element? ==> b >= 0 && won.value == Load(Current(d), b))
    case PopRead(b, won) =>
      0 <= b <= d.bottom <= b + 1 && (d.bottom == b + 1 ==> d.top == b + 1) && won == Element(Load(Current(d), b))
  }

  /** If top is still where thief i saw it, the element there has not been taken and is the one i holds. */
  ghost predicate ThiefOk(d: DequeState, pc: ThiefPc)
    requires Ordered(d)
  {
    match pc
    case Away => true
    case SawTop(t) => t <= d.top
    case SawBottom(t) => t <= d.top && (t == d.top ==> t < End(d))
    case HoldsBuffer(t, k) =>
      t <= d.top && k < |d.bufs| && (t == d.top ==> t < End(d) && Load(d.bufs[k], t) == Load(Current(d), t))
    case HoldsValue(t, x) =>
      t <= d.top && (t == d.top ==> t < End(d) && x == Load(Current(d), t))
  }

  ghost predicate Inv(d: DequeState) {
    && Ordered(d)
    && End(d) - d.top <= |Current(d)|
    && OwnerOk(d)
    && forall i :: 0 <= i < |d.thieves| ==> ThiefOk(d, d.thieves[i])
  }

  // ----- what a step does to the abstract deque -----

  datatype Op =
    | Silent
    | PushBack(value: int)
    | PopBack(value: int)
    | PopEmpty
    | StealFront(value: int)

  /** The abstract operation a step performs, read off the program counter. */
  function Label(d: DequeState, e: Event): Op
    requires HasBuffers(d)
  {
    match e
    case Owner(_) =>
      (match d.owner
       case PushPublish(x) => PushBack(x)
       case PopTop(b) =>
         if d.top < b then PopBack(Load(Current(d), b)) else if d.top == b then Silent else PopEmpty
       case PopCas(b) => if d.top == b then PopBack(Load(Current(d), b)) else PopEmpty
       case _ => Silent)
    case Thief(i) =>
      if i < |d.thieves| && d.thieves[i].HoldsValue? && d.thieves[i].t == d.top
      then StealFront(d.thieves[i].value) else Silent
  }

  /** The abstract operation, and when it may happen. */
  ghost predicate Performs(c: seq<int>, op: Op, c': seq<int>) {
    match op
    case Silent => c' == c
    case PushBack(x) => c' == c + [x]
    case PopBack(x) => c == c' + [x]
    case PopEmpty => c == [] && c' == []
    case StealFront(x) => c == [x] + c'
  }

  // -- the owner --

  lemma OwnerShape(d: DequeState, request: Request)
    requires Inv(d)
    ensures
      var d' := OwnerStep(d, request);
      && Ordered(d')
      && d.top <= d'.top && |d.bufs| <= |d'.bufs| && d'.thieves == d.thieves
  {
  }

  /** A resize keeps every logical element; nothing else the owner does before publishing touches one. */
  lemma OwnerKeepsElements(d: DequeState, request: Request, j: nat)
    requires Inv(d) && d.top <= j < End(d)
    ensures Load(Current(OwnerStep(d, request)), j) == Load(Current(d), j)
  {
    match d.owner
    case PushTop(x, t) =>
      CopyKeeps(Current(d), seq(2 * |Current(d)|, d.fill), t, t, d.bottom, j);
    case PushStore(x) =>
      StoreLoad(Current(d), d.bottom, j, x);
    case _ =>
  }

  /** Two deques that agree on a range of elements agree on that slice of their contents. */
  lemma ContentAgrees(d: DequeState, d': DequeState)
    requires Ordered(d) && Ordered(d') && d.top <= d'.top && End(d') <= End(d)
    requires forall j: nat :: d'.top <= j < End(d') ==> Load(Current(d'), j) == Load(Current(d), j)
    ensures Content(d') == Content(d)[d'.top - d.top..End(d') - d.top]
  {
  }

  lemma ContentGrows(d: DequeState, d': DequeState)
    requires Ordered(d) && Ordered(d') && d.top == d'.top && End(d') == End(d) + 1
    requires forall j: nat :: d.top <= j < End(d) ==> Load(Current(d'), j) == Load(Current(d), j)
    ensures Content(d') == Content(d) + [Load(Current(d'), End(d))]
  {
  }

  lemma OwnerRefines(d: DequeState, request: Request)
    requires Inv(d) && Ordered(OwnerStep(d, request))
    ensures Performs(Content(d), Label(d, Owner(request)), Content(OwnerStep(d, request)))
  {
    var d' := OwnerStep(d, request);
    forall j: nat | d.top <= j < End(d) ensures Load(Current(d'), j) == Load(Current(d), j) {
      OwnerKeepsElements(d, request, j);
    }
    if d.owner.PushPublish? {
      ContentGrows(d, d');
    } else {
      ContentAgrees(d, d');
    }
  }

  lemma OwnerKeepsOwner(d: DequeState, request: Request)
    requires Inv(d)
    ensures
      var d' := OwnerStep(d, request);
      Ordered(d') && OwnerOk(d') && End(d') - d'.top <= |Current(d')|
  {
    match d.owner
    case PushStore(x) => StoreLoad(Current(d), d.bottom, d.bottom, x);
    case _ =>
  }

  lemma OwnerKeepsThief(d: DequeState, request: Request, pc: ThiefPc)
    requires Inv(d) && ThiefOk(d, pc) && Ordered(OwnerStep(d, request))
    ensures ThiefOk(OwnerStep(d, request), pc)
  {
    if !pc.Away? && pc.t == d.top && pc.t < End(d) {
      OwnerKeepsElements(d, request, pc.t);
    }
  }

  lemma OwnerInv(d: DequeState, request: Request)
    requires Inv(d)
    ensures Inv(OwnerStep(d, request))
  {
    var d' := OwnerStep(d, request);
    OwnerShape(d, request);
    OwnerKeepsOwner(d, request);
    forall i | 0 <= i < |d'.thieves| ensures ThiefOk(d', d'.thieves[i]) {
      OwnerKeepsThief(d, request, d.thieves[i]);
    }
  }

  // -- a thief --

  lemma ThiefShape(d: DequeState, i: nat)
    requires Inv(d) && i < |d.thieves|
    ensures
      var d' := ThiefStep(d, i);
      && Ordered(d') && d'.bufs == d.bufs && End(d') == End(d)
      && (match Label(d, Thief(i))
          case StealFront(x) => d'.top == d.top + 1 && d.top < End(d) && x == Load(Current(d), d.top)
          case _ => d'.top == d.top && Label(d, Thief(i)) == Silent)
  {
    assert ThiefOk(d, d.thieves[i]);
  }

  lemma ThiefRefines(d: DequeState, i: nat)
    requires Inv(d) && i < |d.thieves|
    ensures Ordered(ThiefStep(d, i))
    ensures Performs(Content(d), Label(d, Thief(i)), Content(ThiefStep(d, i)))
  {
    ThiefShape(d, i);
    ContentAgrees(d, ThiefStep(d, i));
  }

  lemma ThiefKeepsThief(d: DequeState, i: nat, pc: ThiefPc)
    requires Inv(d) && i < |d.thieves| && ThiefOk(d, pc) && Ordered(ThiefStep(d, i))
    ensures ThiefOk(ThiefStep(d, i), pc)
  {
    ThiefShape(d, i);
  }

  lemma ThiefKeepsItself(d: DequeState, i: nat)
    requires Inv(d) && i < |d.thieves| && Ordered(ThiefStep(d, i))
    ensures ThiefOk(ThiefStep(d, i), ThiefStep(d, i).thieves[i])
  {
    assert ThiefOk(d, d.thieves[i]);
  }

  lemma ThiefKeepsOwner(d: DequeState, i: nat)
    requires Inv(d) && i < |d.thieves|
    ensures
      var d' := ThiefStep(d, i);
      Ordered(d') && OwnerOk(d') && End(d') - d'.top <= |Current(d')|
  {
    assert ThiefOk(d, d.thieves[i]);
  }

  lemma ThiefInv(d: DequeState, i: nat)
    requires Inv(d) && i < |d.thieves|
    ensures Inv(ThiefStep(d, i))
  {
    var d' := ThiefStep(d, i);
    ThiefKeepsOwner(d, i);
    forall k | 0 <= k < |d'.thieves| ensures ThiefOk(d', d'.thieves[k]) {
      if k == i {
        ThiefKeepsItself(d, i);
      } else {
        ThiefKeepsThief(d, i, d.thieves[k]);
      }
    }
  }

  // ----- every run -----

  lemma InitInv(slots: seq<int>, fill: nat -> int, thieves: nat)
    requires IsRing(slots)
    ensures Inv(Init(slots, fill, thieves)) && Content(Init(slots, fill, thieves)) == []
  {
  }

  /** Linearizability, one step: each step of each thread performs one operation of the abstract deque or
      none, and it performs it at the end the operation works on. */
  lemma StepRefines(d: DequeState, e: Event)
    requires Inv(d)
    ensures Inv(Step(d, e)) && Performs(Content(d), Label(d, e), Content(Step(d, e)))
  {
    match e
    case Owner(request) =>
      OwnerInv(d, request);
      OwnerRefines(d, request);
    case Thief(i) =>
      if i < |d.thieves| {
        ThiefInv(d, i);
        ThiefRefines(d, i);
      }
  }

  lemma {:induction false} ExecInv(d: DequeState, schedule: seq<Event>)
    requires Inv(d)
    ensures Inv(Exec(d, schedule))
    decreases |schedule|
  {
    if schedule != [] {
      StepRefines(d, schedule[0]);
      ExecInv(Step(d, schedule[0]), schedule[1..]);
    }
  }

  // ----- linearizability of whole runs -----

  /** The abstract operations of a run, in the order of the steps that perform them. */
  function Trace(d: DequeState, schedule: seq<Event>): seq<Op>
    requires HasBuffers(d)
    decreases |schedule|
  {
    if schedule == [] then [] else [Label(d, schedule[0])] + Trace(Step(d, schedule[0]), schedule[1..])
  }

  /** The operations, one by one, lead the abstract sequence from c to c'. */
  ghost predicate Replays(c: seq<int>, ops: seq<Op>, c': seq<int>)
    decreases |ops|
  {
    if ops == [] then c' == c else exists m :: Performs(c, ops[0], m) && Replays(m, ops[1..], c')
  }

  datatype Kind = Pushes | Pops | Steals

  function Value(op: Op, kind: Kind): seq<int> {
    match op
    case PushBack(x) => if kind == Pushes then [x] else []
    case PopBack(x) => if kind == Pops then [x] else []
    case StealFront(x) => if kind == Steals then [x] else []
    case _ => []
  }

  /** The values of the operations of one kind, in order. */
  function Values(ops: seq<Op>, kind: Kind): seq<int> {
    if ops == [] then [] else Value(ops[0], kind) + Values(ops[1..], kind)
  }

  /** The values of the pops decided so far, in order. */
  function Decided(d: DequeState): seq<int> {
    match d.owner
    case PopRestore(_, Element(x)) => d.popped + [x]
    case PopRead(_, Element(x)) => d.popped + [x]
    case _ => d.popped
  }

  function History(d: DequeState, kind: Kind): seq<int> {
    match kind
    case Pushes => d.pushed
    case Pops => Decided(d)
    case Steals => d.stolen
  }

  lemma StepHistory(d: DequeState, e: Event, kind: Kind)
    requires Inv(d)
    ensures History(Step(d, e), kind) == History(d, kind) + Value(Label(d, e), kind)
  {
  }

  lemma ReplaysHead(c: seq<int>, op: Op, m: seq<int>, ops: seq<Op>, c': seq<int>)
    requires Performs(c, op, m) && Replays(m, ops, c')
    ensures Replays(c, [op] + ops, c')
  {
    assert ([op] + ops)[1..] == ops;
  }

  lemma ValuesHead(op: Op, ops: seq<Op>, kind: Kind)
    ensures Values([op] + ops, kind) == Value(op, kind) + Values(ops, kind)
  {
    assert ([op] + ops)[1..] == ops;
  }

  lemma {:induction false} TraceReplays(d: DequeState, schedule: seq<Event>)
    requires Inv(d)
    ensures Ordered(Exec(d, schedule))
    ensures Replays(Content(d), Trace(d, schedule), Content(Exec(d, schedule)))
    decreases |schedule|
  {
    if schedule != [] {
      var next := Step(d, schedule[0]);
      StepRefines(d, schedule[0]);
      TraceReplays(next, schedule[1..]);
      ReplaysHead(Content(d), Label(d, schedule[0]), Content(next), Trace(next, schedule[1..]),
                  Content(Exec(next, schedule[1..])));
    }
  }

  lemma Associate(a: seq<int>, b: seq<int>, c: seq<int>)
    ensures (a + b) + c == a + (b + c)
  {
  }

  lemma {:induction false} TraceHistory(d: DequeState, schedule: seq<Event>, kind: Kind)
    requires Inv(d)
    ensures History(Exec(d, schedule), kind) == History(d, kind) + Values(Trace(d, schedule), kind)
    decreases |schedule|
  {
    if schedule != [] {
      var next := Step(d, schedule[0]);
      StepRefines(d, schedule[0]);
      StepHistory(d, schedule[0], kind);
      TraceHistory(next, schedule[1..], kind);
      ValuesHead(Label(d, schedule[0]), Trace(next, schedule[1..]), kind);
      Associate(History(d, kind), Value(Label(d, schedule[0]), kind), Values(Trace(next, schedule[1..]), kind));
    }
  }

  /** Linearizability: every run of one owner and any number of thieves is a run of the abstract sequence, in which
      pushes append at the back, pops take the back element or find the sequence empty, and steals take the front
      element; the calls return, in order, exactly what those operations return. */
  lemma RunIsLinearizable(slots: seq<int>, fill: nat -> int, thieves: nat, schedule: seq<Event>)
    requires IsRing(slots)
    ensures
      var d := Exec(Init(slots, fill, thieves), schedule);
      var ops := Trace(Init(slots, fill, thieves), schedule);
      && Ordered(d) && Replays([], ops, Content(d))
      && d.pushed == Values(ops, Pushes) && d.stolen == Values(ops, Steals) && Decided(d) == Values(ops, Pops)
      && (d.owner == Idle ==> Decided(d) == d.popped)
  {
    InitInv(slots, fill, thieves);
    TraceReplays(Init(slots, fill, thieves), schedule);
    TraceHistory(Init(slots, fill, thieves), schedule, Pushes);
    TraceHistory(Init(slots, fill, thieves), schedule, Pops);
    TraceHistory(Init(slots, fill, thieves), schedule, Steals);
  }

  // ----- conservation -----

  /** The element a pop has taken and not yet returned. */
  function InHand(d: DequeState): multiset<int> {
    match d.owner
    case PopRestore(_, Element(x)) => multiset{x}
    case PopRead(_, Element(x)) => multiset{x}
    case _ => multiset{}
  }

  /** Everything pushed is in the deque, in the popping owner's hand, returned by a pop, or returned by a steal,
      each exactly as often as it was pushed. */
  ghost predicate Conserved(d: DequeState)
    requires Ordered(d)
  {
    multiset(d.pushed) == multiset(Content(d)) + InHand(d) + multiset(d.popped) + multiset(d.stolen)
  }

  /** The element an operation puts in, and the one it takes out. */
  function Put(op: Op): multiset<int> {
    if op.PushBack? then multiset{op.value} else multiset{}
  }

  function Took(op: Op): multiset<int> {
    if op.PopBack? then multiset{op.value} else multiset{}
  }

  lemma OwnerPuts(d: DequeState, request: Request)
    requires HasBuffers(d)
    ensures
      var d' := OwnerStep(d, request);
      && d'.stolen == d.stolen
      && multiset(d'.pushed) == multiset(d.pushed) + Put(Label(d, Owner(request)))
  {
  }

  lemma OwnerTakes(d: DequeState, request: Request)
    requires Ordered(d) && OwnerOk(d)
    ensures
      var d' := OwnerStep(d, request);
      InHand(d') + multiset(d'.popped) == InHand(d) + multiset(d.popped) + Took(Label(d, Owner(request)))
  {
    if d.owner.PopRead? {
      OwnerReads(d, request);
    } else {
      OwnerTakesBefore(d, request);
    }
  }

  lemma OwnerReads(d: DequeState, request: Request)
    requires Ordered(d) && OwnerOk(d) && d.owner.PopRead?
    ensures
      var d' := OwnerStep(d, request);
      InHand(d') + multiset(d'.popped) == InHand(d) + multiset(d.popped) + Took(Label(d, Owner(request)))
  {
    var x := Load(Current(d), d.owner.b);
    assert multiset(d.popped + [x]) == multiset(d.popped) + multiset{x};
  }

  lemma OwnerTakesBefore(d: DequeState, request: Request)
    requires Ordered(d) && OwnerOk(d) && !d.owner.PopRead?
    ensures
      var d' := OwnerStep(d, request);
      && d'.popped == d.popped
      && InHand(d') == InHand(d) + Took(Label(d, Owner(request)))
  {
  }

  lemma OwnerBalances(c: seq<int>, op: Op, c': seq<int>)
    requires Performs(c, op, c') && !op.StealFront?
    ensures multiset(c') + Took(op) == multiset(c) + Put(op)
  {
  }

  lemma OwnerConserves(d: DequeState, request: Request)
    requires Inv(d) && Conserved(d) && Ordered(OwnerStep(d, request))
    ensures Conserved(OwnerStep(d, request))
  {
    OwnerRefines(d, request);
    OwnerPuts(d, request);
    OwnerTakes(d, request);
    OwnerBalances(Content(d), Label(d, Owner(request)), Content(OwnerStep(d, request)));
    Rearrange(d, OwnerStep(d, request), Put(Label(d, Owner(request))), Took(Label(d, Owner(request))));
  }

  lemma Rearrange(d: DequeState, d': DequeState, put: multiset<int>, took: multiset<int>)
    requires Ordered(d) && Ordered(d') && Conserved(d)
    requires d'.stolen == d.stolen && multiset(d'.pushed) == multiset(d.pushed) + put
    requires InHand(d') + multiset(d'.popped) == InHand(d) + multiset(d.popped) + took
    requires multiset(Content(d')) + took == multiset(Content(d)) + put
    ensures Conserved(d')
  {
    var h, h' := InHand(d) + multiset(d.popped), InHand(d') + multiset(d'.popped);
    assert multiset(d'.pushed) == multiset(Content(d)) + put + h + multiset(d.stolen);
    assert multiset(d'.pushed) == multiset(Content(d')) + h' + multiset(d'.stolen);
  }

  lemma ThiefHistories(d: DequeState, i: nat)
    requires HasBuffers(d) && i < |d.thieves|
    ensures
      var d' := ThiefStep(d, i);
      && d'.pushed == d.pushed && d'.popped == d.popped && d'.owner == d.owner
      && multiset(d'.stolen) == multiset(d.stolen) +
           (if Label(d, Thief(i)).StealFront? then multiset{Label(d, Thief(i)).value} else multiset{})
  {
  }

  lemma ThiefConserves(d: DequeState, i: nat)
    requires Inv(d) && Conserved(d) && i < |d.thieves| && Ordered(ThiefStep(d, i))
    ensures Conserved(ThiefStep(d, i))
  {
    ThiefRefines(d, i);
    ThiefHistories(d, i);
  }

  lemma {:induction false} ExecConserves(d: DequeState, schedule: seq<Event>)
    requires Inv(d) && Conserved(d)
    ensures Inv(Exec(d, schedule)) && Conserved(Exec(d, schedule))
    decreases |schedule|
  {
    if schedule != [] {
      var d' := Step(d, schedule[0]);
      StepRefines(d, schedule[0]);
      match schedule[0] {
        case Owner(request) => OwnerConserves(d, request);
        case Thief(i) => if i < |d.thieves| { ThiefConserves(d, i); }
      }
      ExecConserves(d', schedule[1..]);
    }
  }

  /** For one owner and any number of thieves in any interleaving, from any initial buffer: when the owner is
      between calls, the pushed elements are exactly those popped, those stolen, and those between top and bottom. */
  lemma NothingLostOrDuplicated(slots: seq<int>, fill: nat -> int, thieves: nat, schedule: seq<Event>)
    requires IsRing(slots)
    ensures
      var d := Exec(Init(slots, fill, thieves), schedule);
      && Ordered(d)
      && multiset(d.pushed) == multiset(Content(d)) + InHand(d) + multiset(d.popped) + multiset(d.stolen)
      && (d.owner == Idle ==>
           && d.top <= d.bottom
           && |Content(d)| == d.bottom - d.top
           && multiset(d.pushed) == multiset(Content(d)) + multiset(d.popped) + multiset(d.stolen))
  {
    InitInv(slots, fill, thieves);
    ExecConserves(Init(slots, fill, thieves), schedule);
  }

  // ----- the thief's speculative read -----

  /** A thief whose CAS on top succeeds returns the oldest element of the deque at that moment, however
      often the owner has replaced the buffer since the thief loaded its pointer, and although it read the slot
      before the CAS. */
  lemma StolenIsOldest(slots: seq<int>, fill: nat -> int, thieves: nat, schedule: seq<Event>, i: nat)
    requires IsRing(slots)
    ensures
      var d := Exec(Init(slots, fill, thieves), schedule);
      && Ordered(d)
      && (i < |d.thieves| && d.thieves[i].HoldsValue? && d.thieves[i].t == d.top ==>
           Content(d) != [] && Content(d)[0] == d.thieves[i].value)
  {
    InitInv(slots, fill, thieves);
    ExecInv(Init(slots, fill, thieves), schedule);
    var d := Exec(Init(slots, fill, thieves), schedule);
    assert i < |d.thieves| ==> ThiefOk(d, d.thieves[i]);
  }

  /** The value a pop returns is the one it took at the step that decided it, which was the newest element then. */
  lemma PoppedIsTaken(slots: seq<int>, fill: nat -> int, thieves: nat, schedule: seq<Event>)
    requires IsRing(slots)
    ensures
      var d := Exec(Init(slots, fill, thieves), schedule);
      d.owner.PopRead? ==>
        && d.owner.won.Element?
        && OwnerStep(d, Pop).popped == d.popped + [d.owner.won.value]
  {
    InitInv(slots, fill, thieves);
    ExecInv(Init(slots, fill, thieves), schedule);
  }

  lemma {:induction false} ThievesKeepOwner(d: DequeState, more: seq<Event>)
    requires HasBuffers(d) && forall e :: e in more ==> e.Thief?
    ensures Exec(d, more).owner == d.owner && Exec(d, more).bottom == d.bottom
    decreases |more|
  {
    if more != [] {
      assert more[0] in more && forall e :: e in more[1..] ==> e in more;
      ThievesKeepOwner(Step(d, more[0]), more[1..]);
    }
  }

  /** An element the owner has taken, with or without a CAS, and not yet returned is never won by a thief, wherever any
      thief was when the owner took it and whatever the thieves do until the owner returns: no thief ever holds the
      element at that index with top still there. Taken without a CAS, it stays beyond the reach of top. */
  lemma TakenWithoutCasIsSafe(slots: seq<int>, fill: nat -> int, thieves: nat, schedule: seq<Event>, more: seq<Event>,
                              i: nat)
    requires IsRing(slots) && forall e :: e in more ==> e.Thief?
    ensures
      var d := Exec(Init(slots, fill, thieves), schedule);
      var d' := Exec(d, more);
      d.owner.PopRead? ==>
        && d'.owner == d.owner
        && (d.bottom == d.owner.b ==> d'.top <= d.owner.b)
        && (i < |d'.thieves| && d'.thieves[i].HoldsValue? && d'.thieves[i].t == d'.top ==>
             d'.thieves[i].t != d.owner.b)
  {
    var d0 := Init(slots, fill, thieves);
    InitInv(slots, fill, thieves);
    ExecInv(d0, schedule);
    ExecInv(Exec(d0, schedule), more);
    ThievesKeepOwner(Exec(d0, schedule), more);
    if Exec(d0, schedule).owner.PopRead? {
      TakenIsBeyondThieves(Exec(Exec(d0, schedule), more), i);
    }
  }

  lemma TakenIsBeyondThieves(d: DequeState, i: nat)
    requires Inv(d) && d.owner.PopRead?
    ensures d.bottom == d.owner.b ==> d.top <= d.owner.b
    ensures i < |d.thieves| && d.thieves[i].HoldsValue? && d.thieves[i].t == d.top ==> d.thieves[i].t != d.owner.b
  {
    assert i < |d.thieves| ==> ThiefOk(d, d.thieves[i]);
  }
}
