/** The calls of the work-stealing deque: what was asked for, read off the schedule, against what was done. */
module DequeCalls {
  import opened DequeMachine
  import opened DequeTheorems
  import opened Ring

  // ----- the owner's calls -----

  /** The request that begins a call at this step, if any: the owner is between calls. */
  function BeginsAt(d: DequeState, e: Event): seq<Request> {
    if e.Owner? && d.owner.Idle? then [e.request] else []
  }

  /** The requests that began a call, in order. */
  function Begun(d: DequeState, schedule: seq<Event>): seq<Request>
    requires HasBuffers(d)
    decreases |schedule|
  {
    if schedule == [] then [] else BeginsAt(d, schedule[0]) + Begun(Step(d, schedule[0]), schedule[1..])
  }

  /** The request being worked on, until the step that decides it. */
  function Undecided(pc: OwnerPc): seq<Request> {
    match pc
    case PushTop(x, _) => [Emplace(x)]
    case PushStore(x) => [Emplace(x)]
    case PushPublish(x) => [Emplace(x)]
    case PopTop(_) => [Pop]
    case PopCas(_) => [Pop]
    case _ => []
  }

  /** The operations of the abstract deque that answer a call of the owner. */
  function Answer(op: Op): seq<Op> {
    if op.PushBack? || op.PopBack? || op.PopEmpty? then [op] else []
  }

  function Answers(ops: seq<Op>): seq<Op> {
    if ops == [] then [] else Answer(ops[0]) + Answers(ops[1..])
  }

  predicate Answered(request: Request, op: Op) {
    match request
    case Emplace(x) => op == PushBack(x)
    case Pop => op.PopBack? || op.PopEmpty?
  }

  /** The first requests are answered, one by one, and the rest are left. */
  ghost predicate Matches(requests: seq<Request>, ops: seq<Op>, rest: seq<Request>) {
    && |requests| == |ops| + |rest| && requests[|ops|..] == rest
    && forall k :: 0 <= k < |ops| ==> Answered(requests[k], ops[k])
  }

  lemma MatchesOn(a: seq<Request>, first: seq<Op>, m: seq<Request>, b: seq<Request>, later: seq<Op>,
                  rest: seq<Request>)
    requires Matches(a, first, m) && Matches(m + b, later, rest)
    ensures Matches(a + b, first + later, rest)
  {
    var n := |first|;
    assert (a + b)[n..] == m + b;
    assert (a + b)[n + |later|..] == (m + b)[|later|..];
    forall k | 0 <= k < n + |later|
      ensures Answered((a + b)[k], (first + later)[k])
    {
      if k >= n {
        assert (a + b)[k] == (m + b)[k - n];
      }
    }
  }

  lemma Compose(u: seq<Request>, b: seq<Request>, first: seq<Op>, m: seq<Request>, more: seq<Request>, later: seq<Op>,
                rest: seq<Request>)
    requires Matches(u + b, first, m) && Matches(m + more, later, rest)
    ensures Matches(u + (b + more), first + later, rest)
  {
    MatchesOn(u + b, first, m, more, later, rest);
    assert (u + b) + more == u + (b + more);
  }

  lemma StepAnswers(d: DequeState, e: Event)
    requires Inv(d)
    ensures Matches(Undecided(d.owner) + BeginsAt(d, e), Answer(Label(d, e)), Undecided(Step(d, e).owner))
  {
  }

  lemma AnswersHead(op: Op, ops: seq<Op>)
    ensures Answers([op] + ops) == Answer(op) + Answers(ops)
  {
    assert ([op] + ops)[1..] == ops;
  }

  lemma {:induction false} ExecAnswers(d: DequeState, schedule: seq<Event>)
    requires Inv(d)
    ensures Matches(Undecided(d.owner) + Begun(d, schedule), Answers(Trace(d, schedule)),
                    Undecided(Exec(d, schedule).owner))
    decreases |schedule|
  {
    if schedule == [] {
      assert Undecided(d.owner) + [] == Undecided(d.owner);
    } else {
      var e, more := schedule[0], schedule[1..];
      var next := Step(d, e);
      StepRefines(d, e);
      StepAnswers(d, e);
      ExecAnswers(next, more);
      Compose(Undecided(d.owner), BeginsAt(d, e), Answer(Label(d, e)), Undecided(next.owner), Begun(next, more),
              Answers(Trace(next, more)), Undecided(Exec(next, more).owner));
      AnswersHead(Label(d, e), Trace(next, more));
    }
  }

  /** In every interleaving the calls the owner began are answered one by one and in order: an emplace by pushing the
      very value it was called with, a pop by taking the newest element or finding the deque empty; only the call in
      progress is not answered yet. With RunIsLinearizable, whose operations these are, this fixes what every call
      does. */
  lemma CallsAreAnswered(slots: seq<int>, fill: nat -> int, thieves: nat, schedule: seq<Event>)
    requires IsRing(slots)
    ensures
      var d0 := Init(slots, fill, thieves);
      Matches(Begun(d0, schedule), Answers(Trace(d0, schedule)), Undecided(Exec(d0, schedule).owner))
  {
    var d0 := Init(slots, fill, thieves);
    InitInv(slots, fill, thieves);
    ExecAnswers(d0, schedule);
    assert Undecided(d0.owner) + Begun(d0, schedule) == Begun(d0, schedule);
  }

  // ----- the values handed in -----

  function ValueAt(d: DequeState, e: Event): seq<int> {
    if e.Owner? && d.owner.Idle? && e.request.Emplace? then [e.request.value] else []
  }

  /** The values of the emplace calls that began, in order. */
  function Emplaced(d: DequeState, schedule: seq<Event>): seq<int>
    requires HasBuffers(d)
    decreases |schedule|
  {
    if schedule == [] then [] else ValueAt(d, schedule[0]) + Emplaced(Step(d, schedule[0]), schedule[1..])
  }

  /** The value of the emplace in progress. */
  function InProgress(pc: OwnerPc): seq<int> {
    match pc
    case PushTop(x, _) => [x]
    case PushStore(x) => [x]
    case PushPublish(x) => [x]
    case _ => []
  }

  lemma StepPushes(d: DequeState, e: Event)
    requires Inv(d)
    ensures (d.pushed + InProgress(d.owner)) + ValueAt(d, e) == Step(d, e).pushed + InProgress(Step(d, e).owner)
  {
  }

  lemma {:induction false} ExecPushes(d: DequeState, schedule: seq<Event>)
    requires Inv(d)
    ensures
      var d' := Exec(d, schedule);
      (d.pushed + InProgress(d.owner)) + Emplaced(d, schedule) == d'.pushed + InProgress(d'.owner)
    decreases |schedule|
  {
    if schedule != [] {
      var next := Step(d, schedule[0]);
      StepRefines(d, schedule[0]);
      StepPushes(d, schedule[0]);
      ExecPushes(next, schedule[1..]);
      Associate(d.pushed + InProgress(d.owner), ValueAt(d, schedule[0]), Emplaced(next, schedule[1..]));
    }
  }

  /** In every interleaving the values pushed are exactly those the callers of emplace handed in, in order; the last one
      may still be in progress. */
  lemma EmplacedIsPushed(slots: seq<int>, fill: nat -> int, thieves: nat, schedule: seq<Event>)
    requires IsRing(slots)
    ensures
      var d0 := Init(slots, fill, thieves);
      var d := Exec(d0, schedule);
      Emplaced(d0, schedule) == d.pushed + InProgress(d.owner)
  {
    var d0 := Init(slots, fill, thieves);
    InitInv(slots, fill, thieves);
    ExecPushes(d0, schedule);
    assert (d0.pushed + InProgress(d0.owner)) + Emplaced(d0, schedule) == Emplaced(d0, schedule);
  }

  // ----- a thief's calls -----

  lemma {:induction false} ExecLast(d: DequeState, schedule: seq<Event>)
    requires HasBuffers(d) && schedule != []
    ensures
      var n := |schedule| - 1;
      HasBuffers(Exec(d, schedule[..n])) && Exec(d, schedule) == Step(Exec(d, schedule[..n]), schedule[n])
    decreases |schedule|
  {
    var n := |schedule| - 1;
    if n > 0 {
      ExecLast(Step(d, schedule[0]), schedule[1..]);
      assert schedule[1..][..n - 1] == schedule[..n][1..];
    }
  }

  /** Thief i began its present call at event m, which loaded this value of top. */
  ghost predicate BeganAt(d: DequeState, schedule: seq<Event>, i: nat, m: nat, t: nat)
    requires HasBuffers(d)
  {
    && m < |schedule| && schedule[m] == Thief(i)
    && (var p := Exec(d, schedule[..m]); i < |p.thieves| && p.thieves[i] == Away && p.top == t)
    && forall j :: m < j <= |schedule| ==>
         var q := Exec(d, schedule[..j]); i < |q.thieves| && !q.thieves[i].Away?
  }

  lemma ThievesStay(d: DequeState, e: Event)
    requires HasBuffers(d)
    ensures |Step(d, e).thieves| == |d.thieves|
  {
  }

  /** What a step does to a thief that is inside a call after it. */
  lemma ThiefMoves(d: DequeState, e: Event, i: nat)
    requires HasBuffers(d) && i < |Step(d, e).thieves| && !Step(d, e).thieves[i].Away?
    ensures i < |d.thieves|
    ensures d.thieves[i].Away? ==> e == Thief(i) && Step(d, e).thieves[i].t == d.top
    ensures !d.thieves[i].Away? ==> Step(d, e).thieves[i].t == d.thieves[i].t
  {
  }

  lemma {:induction false} ThiefBegan(d: DequeState, schedule: seq<Event>, i: nat) returns (m: nat)
    requires HasBuffers(d) && i < |d.thieves| && d.thieves[i].Away?
    requires i < |Exec(d, schedule).thieves| && !Exec(d, schedule).thieves[i].Away?
    ensures BeganAt(d, schedule, i, m, Exec(d, schedule).thieves[i].t)
    decreases |schedule|
  {
    var n := |schedule| - 1;
    assert schedule != [];
    ExecLast(d, schedule);
    var before := Exec(d, schedule[..n]);
    ThiefMoves(before, schedule[n], i);
    assert schedule[..|schedule|] == schedule;
    if before.thieves[i].Away? {
      m := n;
    } else {
      m := ThiefBegan(d, schedule[..n], i);
      assert forall j :: 0 <= j <= n ==> schedule[..n][..j] == schedule[..j];
    }
  }

  /** The owner has lowered bottom for a pop that has not been decided. */
  predicate Popping(pc: OwnerPc) {
    pc.PopTop? || pc.PopCas?
  }

  /** The thief's next step ends its call without an element. */
  predicate GivesUp(d: DequeState, i: nat)
    requires HasBuffers(d)
  {
    && i < |d.thieves| && !d.thieves[i].Away?
    && ThiefStep(d, i).thieves[i].Away? && ThiefStep(d, i).stolen == d.stolen
  }

  lemma GivingUp(d: DequeState, i: nat)
    requires Inv(d) && GivesUp(d, i)
    ensures d.thieves[i].t < d.top || Content(d) == [] || (|Content(d)| == 1 && Popping(d.owner))
  {
    assert ThiefOk(d, d.thieves[i]);
  }

  /** In every interleaving a steal comes back without an element only if somebody else took the oldest element since
      the call began, or the deque is empty at that moment, or the owner is about to pop the only element. */
  lemma StealRefuses(slots: seq<int>, fill: nat -> int, thieves: nat, schedule: seq<Event>, i: nat) returns (m: nat)
    requires IsRing(slots) && GivesUp(Exec(Init(slots, fill, thieves), schedule), i)
    ensures
      var d0 := Init(slots, fill, thieves);
      var d := Exec(d0, schedule);
      && Ordered(d) && BeganAt(d0, schedule, i, m, d.thieves[i].t)
      && (Exec(d0, schedule[..m]).top < d.top || Content(d) == [] || (|Content(d)| == 1 && Popping(d.owner)))
  {
    var d0 := Init(slots, fill, thieves);
    InitInv(slots, fill, thieves);
    ExecInv(d0, schedule);
    ThiefCount(d0, schedule);
    m := ThiefBegan(d0, schedule, i);
    GivingUp(Exec(d0, schedule), i);
  }

  lemma {:induction false} ThiefCount(d: DequeState, schedule: seq<Event>)
    requires HasBuffers(d)
    ensures |Exec(d, schedule).thieves| == |d.thieves|
    decreases |schedule|
  {
    if schedule != [] {
      ThievesStay(d, schedule[0]);
      ThiefCount(Step(d, schedule[0]), schedule[1..]);
    }
  }

  // ----- every call ends -----

  function OwnerRank(pc: OwnerPc): nat {
    match pc
    case Idle => 0
    case PushTop(_, _) => 3
    case PushStore(_) => 2
    case PushPublish(_) => 1
    case PopTop(_) => 4
    case PopCas(_) => 3
    case PopRestore(_, _) => 2
    case PopRead(_, _) => 1
  }

  function ThiefRank(pc: ThiefPc): nat {
    match pc
    case Away => 0
    case SawTop(_) => 4
    case SawBottom(_) => 3
    case HoldsBuffer(_, _) => 2
    case HoldsValue(_, _) => 1
  }

  /** Every step of a thread inside a call brings that call closer to its end, whatever the others do; a thief outside
      one begins a steal. */
  lemma CallsEnd(slots: seq<int>, fill: nat -> int, thieves: nat, schedule: seq<Event>, request: Request, i: nat)
    requires IsRing(slots)
    ensures
      var d := Exec(Init(slots, fill, thieves), schedule);
      && (!d.owner.Idle? ==> OwnerRank(OwnerStep(d, request).owner) < OwnerRank(d.owner))
      && (i < |d.thieves| && !d.thieves[i].Away? ==>
            ThiefRank(ThiefStep(d, i).thieves[i]) < ThiefRank(d.thieves[i]))
      && (i < |d.thieves| && d.thieves[i].Away? ==> !ThiefStep(d, i).thieves[i].Away?)
  {
    InitInv(slots, fill, thieves);
    ExecInv(Init(slots, fill, thieves), schedule);
    var d := Exec(Init(slots, fill, thieves), schedule);
    assert i < |d.thieves| ==> ThiefOk(d, d.thieves[i]);
  }
}
