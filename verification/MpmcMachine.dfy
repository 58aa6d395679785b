/** The step machine of the bounded ticket queue: any number of threads calling emplace, try_emplace, pop and
    try_pop, one atomic action a step. Tickets are unbounded here: the 64-bit ticket counters are taken not to
    wrap.
 */
module MpmcMachine {
  import opened Options

  datatype Request = Emplace(value: int) | TryEmplace(value: int) | Pop | TryPop

  datatype Pc =
    | Idle
    | EmplaceWait(k: nat, value: int)      // ticket k taken, spinning on its slot
    | Construct(k: nat, value: int)        // the slot is ours, about to construct
    | PublishFull(k: nat)                  // constructed, about to store the odd turn
    | TryEmplaceTurn(k: nat, value: int)   // head loaded as k, about to load the slot's turn
    | TryEmplaceCas(k: nat, value: int)    // the slot was free for k, about to CAS head
    | TryEmplaceReload(k: nat, value: int) // it was not, about to load head again
    | PopWait(k: nat)
    | Move(k: nat)
    | Destroy(k: nat, value: int)
    | PublishFree(k: nat, value: int)      // destroyed, about to store the next even turn
    | TryPopTurn(k: nat)
    | TryPopCas(k: nat)
    | TryPopReload(k: nat)

  /** user: history, the thread that last constructed or destroyed a value here. */
  datatype Slot = Slot(turn: nat, storage: Option<int>, user: nat)

  /** issued and makers: history, the value and the thread of every producer ticket; takers: history, the thread of
      every consumer ticket; received: history, what the consumer of every finished ticket was given; constructed and
      destroyed: history, the values constructed and destroyed in slots. */
  datatype Queue = Queue(
    slots: seq<Slot>,
    head: nat,
    tail: nat,
    threads: seq<Pc>,
    issued: seq<int>,
    makers: seq<nat>,
    takers: seq<nat>,
    received: map<nat, int>,
    constructed: multiset<int>,
    destroyed: multiset<int>
  )

  function Idx(c: nat, k: nat): (i: nat)
    requires c > 0
    ensures i < c
  {
    k % c
  }

  function Turn(c: nat, k: nat): nat
    requires c > 0
  {
    k / c
  }

  function At(slots: seq<Slot>, k: nat): Slot
    requires |slots| > 0
  {
    slots[Idx(|slots|, k)]
  }

  function SetAt(slots: seq<Slot>, k: nat, s: Slot): (slots': seq<Slot>)
    requires |slots| > 0
    ensures |slots'| == |slots|
  {
    slots[Idx(|slots|, k) := s]
  }

  /** The slot is free for the producer of ticket k. */
  predicate FreeFor(slots: seq<Slot>, k: nat)
    requires |slots| > 0
  {
    At(slots, k).turn == 2 * Turn(|slots|, k)
  }

  /** The slot holds the published value of ticket k. */
  predicate FullFor(slots: seq<Slot>, k: nat)
    requires |slots| > 0
  {
    At(slots, k).turn == 2 * Turn(|slots|, k) + 1
  }

  function Init(capacity: nat, threads: nat): (q: Queue)
    requires capacity > 0
    ensures |q.slots| == capacity
  {
    Queue(seq(capacity, _ => Slot(0, None, 0)), 0, 0, seq(threads, _ => Idle), [], [], [], map[],
          multiset{}, multiset{})
  }

  function Go(q: Queue, i: nat, pc: Pc): Queue
    requires i < |q.threads|
  {
    q.(threads := q.threads[i := pc])
  }

  function TakeHead(q: Queue, i: nat, x: int, pc: Pc): Queue
    requires i < |q.threads|
  {
    Go(q, i, pc).(head := q.head + 1, issued := q.issued + [x], makers := q.makers + [i])
  }

  function TakeTail(q: Queue, i: nat, pc: Pc): Queue
    requires i < |q.threads|
  {
    Go(q, i, pc).(tail := q.tail + 1, takers := q.takers + [i])
  }

  function Held(v: Option<int>): multiset<int> {
    if v.Some? then multiset{v.value} else multiset{}
  }

  /** Construct or destroy the value in the slot of ticket k. */
  function Touch(q: Queue, i: nat, k: nat, v: Option<int>, pc: Pc): (q': Queue)
    requires i < |q.threads| && |q.slots| > 0
    ensures |q'.slots| == |q.slots|
  {
    Go(q, i, pc).(slots := SetAt(q.slots, k, At(q.slots, k).(storage := v, user := i)),
                  constructed := q.constructed + Held(v),
                  destroyed := q.destroyed + if v.Some? then multiset{} else Held(At(q.slots, k).storage))
  }

  function Publish(q: Queue, i: nat, k: nat, turn: nat): (q': Queue)
    requires i < |q.threads| && |q.slots| > 0
    ensures |q'.slots| == |q.slots|
  {
    Go(q, i, Idle).(slots := SetAt(q.slots, k, At(q.slots, k).(turn := turn)))
  }

  function Step(q: Queue, i: nat, request: Request): (q': Queue)
    requires i < |q.threads| && |q.slots| > 0
    ensures |q'.slots| == |q.slots| && |q'.threads| == |q.threads|
  {
    match q.threads[i]
    case Idle =>
      (match request
       case Emplace(x) => TakeHead(q, i, x, EmplaceWait(q.head, x))
       case TryEmplace(x) => Go(q, i, TryEmplaceTurn(q.head, x))
       case Pop => TakeTail(q, i, PopWait(q.tail))
       case TryPop => Go(q, i, TryPopTurn(q.tail)))
    case EmplaceWait(k, x) => if FreeFor(q.slots, k) then Go(q, i, Construct(k, x)) else q
    case Construct(k, x) => Touch(q, i, k, Some(x), PublishFull(k))
    case PublishFull(k) => Publish(q, i, k, 2 * Turn(|q.slots|, k) + 1)
    case TryEmplaceTurn(k, x) =>
      Go(q, i, if FreeFor(q.slots, k) then TryEmplaceCas(k, x) else TryEmplaceReload(k, x))
    case TryEmplaceCas(k, x) =>
      if q.head == k then TakeHead(q, i, x, Construct(k, x)) else Go(q, i, TryEmplaceTurn(q.head, x))
    case TryEmplaceReload(k, x) => Go(q, i, if q.head == k then Idle else TryEmplaceTurn(q.head, x))
    case PopWait(k) => if FullFor(q.slots, k) then Go(q, i, Move(k)) else q
    case Move(k) =>
      var stored := At(q.slots, k).storage;
      Go(q, i, Destroy(k, if stored.Some? then stored.value else 0))
    case Destroy(k, x) => Touch(q, i, k, None, PublishFree(k, x))
    case PublishFree(k, x) =>
      Publish(q, i, k, 2 * Turn(|q.slots|, k) + 2).(received := q.received[k := x])
    case TryPopTurn(k) => Go(q, i, if FullFor(q.slots, k) then TryPopCas(k) else TryPopReload(k))
    case TryPopCas(k) => if q.tail == k then TakeTail(q, i, Move(k)) else Go(q, i, TryPopTurn(q.tail))
    case TryPopReload(k) => Go(q, i, if q.tail == k then Idle else TryPopTurn(q.tail))
  }

  datatype Event = Event(thread: nat, request: Request)

  /** The state after a schedule; an event of a thread that does not exist does nothing. */
  function Exec(q: Queue, schedule: seq<Event>): (q': Queue)
    requires |q.slots| > 0
    ensures |q'.slots| == |q.slots| && |q'.threads| == |q.threads|
  {
    if schedule == [] then q
    else
      var before := Exec(q, schedule[..|schedule| - 1]);
      var e := schedule[|schedule| - 1];
      if e.thread < |q.threads| then Step(before, e.thread, e.request) else before
  }
}
