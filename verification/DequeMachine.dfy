/** The step machine of the work-stealing deque: one owner that pushes and pops, any number of thieves, and a
    circular buffer that the owner replaces by a larger one while thieves may still hold the old one.
    Every step is one access to shared memory.
 */
module DequeMachine {
  import opened Ring

  /** What the owner asks for when it is between calls. */
  datatype Request = Emplace(value: int) | Pop

  datatype OwnerPc =
    | Idle
    | PushTop(value: int, seenTop: nat)   // top loaded
    | PushStore(value: int)               // the current buffer has room
    | PushPublish(value: int)             // slot written, about to advance bottom
    | PopTop(b: int)                      // bottom lowered to b, about to load top
    | PopCas(b: int)                      // one element seen, about to CAS top
    | PopRestore(b: int, won: Taken)      // about to store b + 1 to bottom
    | PopRead(b: int, won: Taken)         // about to read slot b and return it

  /** History: the element a pop took at the step that decided it. No step reads it. */
  datatype Taken = Nothing | Element(value: int)

  datatype ThiefPc =
    | Away
    | SawTop(t: nat)
    | SawBottom(t: nat)                   // top < bottom seen, about to load the buffer pointer
    | HoldsBuffer(t: nat, buf: nat)       // about to read slot t of that buffer
    | HoldsValue(t: nat, value: int)      // about to CAS top

  datatype DequeState = DequeState(
    top: nat,
    bottom: int,
    bufs: seq<seq<int>>,                  // every buffer ever allocated; the last one is current
    fill: nat -> int,                     // what freshly allocated memory happens to hold
    owner: OwnerPc,
    thieves: seq<ThiefPc>,
    pushed: seq<int>,                     // history: values whose emplace has published
    popped: seq<int>,                     // history: values returned by pop
    stolen: seq<int>                      // history: values returned by steal
  )

  datatype Event = Owner(request: Request) | Thief(id: nat)

  predicate HasBuffers(d: DequeState) {
    |d.bufs| > 0 && forall k :: 0 <= k < |d.bufs| ==> IsRing(d.bufs[k])
  }

  function Current(d: DequeState): (c: seq<int>)
    requires HasBuffers(d)
    ensures IsRing(c)
  {
    d.bufs[|d.bufs| - 1]
  }

  function Init(slots: seq<int>, fill: nat -> int, thieves: nat): (d: DequeState)
    requires IsRing(slots)
    ensures HasBuffers(d)
  {
    DequeState(0, 0, [slots], fill, Idle, seq(thieves, _ => Away), [], [], [])
  }

  /** A new buffer of twice the capacity holding the logical elements [t, b); the rest is whatever memory held. */
  function Resized(slots: seq<int>, fill: nat -> int, t: nat, b: nat): (s: seq<int>)
    requires IsRing(slots)
    ensures |s| == 2 * |slots|
  {
    Copy(slots, seq(2 * |slots|, fill), t, b)
  }

  function OwnerStep(d: DequeState, request: Request): (d': DequeState)
    requires HasBuffers(d)
    ensures HasBuffers(d')
  {
    match d.owner
    case Idle =>
      (match request
       case Emplace(x) => d.(owner := PushTop(x, d.top))
       case Pop => d.(bottom := d.bottom - 1, owner := PopTop(d.bottom - 1)))
    case PushTop(x, t) =>
      if d.bottom >= 0 && |Current(d)| < d.bottom - t + 1
      then d.(bufs := d.bufs + [Resized(Current(d), d.fill, t, d.bottom)], owner := PushStore(x))
      else d.(owner := PushStore(x))
    case PushStore(x) =>
      if d.bottom >= 0
      then d.(bufs := d.bufs[|d.bufs| - 1 := Store(Current(d), d.bottom, x)], owner := PushPublish(x))
      else d
    case PushPublish(x) =>
      d.(bottom := d.bottom + 1, pushed := d.pushed + [x], owner := Idle)
    case PopTop(b) =>
      if d.top < b then d.(owner := PopRead(b, Element(Load(Current(d), b))))
      else if d.top == b then d.(owner := PopCas(b))
      else d.(owner := PopRestore(b, Nothing))
    case PopCas(b) =>
      if d.top == b
      then d.(top := b + 1, owner := PopRestore(b, Element(Load(Current(d), b))))
      else d.(owner := PopRestore(b, Nothing))
    case PopRestore(b, won) =>
      d.(bottom := b + 1, owner := if won.Element? then PopRead(b, won) else Idle)
    case PopRead(b, _) =>
      if b >= 0 then d.(popped := d.popped + [Load(Current(d), b)], owner := Idle) else d
  }

  function ThiefStep(d: DequeState, i: nat): (d': DequeState)
    requires HasBuffers(d) && i < |d.thieves|
    ensures HasBuffers(d')
  {
    match d.thieves[i]
    case Away => d.(thieves := d.thieves[i := SawTop(d.top)])
    case SawTop(t) => d.(thieves := d.thieves[i := if t < d.bottom then SawBottom(t) else Away])
    case SawBottom(t) => d.(thieves := d.thieves[i := HoldsBuffer(t, |d.bufs| - 1)])
    case HoldsBuffer(t, k) =>
      if k < |d.bufs| then d.(thieves := d.thieves[i := HoldsValue(t, Load(d.bufs[k], t))]) else d
    case HoldsValue(t, x) =>
      if d.top == t
      then d.(top := t + 1, stolen := d.stolen + [x], thieves := d.thieves[i := Away])
      else d.(thieves := d.thieves[i := Away])
  }

  function Step(d: DequeState, e: Event): (d': DequeState)
    requires HasBuffers(d)
    ensures HasBuffers(d')
  {
    match e
    case Owner(request) => OwnerStep(d, request)
    case Thief(i) => if i < |d.thieves| then ThiefStep(d, i) else d
  }

  function Exec(d: DequeState, schedule: seq<Event>): (d': DequeState)
    requires HasBuffers(d)
    ensures HasBuffers(d')
    decreases |schedule|
  {
    if schedule == [] then d else Exec(Step(d, schedule[0]), schedule[1..])
  }
}
