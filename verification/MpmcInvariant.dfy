/** The invariant of the bounded ticket queue and its preservation by every step. */
module MpmcInvariant {
  import opened MpmcMachine
  import opened Options
  import Ring

  // ----- tickets -----

  /** Of two tickets of one slot the later has the later turn. */
  lemma TicketOrder(c: nat, k: nat, j: nat)
    requires c > 0
    ensures Idx(c, k) == Idx(c, j) && k < j ==> Turn(c, k) < Turn(c, j)
    ensures Idx(c, k) == Idx(c, j) && j < k ==> Turn(c, j) < Turn(c, k)
  {
    assert k == c * (k / c) + k % c && j == c * (j / c) + j % c;
    Ring.MulDistributes(c, k / c, j / c);
    Ring.MultipleIsFar(c, k / c - j / c);
  }

  // ----- the invariant -----

  predicate Producing(pc: Pc) {
    pc.EmplaceWait? || pc.Construct? || pc.PublishFull?
  }

  predicate Consuming(pc: Pc) {
    pc.PopWait? || pc.Move? || pc.Destroy? || pc.PublishFree?
  }

  /** Inside construct, move or destroy of the slot of its ticket, or about to publish it. */
  predicate Inside(pc: Pc) {
    pc.Construct? || pc.PublishFull? || pc.Move? || pc.Destroy? || pc.PublishFree?
  }

  /** A slot has not been published further than its tickets were taken. */
  ghost predicate TicketsOk(slots: seq<Slot>, head: nat, tail: nat)
    requires |slots| > 0
  {
    && (forall k: nat :: head <= k ==> At(slots, k).turn <= 2 * Turn(|slots|, k))
    && (forall k: nat :: tail <= k ==> At(slots, k).turn <= 2 * Turn(|slots|, k) + 1)
  }

  /** What a thread in the middle of a call knows about its ticket, whose slot and turn are given. */
  predicate PcOk(pc: Pc, head: nat, tail: nat, issued: seq<int>, slot: Slot, t: nat)
    requires |issued| == head
  {
    match pc
    case Idle => true
    case EmplaceWait(k, x) => k < head && issued[k] == x && slot.turn <= 2 * t
    case Construct(k, x) => k < head && issued[k] == x && slot.turn == 2 * t && slot.storage == None
    case PublishFull(k) => k < head && slot.turn == 2 * t && slot.storage == Some(issued[k])
    case TryEmplaceTurn(k, _) => k <= head
    case TryEmplaceCas(k, _) => k <= head && (k == head ==> slot.turn == 2 * t)
    case TryEmplaceReload(k, _) => k <= head
    case PopWait(k) => k < tail && slot.turn <= 2 * t + 1
    case Move(k) => k < tail && k < head && slot.turn == 2 * t + 1 && slot.storage == Some(issued[k])
    case Destroy(k, x) =>
      k < tail && k < head && slot.turn == 2 * t + 1 && slot.storage == Some(x) && x == issued[k]
    case PublishFree(k, x) =>
      k < tail && k < head && slot.turn == 2 * t + 1 && slot.storage == None && x == issued[k]
    case TryPopTurn(k) => k <= tail
    case TryPopCas(k) => k <= tail && (k == tail ==> slot.turn == 2 * t + 1)
    case TryPopReload(k) => k <= tail
  }

  predicate ThreadOk(slots: seq<Slot>, head: nat, tail: nat, issued: seq<int>, pc: Pc)
    requires |slots| > 0 && |issued| == head
  {
    pc.Idle? || PcOk(pc, head, tail, issued, At(slots, pc.k), Turn(|slots|, pc.k))
  }

  predicate ThreadsOk(slots: seq<Slot>, head: nat, tail: nat, issued: seq<int>, threads: seq<Pc>)
    requires |slots| > 0 && |issued| == head
  {
    forall i :: 0 <= i < |threads| ==> ThreadOk(slots, head, tail, issued, threads[i])
  }

  /** Two threads never hold the same ticket in the same role. */
  predicate PcsApart(a: Pc, b: Pc) {
    && (Producing(a) && Producing(b) ==> a.k != b.k)
    && (Consuming(a) && Consuming(b) ==> a.k != b.k)
  }

  predicate Apart(threads: seq<Pc>) {
    forall i, j :: 0 <= i < |threads| && 0 <= j < |threads| && i != j ==> PcsApart(threads[i], threads[j])
  }

  /** A value is there exactly when the turn is odd, except while the slot's last user is between touching the value
      and publishing the turn. */
  predicate Balanced(slot: Slot) {
    slot.storage.Some? == (slot.turn % 2 == 1)
  }

  predicate InUse(slot: Slot, s: nat, c: nat, threads: seq<Pc>)
    requires c > 0
  {
    && slot.user < |threads|
    && (threads[slot.user].PublishFull? || threads[slot.user].PublishFree?)
    && Idx(c, threads[slot.user].k) == s
  }

  predicate SlotsOk(slots: seq<Slot>, threads: seq<Pc>) {
    forall s :: 0 <= s < |slots| ==> Balanced(slots[s]) || InUse(slots[s], s, |slots|, threads)
  }

  /** The published value of a ticket is the one its producer was given. */
  ghost predicate ValuesOk(slots: seq<Slot>, head: nat, issued: seq<int>)
    requires |slots| > 0 && |issued| == head
  {
    forall k: nat :: FullFor(slots, k) ==>
      k < head && (At(slots, k).storage.Some? ==> At(slots, k).storage.value == issued[k])
  }

  /** Exactly the drained tickets have been received, each with the value its producer was given. */
  ghost predicate ReceivedOk(slots: seq<Slot>, issued: seq<int>, received: map<nat, int>)
    requires |slots| > 0
  {
    && (forall k: nat :: k in received <==> At(slots, k).turn > 2 * Turn(|slots|, k) + 1)
    && (forall k: nat :: k in received ==> k < |issued| && received[k] == issued[k])
  }

  predicate Holds(threads: seq<Pc>, i: nat, k: nat) {
    i < |threads| && Producing(threads[i]) && threads[i].k == k
  }

  predicate Awaits(threads: seq<Pc>, i: nat, k: nat) {
    i < |threads| && Consuming(threads[i]) && threads[i].k == k
  }

  /** A ticket that was taken is published or still held by the thread that took it. */
  predicate HeldOk(slots: seq<Slot>, makers: seq<nat>, takers: seq<nat>, threads: seq<Pc>)
    requires |slots| > 0
  {
    && (forall k :: 0 <= k < |makers| ==>
         At(slots, k).turn > 2 * Turn(|slots|, k) || Holds(threads, makers[k], k))
    && (forall k :: 0 <= k < |takers| ==>
         At(slots, k).turn > 2 * Turn(|slots|, k) + 1 || Awaits(threads, takers[k], k))
  }

  ghost predicate Inv(q: Queue) {
    && |q.slots| > 0 && |q.issued| == q.head && |q.makers| == q.head && |q.takers| == q.tail
    && TicketsOk(q.slots, q.head, q.tail)
    && ThreadsOk(q.slots, q.head, q.tail, q.issued, q.threads)
    && Apart(q.threads)
    && SlotsOk(q.slots, q.threads)
    && ValuesOk(q.slots, q.head, q.issued)
    && ReceivedOk(q.slots, q.issued, q.received)
    && HeldOk(q.slots, q.makers, q.takers, q.threads)
  }

  lemma InitInv(capacity: nat, threads: nat)
    requires capacity > 0
    ensures Inv(Init(capacity, threads))
  {
    var q := Init(capacity, threads);
    assert forall k: nat :: At(q.slots, k).turn == 0;
  }

  // ----- the slot of one ticket changes -----

  /** Ticket k has been taken and its slot is at its turn. */
  predicate MayPublish(slots: seq<Slot>, head: nat, tail: nat, k: nat)
    requires |slots| > 0
  {
    k < head && (FreeFor(slots, k) || (FullFor(slots, k) && k < tail))
  }

  /** A thread that does not hold ticket k in the role whose turn it is. */
  predicate OtherTicket(slots: seq<Slot>, k: nat, b: Pc)
    requires |slots| > 0
  {
    && (FreeFor(slots, k) && Producing(b) ==> b.k != k)
    && (FullFor(slots, k) && Consuming(b) ==> b.k != k)
  }

  lemma SetAtOther(slots: seq<Slot>, k: nat, j: nat, s: Slot)
    requires |slots| > 0
    ensures At(SetAt(slots, k, s), j) == if Idx(|slots|, j) == Idx(|slots|, k) then s else At(slots, j)
  {
  }

  /** Storing the next turn of ticket k keeps what every other thread knows. */
  lemma PublishOther(slots: seq<Slot>, head: nat, tail: nat, issued: seq<int>, k: nat, turn: nat, b: Pc)
    requires |slots| > 0 && |issued| == head
    requires ThreadOk(slots, head, tail, issued, b)
    requires turn == At(slots, k).turn + 1
    requires MayPublish(slots, head, tail, k) && OtherTicket(slots, k, b)
    ensures ThreadOk(SetAt(slots, k, At(slots, k).(turn := turn)), head, tail, issued, b)
  {
    if !b.Idle? {
      SetAtOther(slots, k, b.k, At(slots, k).(turn := turn));
      TicketOrder(|slots|, k, b.k);
    }
  }

  /** Touching the value of ticket k keeps what every other thread knows. */
  lemma TouchOther(slots: seq<Slot>, head: nat, tail: nat, issued: seq<int>, k: nat, v: Option<int>, i: nat, b: Pc)
    requires |slots| > 0 && |issued| == head
    requires ThreadOk(slots, head, tail, issued, b)
    requires MayPublish(slots, head, tail, k) && OtherTicket(slots, k, b)
    ensures ThreadOk(SetAt(slots, k, At(slots, k).(storage := v, user := i)), head, tail, issued, b)
  {
    if !b.Idle? {
      SetAtOther(slots, k, b.k, At(slots, k).(storage := v, user := i));
      TicketOrder(|slots|, k, b.k);
    }
  }

  lemma PublishTickets(slots: seq<Slot>, head: nat, tail: nat, k: nat, turn: nat)
    requires |slots| > 0 && TicketsOk(slots, head, tail)
    requires turn == At(slots, k).turn + 1
    requires MayPublish(slots, head, tail, k)
    ensures TicketsOk(SetAt(slots, k, At(slots, k).(turn := turn)), head, tail)
  {
    var slots' := SetAt(slots, k, At(slots, k).(turn := turn));
    forall j: nat
      ensures head <= j ==> At(slots', j).turn <= 2 * Turn(|slots|, j)
      ensures tail <= j ==> At(slots', j).turn <= 2 * Turn(|slots|, j) + 1
    {
      SetAtOther(slots, k, j, At(slots, k).(turn := turn));
      TicketOrder(|slots|, k, j);
    }
  }

  lemma TouchTickets(slots: seq<Slot>, head: nat, tail: nat, k: nat, v: Option<int>, i: nat)
    requires |slots| > 0 && TicketsOk(slots, head, tail)
    ensures TicketsOk(SetAt(slots, k, At(slots, k).(storage := v, user := i)), head, tail)
  {
    var slots' := SetAt(slots, k, At(slots, k).(storage := v, user := i));
    forall j: nat
      ensures At(slots', j).turn == At(slots, j).turn
    {
      SetAtOther(slots, k, j, At(slots, k).(storage := v, user := i));
    }
  }

  lemma PublishValues(slots: seq<Slot>, head: nat, issued: seq<int>, k: nat, turn: nat)
    requires |slots| > 0 && |issued| == head && ValuesOk(slots, head, issued) && k < head
    requires turn == At(slots, k).turn + 1
    requires FreeFor(slots, k) ==> At(slots, k).storage == Some(issued[k])
    requires FreeFor(slots, k) || FullFor(slots, k)
    ensures ValuesOk(SetAt(slots, k, At(slots, k).(turn := turn)), head, issued)
  {
    var slots' := SetAt(slots, k, At(slots, k).(turn := turn));
    forall j: nat
      ensures FullFor(slots', j) ==>
                j < head && (At(slots', j).storage.Some? ==> At(slots', j).storage.value == issued[j])
    {
      SetAtOther(slots, k, j, At(slots, k).(turn := turn));
      TicketOrder(|slots|, k, j);
    }
  }

  lemma TouchValues(slots: seq<Slot>, head: nat, issued: seq<int>, k: nat, v: Option<int>, i: nat)
    requires |slots| > 0 && |issued| == head && ValuesOk(slots, head, issued)
    requires v == None || FreeFor(slots, k)
    ensures ValuesOk(SetAt(slots, k, At(slots, k).(storage := v, user := i)), head, issued)
  {
    var slots' := SetAt(slots, k, At(slots, k).(storage := v, user := i));
    forall j: nat
      ensures FullFor(slots', j) ==>
                j < head && (At(slots', j).storage.Some? ==> At(slots', j).storage.value == issued[j])
    {
      SetAtOther(slots, k, j, At(slots, k).(storage := v, user := i));
      assert FullFor(slots', j) == FullFor(slots, j);
    }
  }

  lemma PublishFullReceived(slots: seq<Slot>, issued: seq<int>, received: map<nat, int>, k: nat, turn: nat)
    requires |slots| > 0 && ReceivedOk(slots, issued, received) && FreeFor(slots, k)
    requires turn == At(slots, k).turn + 1
    ensures ReceivedOk(SetAt(slots, k, At(slots, k).(turn := turn)), issued, received)
  {
    var slots' := SetAt(slots, k, At(slots, k).(turn := turn));
    forall j: nat
      ensures j in received <==> At(slots', j).turn > 2 * Turn(|slots|, j) + 1
    {
      SetAtOther(slots, k, j, At(slots, k).(turn := turn));
      TicketOrder(|slots|, k, j);
    }
  }

  lemma PublishFreeReceived(slots: seq<Slot>, issued: seq<int>, received: map<nat, int>, k: nat, turn: nat)
    requires |slots| > 0 && ReceivedOk(slots, issued, received) && FullFor(slots, k) && k < |issued|
    requires turn == At(slots, k).turn + 1
    ensures ReceivedOk(SetAt(slots, k, At(slots, k).(turn := turn)), issued, received[k := issued[k]])
  {
    var slots' := SetAt(slots, k, At(slots, k).(turn := turn));
    forall j: nat
      ensures j in received[k := issued[k]] <==> At(slots', j).turn > 2 * Turn(|slots|, j) + 1
    {
      SetAtOther(slots, k, j, At(slots, k).(turn := turn));
      TicketOrder(|slots|, k, j);
    }
  }

  lemma TouchReceived(slots: seq<Slot>, issued: seq<int>, received: map<nat, int>, k: nat, v: Option<int>, i: nat)
    requires |slots| > 0 && ReceivedOk(slots, issued, received)
    ensures ReceivedOk(SetAt(slots, k, At(slots, k).(storage := v, user := i)), issued, received)
  {
    var slots' := SetAt(slots, k, At(slots, k).(storage := v, user := i));
    forall j: nat
      ensures At(slots', j).turn == At(slots, j).turn
    {
      SetAtOther(slots, k, j, At(slots, k).(storage := v, user := i));
    }
  }

  // ----- one thread moves -----

  predicate Publishing(pc: Pc) {
    pc.PublishFull? || pc.PublishFree?
  }

  predicate Holding(pc: Pc) {
    Producing(pc) || Consuming(pc)
  }

  /** The same ticket in the same role, or none before and after. */
  predicate SameRole(a: Pc, b: Pc) {
    && Producing(a) == Producing(b) && Consuming(a) == Consuming(b)
    && (Holding(a) ==> a.k == b.k)
  }

  lemma ApartGo(threads: seq<Pc>, i: nat, pc: Pc)
    requires i < |threads| && Apart(threads) && (SameRole(threads[i], pc) || !Holding(pc))
    ensures Apart(threads[i := pc])
  {
  }

  lemma ApartTake(threads: seq<Pc>, i: nat, pc: Pc)
    requires i < |threads| && Apart(threads) && Holding(pc)
    requires forall j :: 0 <= j < |threads| && Producing(pc) && Producing(threads[j]) ==> threads[j].k < pc.k
    requires forall j :: 0 <= j < |threads| && Consuming(pc) && Consuming(threads[j]) ==> threads[j].k < pc.k
    ensures Apart(threads[i := pc])
  {
  }

  lemma SlotsGo(slots: seq<Slot>, threads: seq<Pc>, i: nat, pc: Pc)
    requires i < |threads| && SlotsOk(slots, threads) && !Publishing(threads[i])
    ensures SlotsOk(slots, threads[i := pc])
  {
    forall s | 0 <= s < |slots|
      ensures Balanced(slots[s]) || InUse(slots[s], s, |slots|, threads[i := pc])
    {
      assert Balanced(slots[s]) || InUse(slots[s], s, |slots|, threads);
    }
  }

  lemma SlotsTouch(slots: seq<Slot>, threads: seq<Pc>, i: nat, pc: Pc, v: Option<int>)
    requires |slots| > 0 && i < |threads| && SlotsOk(slots, threads) && !Publishing(threads[i]) && Publishing(pc)
    ensures SlotsOk(SetAt(slots, pc.k, At(slots, pc.k).(storage := v, user := i)), threads[i := pc])
  {
    SlotsGo(slots, threads, i, pc);
  }

  lemma SlotsPublish(slots: seq<Slot>, threads: seq<Pc>, i: nat, turn: nat)
    requires |slots| > 0 && i < |threads| && SlotsOk(slots, threads) && Publishing(threads[i])
    requires Balanced(At(slots, threads[i].k).(turn := turn))
    ensures SlotsOk(SetAt(slots, threads[i].k, At(slots, threads[i].k).(turn := turn)), threads[i := Idle])
  {
    var k := threads[i].k;
    var slots', threads' := SetAt(slots, k, At(slots, k).(turn := turn)), threads[i := Idle];
    forall s | 0 <= s < |slots|
      ensures Balanced(slots'[s]) || InUse(slots'[s], s, |slots|, threads')
    {
      assert Balanced(slots[s]) || InUse(slots[s], s, |slots|, threads);
    }
  }

  lemma HeldGo(slots: seq<Slot>, makers: seq<nat>, takers: seq<nat>, threads: seq<Pc>, i: nat, pc: Pc)
    requires |slots| > 0 && i < |threads| && HeldOk(slots, makers, takers, threads)
    requires SameRole(threads[i], pc) || !Holding(threads[i])
    ensures HeldOk(slots, makers, takers, threads[i := pc])
  {
    forall k | 0 <= k < |makers|
      ensures At(slots, k).turn > 2 * Turn(|slots|, k) || Holds(threads[i := pc], makers[k], k)
    {
      assert At(slots, k).turn > 2 * Turn(|slots|, k) || Holds(threads, makers[k], k);
    }
    forall k | 0 <= k < |takers|
      ensures At(slots, k).turn > 2 * Turn(|slots|, k) + 1 || Awaits(threads[i := pc], takers[k], k)
    {
      assert At(slots, k).turn > 2 * Turn(|slots|, k) + 1 || Awaits(threads, takers[k], k);
    }
  }

  lemma HeldTouch(slots: seq<Slot>, makers: seq<nat>, takers: seq<nat>, threads: seq<Pc>, k: nat, v: Option<int>,
                  i: nat)
    requires |slots| > 0 && HeldOk(slots, makers, takers, threads)
    ensures HeldOk(SetAt(slots, k, At(slots, k).(storage := v, user := i)), makers, takers, threads)
  {
    var slots' := SetAt(slots, k, At(slots, k).(storage := v, user := i));
    forall j: nat
      ensures At(slots', j).turn == At(slots, j).turn
    {
      SetAtOther(slots, k, j, At(slots, k).(storage := v, user := i));
    }
  }

  lemma HeldPublish(slots: seq<Slot>, makers: seq<nat>, takers: seq<nat>, threads: seq<Pc>, i: nat, turn: nat)
    requires |slots| > 0 && i < |threads| && HeldOk(slots, makers, takers, threads)
    requires Publishing(threads[i]) && turn == At(slots, threads[i].k).turn + 1
    requires threads[i].PublishFull? ==> FreeFor(slots, threads[i].k)
    requires threads[i].PublishFree? ==> FullFor(slots, threads[i].k)
    ensures HeldOk(SetAt(slots, threads[i].k, At(slots, threads[i].k).(turn := turn)), makers, takers,
                   threads[i := Idle])
  {
    var k := threads[i].k;
    var slots', threads' := SetAt(slots, k, At(slots, k).(turn := turn)), threads[i := Idle];
    forall j | 0 <= j < |makers|
      ensures At(slots', j).turn > 2 * Turn(|slots|, j) || Holds(threads', makers[j], j)
    {
      SetAtOther(slots, k, j, At(slots, k).(turn := turn));
      assert At(slots, j).turn > 2 * Turn(|slots|, j) || Holds(threads, makers[j], j);
    }
    forall j | 0 <= j < |takers|
      ensures At(slots', j).turn > 2 * Turn(|slots|, j) + 1 || Awaits(threads', takers[j], j)
    {
      SetAtOther(slots, k, j, At(slots, k).(turn := turn));
      assert At(slots, j).turn > 2 * Turn(|slots|, j) + 1 || Awaits(threads, takers[j], j);
    }
  }

  lemma HeldTakeHead(slots: seq<Slot>, makers: seq<nat>, takers: seq<nat>, threads: seq<Pc>, i: nat)
    requires |slots| > 0 && i < |threads| && HeldOk(slots, makers, takers, threads)
    requires Holds(threads, i, |makers|)
    ensures HeldOk(slots, makers + [i], takers, threads)
  {
  }

  lemma HeldTakeTail(slots: seq<Slot>, makers: seq<nat>, takers: seq<nat>, threads: seq<Pc>, i: nat)
    requires |slots| > 0 && i < |threads| && HeldOk(slots, makers, takers, threads)
    requires Awaits(threads, i, |takers|)
    ensures HeldOk(slots, makers, takers + [i], threads)
  {
  }

  // ----- effects -----

  lemma GoInv(q: Queue, i: nat, pc: Pc)
    requires Inv(q) && i < |q.threads| && SameRole(q.threads[i], pc) && !Publishing(q.threads[i])
    requires ThreadOk(q.slots, q.head, q.tail, q.issued, pc)
    ensures Inv(Go(q, i, pc))
  {
    ApartGo(q.threads, i, pc);
    SlotsGo(q.slots, q.threads, i, pc);
    HeldGo(q.slots, q.makers, q.takers, q.threads, i, pc);
  }

  lemma ThreadsTakeHead(slots: seq<Slot>, head: nat, tail: nat, issued: seq<int>, threads: seq<Pc>, x: int)
    requires |slots| > 0 && |issued| == head && ThreadsOk(slots, head, tail, issued, threads)
    ensures ThreadsOk(slots, head + 1, tail, issued + [x], threads)
  {
    forall j | 0 <= j < |threads|
      ensures ThreadOk(slots, head + 1, tail, issued + [x], threads[j])
    {
      assert ThreadOk(slots, head, tail, issued, threads[j]);
    }
  }

  lemma ThreadsTakeTail(slots: seq<Slot>, head: nat, tail: nat, issued: seq<int>, threads: seq<Pc>)
    requires |slots| > 0 && |issued| == head && ThreadsOk(slots, head, tail, issued, threads)
    ensures ThreadsOk(slots, head, tail + 1, issued, threads)
  {
    forall j | 0 <= j < |threads|
      ensures ThreadOk(slots, head, tail + 1, issued, threads[j])
    {
      assert ThreadOk(slots, head, tail, issued, threads[j]);
    }
  }

  lemma TicketsBelow(slots: seq<Slot>, head: nat, tail: nat, issued: seq<int>, threads: seq<Pc>)
    requires |slots| > 0 && |issued| == head && ThreadsOk(slots, head, tail, issued, threads)
    ensures forall j :: 0 <= j < |threads| && Producing(threads[j]) ==> threads[j].k < head
    ensures forall j :: 0 <= j < |threads| && Consuming(threads[j]) ==> threads[j].k < tail
  {
    forall j | 0 <= j < |threads|
      ensures Producing(threads[j]) ==> threads[j].k < head
      ensures Consuming(threads[j]) ==> threads[j].k < tail
    {
      assert ThreadOk(slots, head, tail, issued, threads[j]);
    }
  }

  lemma TakeHeadInv(q: Queue, i: nat, x: int, pc: Pc)
    requires Inv(q) && i < |q.threads| && !Holding(q.threads[i]) && Producing(pc) && pc.k == q.head
    requires ThreadOk(q.slots, q.head + 1, q.tail, q.issued + [x], pc)
    ensures Inv(TakeHead(q, i, x, pc))
  {
    ThreadsTakeHead(q.slots, q.head, q.tail, q.issued, q.threads, x);
    TicketsBelow(q.slots, q.head, q.tail, q.issued, q.threads);
    ApartTake(q.threads, i, pc);
    SlotsGo(q.slots, q.threads, i, pc);
    HeldGo(q.slots, q.makers, q.takers, q.threads, i, pc);
    HeldTakeHead(q.slots, q.makers, q.takers, q.threads[i := pc], i);
  }

  lemma TakeTailInv(q: Queue, i: nat, pc: Pc)
    requires Inv(q) && i < |q.threads| && !Holding(q.threads[i]) && Consuming(pc) && pc.k == q.tail
    requires ThreadOk(q.slots, q.head, q.tail + 1, q.issued, pc)
    ensures Inv(TakeTail(q, i, pc))
  {
    ThreadsTakeTail(q.slots, q.head, q.tail, q.issued, q.threads);
    TicketsBelow(q.slots, q.head, q.tail, q.issued, q.threads);
    ApartTake(q.threads, i, pc);
    SlotsGo(q.slots, q.threads, i, pc);
    HeldGo(q.slots, q.makers, q.takers, q.threads, i, pc);
    HeldTakeTail(q.slots, q.makers, q.takers, q.threads[i := pc], i);
  }

  /** The other threads do not hold the ticket of thread i. */
  lemma OthersElsewhere(slots: seq<Slot>, threads: seq<Pc>, i: nat, j: nat)
    requires |slots| > 0 && i < |threads| && j < |threads| && i != j && Apart(threads) && Holding(threads[i])
    requires Producing(threads[i]) ==> FreeFor(slots, threads[i].k)
    requires Consuming(threads[i]) ==> FullFor(slots, threads[i].k)
    ensures OtherTicket(slots, threads[i].k, threads[j])
  {
    assert PcsApart(threads[i], threads[j]);
  }

  lemma ThreadsTouch(q: Queue, i: nat, v: Option<int>, pc: Pc)
    requires |q.slots| > 0 && |q.issued| == q.head && ThreadsOk(q.slots, q.head, q.tail, q.issued, q.threads)
    requires Apart(q.threads) && i < |q.threads| && Holding(q.threads[i])
    requires MayPublish(q.slots, q.head, q.tail, q.threads[i].k)
    requires Producing(q.threads[i]) ==> FreeFor(q.slots, q.threads[i].k)
    requires Consuming(q.threads[i]) ==> FullFor(q.slots, q.threads[i].k)
    requires ThreadOk(Touch(q, i, q.threads[i].k, v, pc).slots, q.head, q.tail, q.issued, pc)
    ensures ThreadsOk(Touch(q, i, q.threads[i].k, v, pc).slots, q.head, q.tail, q.issued, q.threads[i := pc])
  {
    var q' := Touch(q, i, q.threads[i].k, v, pc);
    forall j | 0 <= j < |q.threads|
      ensures ThreadOk(q'.slots, q.head, q.tail, q.issued, q'.threads[j])
    {
      if j != i {
        OthersElsewhere(q.slots, q.threads, i, j);
        TouchOther(q.slots, q.head, q.tail, q.issued, q.threads[i].k, v, i, q.threads[j]);
      }
    }
  }

  lemma ThreadsPublish(q: Queue, i: nat, turn: nat)
    requires |q.slots| > 0 && |q.issued| == q.head && ThreadsOk(q.slots, q.head, q.tail, q.issued, q.threads)
    requires Apart(q.threads) && i < |q.threads| && Holding(q.threads[i])
    requires MayPublish(q.slots, q.head, q.tail, q.threads[i].k) && turn == At(q.slots, q.threads[i].k).turn + 1
    requires Producing(q.threads[i]) ==> FreeFor(q.slots, q.threads[i].k)
    requires Consuming(q.threads[i]) ==> FullFor(q.slots, q.threads[i].k)
    ensures ThreadsOk(Publish(q, i, q.threads[i].k, turn).slots, q.head, q.tail, q.issued, q.threads[i := Idle])
  {
    var q' := Publish(q, i, q.threads[i].k, turn);
    forall j | 0 <= j < |q.threads|
      ensures ThreadOk(q'.slots, q.head, q.tail, q.issued, q'.threads[j])
    {
      if j != i {
        OthersElsewhere(q.slots, q.threads, i, j);
        PublishOther(q.slots, q.head, q.tail, q.issued, q.threads[i].k, turn, q.threads[j]);
      }
    }
  }

  lemma TouchInv(q: Queue, i: nat, v: Option<int>, pc: Pc)
    requires Inv(q) && i < |q.threads| && SameRole(q.threads[i], pc) && Publishing(pc) && !Publishing(q.threads[i])
    requires MayPublish(q.slots, q.head, q.tail, pc.k)
    requires Producing(pc) ==> FreeFor(q.slots, pc.k)
    requires Consuming(pc) ==> FullFor(q.slots, pc.k) && v == None
    requires ThreadOk(Touch(q, i, pc.k, v, pc).slots, q.head, q.tail, q.issued, pc)
    ensures Inv(Touch(q, i, pc.k, v, pc))
  {
    ThreadsTouch(q, i, v, pc);
    ApartGo(q.threads, i, pc);
    SlotsTouch(q.slots, q.threads, i, pc, v);
    TouchTickets(q.slots, q.head, q.tail, pc.k, v, i);
    TouchValues(q.slots, q.head, q.issued, pc.k, v, i);
    TouchReceived(q.slots, q.issued, q.received, pc.k, v, i);
    HeldTouch(q.slots, q.makers, q.takers, q.threads, pc.k, v, i);
    HeldGo(Touch(q, i, pc.k, v, pc).slots, q.makers, q.takers, q.threads, i, pc);
  }

  /** What a thread about to publish knows. */
  lemma AboutToPublish(q: Queue, i: nat)
    requires Inv(q) && i < |q.threads| && Publishing(q.threads[i])
    ensures MayPublish(q.slots, q.head, q.tail, q.threads[i].k)
    ensures q.threads[i].PublishFull? ==>
              FreeFor(q.slots, q.threads[i].k) && At(q.slots, q.threads[i].k).storage == Some(q.issued[q.threads[i].k])
    ensures q.threads[i].PublishFree? ==>
              && FullFor(q.slots, q.threads[i].k) && At(q.slots, q.threads[i].k).storage == None
              && q.threads[i].value == q.issued[q.threads[i].k]
  {
    assert ThreadOk(q.slots, q.head, q.tail, q.issued, q.threads[i]);
  }

  lemma PublishFullInv(q: Queue, i: nat, k: nat)
    requires Inv(q) && i < |q.threads| && q.threads[i] == PublishFull(k)
    ensures Inv(Publish(q, i, k, 2 * Turn(|q.slots|, k) + 1))
  {
    var turn := 2 * Turn(|q.slots|, k) + 1;
    AboutToPublish(q, i);
    ThreadsPublish(q, i, turn);
    ApartGo(q.threads, i, Idle);
    SlotsPublish(q.slots, q.threads, i, turn);
    PublishTickets(q.slots, q.head, q.tail, k, turn);
    PublishValues(q.slots, q.head, q.issued, k, turn);
    PublishFullReceived(q.slots, q.issued, q.received, k, turn);
    HeldPublish(q.slots, q.makers, q.takers, q.threads, i, turn);
  }

  lemma PublishFreeInv(q: Queue, i: nat, k: nat, x: int)
    requires Inv(q) && i < |q.threads| && q.threads[i] == PublishFree(k, x)
    ensures Inv(Publish(q, i, k, 2 * Turn(|q.slots|, k) + 2).(received := q.received[k := x]))
  {
    var turn := 2 * Turn(|q.slots|, k) + 2;
    AboutToPublish(q, i);
    ThreadsPublish(q, i, turn);
    ApartGo(q.threads, i, Idle);
    SlotsPublish(q.slots, q.threads, i, turn);
    PublishTickets(q.slots, q.head, q.tail, k, turn);
    PublishValues(q.slots, q.head, q.issued, k, turn);
    PublishFreeReceived(q.slots, q.issued, q.received, k, turn);
    HeldPublish(q.slots, q.makers, q.takers, q.threads, i, turn);
  }

  // ----- entering a slot -----

  /** The ticket of the thread in the middle of touching a slot at a published turn. */
  lemma UserTicket(slots: seq<Slot>, head: nat, tail: nat, issued: seq<int>, threads: seq<Pc>, k: nat)
    requires |slots| > 0 && |issued| == head && ThreadsOk(slots, head, tail, issued, threads)
    requires InUse(At(slots, k), Idx(|slots|, k), |slots|, threads)
    ensures var pc := threads[At(slots, k).user];
            && (pc.PublishFull? ==> (FreeFor(slots, k) ==> pc.k == k) && !FullFor(slots, k))
            && (pc.PublishFree? ==> (FullFor(slots, k) ==> pc.k == k) && !FreeFor(slots, k))
  {
    var pc := threads[At(slots, k).user];
    assert ThreadOk(slots, head, tail, issued, pc);
    TicketOrder(|slots|, k, pc.k);
  }

  /** A slot free for a ticket that no other thread is producing is empty. */
  lemma FreeIsEmpty(q: Queue, k: nat)
    requires Inv(q) && FreeFor(q.slots, k)
    requires forall j :: 0 <= j < |q.threads| ==> q.threads[j] != PublishFull(k)
    ensures At(q.slots, k).storage == None
  {
    var slot := At(q.slots, k);
    assert Balanced(slot) || InUse(slot, Idx(|q.slots|, k), |q.slots|, q.threads);
    if !Balanced(slot) {
      UserTicket(q.slots, q.head, q.tail, q.issued, q.threads, k);
    }
  }

  /** A slot full for a ticket that no other thread is consuming holds its value. */
  lemma FullIsThere(q: Queue, k: nat)
    requires Inv(q) && FullFor(q.slots, k)
    requires forall j :: 0 <= j < |q.threads| ==> !(q.threads[j].PublishFree? && q.threads[j].k == k)
    ensures k < q.head && At(q.slots, k).storage == Some(q.issued[k])
  {
    var slot := At(q.slots, k);
    assert Balanced(slot) || InUse(slot, Idx(|q.slots|, k), |q.slots|, q.threads);
    if !Balanced(slot) {
      UserTicket(q.slots, q.head, q.tail, q.issued, q.threads, k);
    }
  }

  // ----- steps -----

  lemma FreeStep(q: Queue, i: nat, k: nat, x: int)
    requires Inv(q) && i < |q.threads| && q.threads[i] == EmplaceWait(k, x) && FreeFor(q.slots, k)
    ensures Inv(Go(q, i, Construct(k, x)))
  {
    assert ThreadOk(q.slots, q.head, q.tail, q.issued, q.threads[i]);
    forall j | 0 <= j < |q.threads|
      ensures q.threads[j] != PublishFull(k)
    {
      assert j != i ==> PcsApart(q.threads[i], q.threads[j]);
    }
    FreeIsEmpty(q, k);
    GoInv(q, i, Construct(k, x));
  }

  lemma FullStep(q: Queue, i: nat, k: nat)
    requires Inv(q) && i < |q.threads| && q.threads[i] == PopWait(k) && FullFor(q.slots, k)
    ensures Inv(Go(q, i, Move(k)))
  {
    assert ThreadOk(q.slots, q.head, q.tail, q.issued, q.threads[i]);
    forall j | 0 <= j < |q.threads|
      ensures !(q.threads[j].PublishFree? && q.threads[j].k == k)
    {
      assert j != i ==> PcsApart(q.threads[i], q.threads[j]);
    }
    FullIsThere(q, k);
    GoInv(q, i, Move(k));
  }

  lemma TryEmplaceWins(q: Queue, i: nat, x: int)
    requires Inv(q) && i < |q.threads| && q.threads[i] == TryEmplaceCas(q.head, x)
    ensures Inv(TakeHead(q, i, x, Construct(q.head, x)))
  {
    assert ThreadOk(q.slots, q.head, q.tail, q.issued, q.threads[i]);
    TicketsBelow(q.slots, q.head, q.tail, q.issued, q.threads);
    FreeIsEmpty(q, q.head);
    TakeHeadInv(q, i, x, Construct(q.head, x));
  }

  lemma TryPopWins(q: Queue, i: nat)
    requires Inv(q) && i < |q.threads| && q.threads[i] == TryPopCas(q.tail)
    ensures Inv(TakeTail(q, i, Move(q.tail)))
  {
    assert ThreadOk(q.slots, q.head, q.tail, q.issued, q.threads[i]);
    TicketsBelow(q.slots, q.head, q.tail, q.issued, q.threads);
    FullIsThere(q, q.tail);
    TakeTailInv(q, i, Move(q.tail));
  }

  lemma StartStep(q: Queue, i: nat, request: Request)
    requires Inv(q) && i < |q.threads| && q.threads[i].Idle?
    ensures Inv(Step(q, i, request))
  {
    match request
    case Emplace(x) =>
      assert At(q.slots, q.head).turn <= 2 * Turn(|q.slots|, q.head);
      TakeHeadInv(q, i, x, EmplaceWait(q.head, x));
    case TryEmplace(x) => GoInv(q, i, TryEmplaceTurn(q.head, x));
    case Pop =>
      assert At(q.slots, q.tail).turn <= 2 * Turn(|q.slots|, q.tail) + 1;
      TakeTailInv(q, i, PopWait(q.tail));
    case TryPop => GoInv(q, i, TryPopTurn(q.tail));
  }

  lemma ConstructStep(q: Queue, i: nat, request: Request)
    requires Inv(q) && i < |q.threads| && q.threads[i].Construct?
    ensures Inv(Step(q, i, request))
  {
    var pc := q.threads[i];
    assert ThreadOk(q.slots, q.head, q.tail, q.issued, pc);
    TouchInv(q, i, Some(pc.value), PublishFull(pc.k));
  }

  lemma DestroyStep(q: Queue, i: nat, request: Request)
    requires Inv(q) && i < |q.threads| && q.threads[i].Destroy?
    ensures Inv(Step(q, i, request))
  {
    var pc := q.threads[i];
    assert ThreadOk(q.slots, q.head, q.tail, q.issued, pc);
    TouchInv(q, i, None, PublishFree(pc.k, pc.value));
  }

  lemma EmplaceStep(q: Queue, i: nat, request: Request)
    requires Inv(q) && i < |q.threads|
    requires q.threads[i].TryEmplaceTurn? || q.threads[i].TryEmplaceCas? || q.threads[i].TryEmplaceReload?
    ensures Inv(Step(q, i, request))
  {
    var k, x := q.threads[i].k, q.threads[i].value;
    assert ThreadOk(q.slots, q.head, q.tail, q.issued, q.threads[i]);
    if q.threads[i].TryEmplaceCas? && q.head == k {
      TryEmplaceWins(q, i, x);
    } else if q.threads[i].TryEmplaceReload? && q.head == k {
      GoInv(q, i, Idle);
    } else if q.threads[i].TryEmplaceTurn? {
      GoInv(q, i, if FreeFor(q.slots, k) then TryEmplaceCas(k, x) else TryEmplaceReload(k, x));
    } else {
      GoInv(q, i, TryEmplaceTurn(q.head, x));
    }
  }

  lemma PopStep(q: Queue, i: nat, request: Request)
    requires Inv(q) && i < |q.threads|
    requires q.threads[i].TryPopTurn? || q.threads[i].TryPopCas? || q.threads[i].TryPopReload?
    ensures Inv(Step(q, i, request))
  {
    var k := q.threads[i].k;
    assert ThreadOk(q.slots, q.head, q.tail, q.issued, q.threads[i]);
    if q.threads[i].TryPopCas? && q.tail == k {
      TryPopWins(q, i);
    } else if q.threads[i].TryPopReload? && q.tail == k {
      GoInv(q, i, Idle);
    } else if q.threads[i].TryPopTurn? {
      GoInv(q, i, if FullFor(q.slots, k) then TryPopCas(k) else TryPopReload(k));
    } else {
      GoInv(q, i, TryPopTurn(q.tail));
    }
  }

  lemma MoveStep(q: Queue, i: nat, request: Request)
    requires Inv(q) && i < |q.threads| && q.threads[i].Move?
    ensures Inv(Step(q, i, request))
  {
    var k := q.threads[i].k;
    assert ThreadOk(q.slots, q.head, q.tail, q.issued, q.threads[i]);
    GoInv(q, i, Destroy(k, q.issued[k]));
  }

  lemma WaitStep(q: Queue, i: nat, request: Request)
    requires Inv(q) && i < |q.threads| && (q.threads[i].EmplaceWait? || q.threads[i].PopWait?)
    ensures Inv(Step(q, i, request))
  {
    var pc := q.threads[i];
    if pc.EmplaceWait? && FreeFor(q.slots, pc.k) {
      FreeStep(q, i, pc.k, pc.value);
    } else if pc.PopWait? && FullFor(q.slots, pc.k) {
      FullStep(q, i, pc.k);
    }
  }

  lemma PublishFullStep(q: Queue, i: nat, request: Request)
    requires Inv(q) && i < |q.threads| && q.threads[i].PublishFull?
    ensures Inv(Step(q, i, request))
  {
    PublishFullInv(q, i, q.threads[i].k);
  }

  lemma PublishFreeStep(q: Queue, i: nat, request: Request)
    requires Inv(q) && i < |q.threads| && q.threads[i].PublishFree?
    ensures Inv(Step(q, i, request))
  {
    PublishFreeInv(q, i, q.threads[i].k, q.threads[i].value);
  }

  lemma InsideStep(q: Queue, i: nat, request: Request)
    requires Inv(q) && i < |q.threads| && Inside(q.threads[i])
    ensures Inv(Step(q, i, request))
  {
    var pc := q.threads[i];
    if pc.Construct? {
      ConstructStep(q, i, request);
    } else if pc.Move? {
      MoveStep(q, i, request);
    } else if pc.Destroy? {
      DestroyStep(q, i, request);
    } else if pc.PublishFull? {
      PublishFullStep(q, i, request);
    } else {
      PublishFreeStep(q, i, request);
    }
  }

  /** Every atomic action of every thread keeps the invariant. */
  lemma StepInv(q: Queue, i: nat, request: Request)
    requires Inv(q) && i < |q.threads|
    ensures Inv(Step(q, i, request))
  {
    var pc := q.threads[i];
    if pc.Idle? {
      StartStep(q, i, request);
    } else if Inside(pc) {
      InsideStep(q, i, request);
    } else if pc.EmplaceWait? || pc.PopWait? {
      WaitStep(q, i, request);
    } else if pc.TryEmplaceTurn? || pc.TryEmplaceCas? || pc.TryEmplaceReload? {
      EmplaceStep(q, i, request);
    } else {
      PopStep(q, i, request);
    }
  }

  /** Every run of any number of threads keeps the invariant. */
  lemma {:induction false} ExecInv(q: Queue, schedule: seq<Event>)
    requires Inv(q)
    ensures Inv(Exec(q, schedule))
  {
    if schedule != [] {
      var e := schedule[|schedule| - 1];
      ExecInv(q, schedule[..|schedule| - 1]);
      if e.thread < |q.threads| {
        StepInv(Exec(q, schedule[..|schedule| - 1]), e.thread, e.request);
      }
    }
  }
}
