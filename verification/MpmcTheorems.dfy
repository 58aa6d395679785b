/** Exclusion, first-in first-out delivery, justified refusals and value lifetimes of the bounded ticket queue. */
module MpmcTheorems {
  import opened MpmcMachine
  import opened MpmcInvariant
  import opened Options
  import Ring

  /** The state after some schedule of some number of threads on a queue of some capacity. */
  function Run(capacity: nat, threads: nat, schedule: seq<Event>): (q: Queue)
    requires capacity > 0
    ensures |q.slots| == capacity
  {
    Exec(Init(capacity, threads), schedule)
  }

  lemma RunInv(capacity: nat, threads: nat, schedule: seq<Event>)
    requires capacity > 0
    ensures Inv(Run(capacity, threads, schedule))
  {
    InitInv(capacity, threads);
    ExecInv(Init(capacity, threads), schedule);
  }

  /** No call is in flight. */
  predicate Quiet(q: Queue) {
    forall i :: 0 <= i < |q.threads| ==> q.threads[i].Idle?
  }

  // ----- exclusion -----

  /** No two threads are ever inside construct, move or destroy of the same slot. */
  lemma Exclusion(capacity: nat, threads: nat, schedule: seq<Event>, i: nat, j: nat)
    requires capacity > 0
    requires var q := Run(capacity, threads, schedule);
             i < |q.threads| && j < |q.threads| && i != j && Inside(q.threads[i]) && Inside(q.threads[j])
    ensures var q := Run(capacity, threads, schedule);
            Idx(capacity, q.threads[i].k) != Idx(capacity, q.threads[j].k)
  {
    RunInv(capacity, threads, schedule);
    var q := Run(capacity, threads, schedule);
    assert ThreadOk(q.slots, q.head, q.tail, q.issued, q.threads[i]);
    assert ThreadOk(q.slots, q.head, q.tail, q.issued, q.threads[j]);
    assert PcsApart(q.threads[i], q.threads[j]);
    TicketOrder(capacity, q.threads[i].k, q.threads[j].k);
  }

  /** A value is only ever constructed in an empty slot and only ever moved from or destroyed in a slot holding it. */
  lemma ConstructedOnceDestroyedOnce(capacity: nat, threads: nat, schedule: seq<Event>, i: nat)
    requires capacity > 0
    requires i < |Run(capacity, threads, schedule).threads|
    ensures var q := Run(capacity, threads, schedule);
            var pc := q.threads[i];
            && (pc.Construct? ==> At(q.slots, pc.k).storage == None && pc.k < |q.issued| && q.issued[pc.k] == pc.value)
            && (pc.Move? || pc.Destroy? ==> pc.k < |q.issued| && At(q.slots, pc.k).storage == Some(q.issued[pc.k]))
  {
    RunInv(capacity, threads, schedule);
    var q := Run(capacity, threads, schedule);
    assert ThreadOk(q.slots, q.head, q.tail, q.issued, q.threads[i]);
  }

  // ----- every value once -----

  function Stored(slots: seq<Slot>): multiset<int> {
    if slots == [] then multiset{} else Stored(slots[..|slots| - 1]) + Held(slots[|slots| - 1].storage)
  }

  lemma {:induction false} StoredUpdate(slots: seq<Slot>, i: nat, s: Slot)
    requires i < |slots|
    ensures Stored(slots[i := s]) + Held(slots[i].storage) == Stored(slots) + Held(s.storage)
  {
    var n := |slots| - 1;
    if i == n {
      assert slots[i := s][..n] == slots[..n];
    } else {
      assert slots[i := s][..n] == slots[..n][i := s];
      StoredUpdate(slots[..n], i, s);
      StoredRearrange(Stored(slots[..n][i := s]), Stored(slots[..n]), Held(slots[i].storage), Held(s.storage),
                      Held(slots[n].storage));
    }
  }

  lemma StoredRearrange(a: multiset<int>, b: multiset<int>, c: multiset<int>, d: multiset<int>, e: multiset<int>)
    requires a + c == b + d
    ensures (a + e) + c == (b + e) + d
  {
    assert (a + e) + c == (a + c) + e;
    assert (b + e) + d == (b + d) + e;
  }

  lemma {:induction false} StoredNothing(slots: seq<Slot>)
    requires forall i :: 0 <= i < |slots| ==> slots[i].storage == None
    ensures Stored(slots) == multiset{}
  {
    if slots != [] {
      StoredNothing(slots[..|slots| - 1]);
    }
  }

  /** What has been constructed is what has been destroyed and what the slots hold. */
  ghost predicate Conserved(q: Queue) {
    q.constructed == q.destroyed + Stored(q.slots)
  }

  lemma Balance(constructed: multiset<int>, destroyed: multiset<int>, stored: multiset<int>, stored': multiset<int>,
                put: multiset<int>, took: multiset<int>)
    requires constructed == destroyed + stored && stored' + took == stored + put
    ensures constructed + put == (destroyed + took) + stored'
  {
    assert (destroyed + took) + stored' == destroyed + (stored' + took);
    assert constructed + put == destroyed + (stored + put);
  }

  lemma TouchConserves(q: Queue, i: nat, k: nat, v: Option<int>, pc: Pc)
    requires i < |q.threads| && |q.slots| > 0 && Conserved(q)
    requires v.Some? <==> At(q.slots, k).storage.None?
    ensures Conserved(Touch(q, i, k, v, pc))
  {
    var slot := At(q.slots, k);
    StoredUpdate(q.slots, Idx(|q.slots|, k), slot.(storage := v, user := i));
    Balance(q.constructed, q.destroyed, Stored(q.slots), Stored(Touch(q, i, k, v, pc).slots), Held(v),
            Held(slot.storage));
  }

  lemma SameStored(q: Queue, q': Queue, k: nat, turn: nat)
    requires |q.slots| > 0 && Conserved(q) && q'.constructed == q.constructed && q'.destroyed == q.destroyed
    requires q'.slots == q.slots || q'.slots == SetAt(q.slots, k, At(q.slots, k).(turn := turn))
    ensures Conserved(q')
  {
    StoredUpdate(q.slots, Idx(|q.slots|, k), At(q.slots, k).(turn := turn));
    Cancel(Stored(SetAt(q.slots, k, At(q.slots, k).(turn := turn))), Stored(q.slots), Held(At(q.slots, k).storage));
  }

  lemma Cancel(a: multiset<int>, b: multiset<int>, c: multiset<int>)
    requires a + c == b + c
    ensures a == b
  {
    assert (a + c) - c == a && (b + c) - c == b;
  }

  /** A step that constructs or destroys. */
  predicate Touches(pc: Pc) {
    pc.Construct? || pc.Destroy?
  }

  lemma StepStored(q: Queue, i: nat, request: Request) returns (k: nat, turn: nat)
    requires |q.slots| > 0 && i < |q.threads| && !Touches(q.threads[i])
    ensures
      var q' := Step(q, i, request);
      && q'.constructed == q.constructed && q'.destroyed == q.destroyed
      && (q'.slots == q.slots || q'.slots == SetAt(q.slots, k, At(q.slots, k).(turn := turn)))
  {
    var pc := q.threads[i];
    k := if Publishing(pc) then pc.k else 0;
    turn := 2 * Turn(|q.slots|, k) + if pc.PublishFull? then 1 else 2;
  }

  lemma StepConserves(q: Queue, i: nat, request: Request)
    requires Inv(q) && Conserved(q) && i < |q.threads|
    ensures Conserved(Step(q, i, request))
  {
    var pc := q.threads[i];
    assert ThreadOk(q.slots, q.head, q.tail, q.issued, pc);
    if pc.Construct? {
      TouchConserves(q, i, pc.k, Some(pc.value), PublishFull(pc.k));
    } else if pc.Destroy? {
      TouchConserves(q, i, pc.k, None, PublishFree(pc.k, pc.value));
    } else {
      var k, turn := StepStored(q, i, request);
      SameStored(q, Step(q, i, request), k, turn);
    }
  }

  lemma {:induction false} ExecConserves(q: Queue, schedule: seq<Event>)
    requires Inv(q) && Conserved(q)
    ensures Conserved(Exec(q, schedule))
  {
    if schedule != [] {
      var n := |schedule| - 1;
      ExecConserves(q, schedule[..n]);
      ExecInv(q, schedule[..n]);
      if schedule[n].thread < |q.threads| {
        StepConserves(Exec(q, schedule[..n]), schedule[n].thread, schedule[n].request);
      }
    }
  }

  /** In every run the values constructed are, as often as they were constructed, those destroyed and those the slots
      still hold. */
  lemma ConstructedIsDestroyedOrStored(capacity: nat, threads: nat, schedule: seq<Event>)
    requires capacity > 0
    ensures
      var q := Run(capacity, threads, schedule);
      q.constructed == q.destroyed + Stored(q.slots)
  {
    InitInv(capacity, threads);
    StoredNothing(Init(capacity, threads).slots);
    ExecConserves(Init(capacity, threads), schedule);
  }

  /** What the destructor destroys: the values in the slots whose turn is odd. */
  function OddValues(slots: seq<Slot>): multiset<int> {
    if slots == [] then multiset{}
    else
      var last := slots[|slots| - 1];
      OddValues(slots[..|slots| - 1]) + if last.turn % 2 == 1 then Held(last.storage) else multiset{}
  }

  lemma {:induction false} BalancedOddValues(slots: seq<Slot>)
    requires forall i :: 0 <= i < |slots| ==> Balanced(slots[i])
    ensures OddValues(slots) == Stored(slots)
  {
    if slots != [] {
      BalancedOddValues(slots[..|slots| - 1]);
    }
  }

  /** Across any run followed by destruction with no call in flight every constructed value is destroyed exactly as
      often as it was constructed. */
  lemma EveryValueDestroyedOnce(capacity: nat, threads: nat, schedule: seq<Event>)
    requires capacity > 0 && Quiet(Run(capacity, threads, schedule))
    ensures
      var q := Run(capacity, threads, schedule);
      q.constructed == q.destroyed + OddValues(q.slots)
  {
    ConstructedIsDestroyedOrStored(capacity, threads, schedule);
    RunInv(capacity, threads, schedule);
    var q := Run(capacity, threads, schedule);
    forall s | 0 <= s < |q.slots|
      ensures Balanced(q.slots[s])
    {
      assert Balanced(q.slots[s]) || InUse(q.slots[s], s, capacity, q.threads);
    }
    BalancedOddValues(q.slots);
  }

  // ----- first in, first out -----

  /** The consumer holding ticket k receives the value of the producer holding ticket k. */
  lemma FirstInFirstOut(capacity: nat, threads: nat, schedule: seq<Event>, k: nat)
    requires capacity > 0
    requires k in Run(capacity, threads, schedule).received
    ensures var q := Run(capacity, threads, schedule);
            k < |q.issued| == q.head && k < q.tail && q.received[k] == q.issued[k]
  {
    RunInv(capacity, threads, schedule);
    var q := Run(capacity, threads, schedule);
    UntakenTicket(q, k);
  }

  lemma UntakenTicket(q: Queue, k: nat)
    requires Inv(q)
    ensures q.head <= k ==> At(q.slots, k).turn <= 2 * Turn(|q.slots|, k)
    ensures q.tail <= k ==> At(q.slots, k).turn <= 2 * Turn(|q.slots|, k) + 1
  {
  }

  // ----- no call in flight -----

  lemma TakenByProducer(q: Queue, k: nat)
    requires Inv(q) && k < q.head
    ensures At(q.slots, k).turn > 2 * Turn(|q.slots|, k) || Holds(q.threads, q.makers[k], k)
  {
  }

  lemma TakenByConsumer(q: Queue, k: nat)
    requires Inv(q) && k < q.tail
    ensures At(q.slots, k).turn > 2 * Turn(|q.slots|, k) + 1 || Awaits(q.threads, q.takers[k], k)
  {
  }

  lemma QuietTickets(q: Queue)
    requires Inv(q) && Quiet(q)
    ensures forall k: nat :: k in q.received <==> k < q.tail
    ensures forall k: nat :: k < q.head ==> At(q.slots, k).turn > 2 * Turn(|q.slots|, k)
    ensures q.tail <= q.head
  {
    forall k: nat
      ensures k in q.received <==> k < q.tail
    {
      if k < q.tail {
        TakenByConsumer(q, k);
      } else {
        assert At(q.slots, k).turn <= 2 * Turn(|q.slots|, k) + 1;
      }
    }
    forall k: nat | k < q.head
      ensures At(q.slots, k).turn > 2 * Turn(|q.slots|, k)
    {
      TakenByProducer(q, k);
    }
    assert q.tail > 0 ==> q.tail - 1 in q.received;
  }

  /** With no call in flight the queue is a first-in first-out list: the tickets below tail have been received, each
      with its own value, and those from tail to head are in their slots. */
  lemma QuietQueue(capacity: nat, threads: nat, schedule: seq<Event>)
    requires capacity > 0 && Quiet(Run(capacity, threads, schedule))
    ensures var q := Run(capacity, threads, schedule);
            && q.tail <= q.head == |q.issued|
            && (forall k: nat :: k in q.received <==> k < q.tail)
            && (forall k: nat :: k < q.tail ==> q.received[k] == q.issued[k])
            && (forall k: nat :: q.tail <= k < q.head ==> At(q.slots, k).storage == Some(q.issued[k]))
  {
    RunInv(capacity, threads, schedule);
    var q := Run(capacity, threads, schedule);
    QuietTickets(q);
    forall k: nat | q.tail <= k < q.head
      ensures At(q.slots, k).storage == Some(q.issued[k])
    {
      assert At(q.slots, k).turn <= 2 * Turn(capacity, k) + 1;
      FullIsThere(q, k);
    }
  }

  /** One lap back is the same slot, one turn earlier. */
  lemma LapBack(c: nat, k: nat)
    requires 0 < c <= k
    ensures Idx(c, k - c) == Idx(c, k) && Turn(c, k - c) == Turn(c, k) - 1
  {
    assert k == c * (k / c) + k % c && k - c == c * ((k - c) / c) + (k - c) % c;
    var d := k / c - (k - c) / c;
    Ring.MulDistributes(c, k / c, (k - c) / c);
    Ring.MultipleIsFar(c, d);
    Ring.MulDistributes(c, d, 1);
    Ring.MultipleIsFar(c, d - 1);
  }

  /** With no call in flight at most capacity values wait in the queue. */
  lemma QuietCapacity(capacity: nat, threads: nat, schedule: seq<Event>)
    requires capacity > 0 && Quiet(Run(capacity, threads, schedule))
    ensures var q := Run(capacity, threads, schedule); q.head - q.tail <= capacity
  {
    RunInv(capacity, threads, schedule);
    var q := Run(capacity, threads, schedule);
    QuietTickets(q);
    if q.head > capacity {
      LapBack(capacity, q.head - 1);
      assert q.head - 1 - capacity in q.received;
    }
  }

  /** The destructor's test: with no call in flight a slot holds a value exactly when its turn is odd, so destroying
      the odd slots destroys every value that is left and no other. */
  lemma DestructorDestroysTheRest(capacity: nat, threads: nat, schedule: seq<Event>, s: nat)
    requires capacity > 0 && Quiet(Run(capacity, threads, schedule)) && s < capacity
    ensures var q := Run(capacity, threads, schedule);
            q.slots[s].storage.Some? <==> q.slots[s].turn % 2 == 1
  {
    RunInv(capacity, threads, schedule);
    var q := Run(capacity, threads, schedule);
    assert Balanced(q.slots[s]) || InUse(q.slots[s], s, capacity, q.threads);
  }

  // ----- refusals -----

  /** try_emplace of ticket k would return false at the next step of thread i. */
  predicate RefusesEmplace(q: Queue, i: nat, k: nat) {
    i < |q.threads| && q.threads[i].TryEmplaceReload? && q.threads[i].k == k && q.head == k
  }

  predicate RefusesPop(q: Queue, i: nat, k: nat) {
    i < |q.threads| && q.threads[i] == TryPopReload(k) && q.tail == k
  }

  /** Thread i took no step after event m. */
  predicate LastOf(schedule: seq<Event>, m: nat, i: nat) {
    && m < |schedule| && schedule[m].thread == i
    && forall j :: m < j < |schedule| ==> schedule[j].thread != i
  }

  lemma StepTickets(q: Queue, i: nat, request: Request)
    requires |q.slots| > 0 && i < |q.threads|
    ensures q.head <= Step(q, i, request).head && q.tail <= Step(q, i, request).tail
  {
  }

  lemma StepOther(q: Queue, i: nat, request: Request, j: nat)
    requires |q.slots| > 0 && i < |q.threads| && j < |q.threads| && i != j
    ensures Step(q, i, request).threads[j] == q.threads[j]
  {
  }

  predicate Reloading(pc: Pc) {
    pc.TryEmplaceReload? || pc.TryPopReload?
  }

  /** The load of the turn that sends a thread to the given reload. */
  predicate Loads(p: Queue, i: nat, reload: Pc)
    requires i < |p.threads| && |p.slots| > 0
  {
    && (reload.TryEmplaceReload? ==>
         p.threads[i] == TryEmplaceTurn(reload.k, reload.value) && !FreeFor(p.slots, reload.k))
    && (reload.TryPopReload? ==> p.threads[i] == TryPopTurn(reload.k) && !FullFor(p.slots, reload.k))
  }

  lemma StepLoads(q: Queue, i: nat, request: Request)
    requires |q.slots| > 0 && i < |q.threads| && Reloading(Step(q, i, request).threads[i])
    ensures Loads(q, i, Step(q, i, request).threads[i])
  {
    OnlyTurnsReload(q, i, request);
  }

  lemma OnlyTurnsReload(q: Queue, i: nat, request: Request)
    requires |q.slots| > 0 && i < |q.threads| && Reloading(Step(q, i, request).threads[i])
    ensures q.threads[i].TryEmplaceTurn? || q.threads[i].TryPopTurn?
  {
    if q.threads[i].Idle? || Holding(q.threads[i]) {
      HoldersNeverReload(q, i, request);
    }
  }

  lemma HoldersNeverReload(q: Queue, i: nat, request: Request)
    requires |q.slots| > 0 && i < |q.threads| && (q.threads[i].Idle? || Holding(q.threads[i]))
    ensures !Reloading(Step(q, i, request).threads[i])
  {
  }

  lemma RunLast(capacity: nat, threads: nat, schedule: seq<Event>)
    requires capacity > 0 && schedule != []
    ensures var n := |schedule| - 1;
            var before := Run(capacity, threads, schedule[..n]);
            Run(capacity, threads, schedule) ==
              if schedule[n].thread < threads then Step(before, schedule[n].thread, schedule[n].request) else before
  {
  }

  lemma LastIsOther(capacity: nat, threads: nat, schedule: seq<Event>, i: nat)
    requires capacity > 0 && i < threads && schedule != [] && schedule[|schedule| - 1].thread != i
    ensures
      var q, p := Run(capacity, threads, schedule), Run(capacity, threads, schedule[..|schedule| - 1]);
      q.threads[i] == p.threads[i] && p.head <= q.head && p.tail <= q.tail
  {
    RunLast(capacity, threads, schedule);
    var n := |schedule| - 1;
    if schedule[n].thread < threads {
      StepOther(Run(capacity, threads, schedule[..n]), schedule[n].thread, schedule[n].request, i);
      StepTickets(Run(capacity, threads, schedule[..n]), schedule[n].thread, schedule[n].request);
    }
  }

  lemma LastIsOwn(capacity: nat, threads: nat, schedule: seq<Event>, i: nat)
    requires capacity > 0 && i < threads && schedule != [] && schedule[|schedule| - 1].thread == i
    requires Reloading(Run(capacity, threads, schedule).threads[i])
    ensures
      var q, p := Run(capacity, threads, schedule), Run(capacity, threads, schedule[..|schedule| - 1]);
      Loads(p, i, q.threads[i]) && p.head <= q.head && p.tail <= q.tail
  {
    RunLast(capacity, threads, schedule);
    var n := |schedule| - 1;
    StepLoads(Run(capacity, threads, schedule[..n]), i, schedule[n].request);
    StepTickets(Run(capacity, threads, schedule[..n]), i, schedule[n].request);
  }

  /** Event m is thread i's last, and is the load of the turn that sent it to this reload, when head and tail were at
      most these. */
  ghost predicate LoadedAt(capacity: nat, threads: nat, schedule: seq<Event>, i: nat, m: nat, reload: Pc,
                           head: nat, tail: nat)
    requires capacity > 0 && i < threads
  {
    && LastOf(schedule, m, i)
    && var p := Run(capacity, threads, schedule[..m]);
       p.head <= head && p.tail <= tail && Loads(p, i, reload)
  }

  lemma LoadedEarlier(capacity: nat, threads: nat, schedule: seq<Event>, i: nat, m: nat, reload: Pc,
                      head: nat, tail: nat, head': nat, tail': nat)
    requires capacity > 0 && i < threads && schedule != [] && schedule[|schedule| - 1].thread != i
    requires LoadedAt(capacity, threads, schedule[..|schedule| - 1], i, m, reload, head, tail)
    requires head <= head' && tail <= tail'
    ensures LoadedAt(capacity, threads, schedule, i, m, reload, head', tail')
  {
    assert schedule[..|schedule| - 1][..m] == schedule[..m];
  }

  /** The load of the turn that led a thread to reload head or tail. */
  lemma {:induction false} LastLoad(capacity: nat, threads: nat, schedule: seq<Event>, i: nat) returns (m: nat)
    requires capacity > 0 && i < threads && Reloading(Run(capacity, threads, schedule).threads[i])
    ensures
      var q := Run(capacity, threads, schedule);
      LoadedAt(capacity, threads, schedule, i, m, q.threads[i], q.head, q.tail)
  {
    var n := |schedule| - 1;
    assert schedule != [];
    var q, before := Run(capacity, threads, schedule), Run(capacity, threads, schedule[..n]);
    if schedule[n].thread == i {
      LastIsOwn(capacity, threads, schedule, i);
      m := n;
    } else {
      LastIsOther(capacity, threads, schedule, i);
      m := LastLoad(capacity, threads, schedule[..n], i);
      LoadedEarlier(capacity, threads, schedule, i, m, q.threads[i], before.head, before.tail, q.head, q.tail);
    }
  }

  lemma NotFreeIsFull(p: Queue, i: nat, k: nat)
    requires Inv(p) && i < |p.threads| && p.threads[i].TryEmplaceTurn? && p.threads[i].k == k
    requires !FreeFor(p.slots, k) && k >= p.head
    ensures p.head == k && k >= |p.slots| && k - |p.slots| !in p.received
  {
    assert ThreadOk(p.slots, p.head, p.tail, p.issued, p.threads[i]);
    UntakenTicket(p, k);
    FirstLap(|p.slots|, k);
    if k >= |p.slots| {
      LapBack(|p.slots|, k);
    }
  }

  lemma LoadedNotFree(p: Queue, i: nat, k: nat, reload: Pc)
    requires Inv(p) && i < |p.threads| && Loads(p, i, reload)
    requires reload.TryEmplaceReload? && reload.k == k && p.head <= k
    ensures p.threads[i].TryEmplaceTurn?
    ensures p.head == k && k >= |p.slots| && k - |p.slots| !in p.received
  {
    NotFreeIsFull(p, i, k);
  }

  lemma FirstLap(c: nat, k: nat)
    requires c > 0
    ensures k < c ==> Turn(c, k) == 0
  {
  }

  lemma NotFullIsUnpublished(p: Queue, i: nat, k: nat)
    requires Inv(p) && i < |p.threads| && p.threads[i] == TryPopTurn(k) && !FullFor(p.slots, k) && k >= p.tail
    ensures p.tail == k && (p.head <= k || exists j :: 0 <= j < |p.threads| && Holds(p.threads, j, k))
  {
    assert ThreadOk(p.slots, p.head, p.tail, p.issued, p.threads[i]);
    UntakenTicket(p, k);
    if k < p.head {
      assert At(p.slots, k).turn > 2 * Turn(|p.slots|, k) || Holds(p.threads, p.makers[k], k);
      assert Holds(p.threads, p.makers[k], k);
    }
  }

  /** try_emplace returns false only if, at an instant inside the call, the next ticket to hand out was k and the
      value one lap before it had not been taken out: the queue was full. */
  lemma FullWhenEmplaceRefused(capacity: nat, threads: nat, schedule: seq<Event>, i: nat, k: nat) returns (m: nat)
    requires capacity > 0 && i < threads && RefusesEmplace(Run(capacity, threads, schedule), i, k)
    ensures LastOf(schedule, m, i)
    ensures var p := Run(capacity, threads, schedule[..m]);
            p.threads[i].TryEmplaceTurn? && p.head == k && k >= capacity && k - capacity !in p.received
  {
    m := LastLoad(capacity, threads, schedule, i);
    RunInv(capacity, threads, schedule[..m]);
    LoadedNotFree(Run(capacity, threads, schedule[..m]), i, k, Run(capacity, threads, schedule).threads[i]);
  }

  /** try_pop returns false only if, at an instant inside the call, the next ticket to take was k and its value had
      not been published: a producer of k has not begun or is still inside the slot. */
  lemma UnpublishedWhenPopRefused(capacity: nat, threads: nat, schedule: seq<Event>, i: nat, k: nat) returns (m: nat)
    requires capacity > 0 && i < threads && RefusesPop(Run(capacity, threads, schedule), i, k)
    ensures LastOf(schedule, m, i)
    ensures var p := Run(capacity, threads, schedule[..m]);
            && p.threads[i] == TryPopTurn(k) && p.tail == k
            && (p.head <= k || exists j :: 0 <= j < threads && Holds(p.threads, j, k))
  {
    m := LastLoad(capacity, threads, schedule, i);
    RunInv(capacity, threads, schedule[..m]);
    NotFullIsUnpublished(Run(capacity, threads, schedule[..m]), i, k);
  }
}
