/** The bounded ticket queue as an object, each call running by itself. */
module MpmcQueue {
  import opened MpmcMachine
  import MpmcTheorems
  import opened Options
  import Ring

  /** Tickets [tail, head) are in their slots, tickets [head, tail + capacity) find theirs free. */
  predicate Window(slots: seq<Slot>, tail: nat, head: nat)
    requires |slots| > 0
  {
    && tail <= head <= tail + |slots|
    && (forall k: nat :: tail <= k < head ==> FullFor(slots, k) && At(slots, k).storage.Some?)
    && (forall k: nat :: head <= k < tail + |slots| ==> FreeFor(slots, k) && At(slots, k).storage.None?)
  }

  function Values(slots: seq<Slot>, tail: nat, head: nat): (c: seq<int>)
    requires |slots| > 0 && Window(slots, tail, head)
    ensures |c| == head - tail && forall i :: 0 <= i < head - tail ==> At(slots, tail + i).storage == Some(c[i])
  {
    seq(head - tail, i requires 0 <= i < head - tail => At(slots, tail + i).storage.value)
  }

  lemma InWindow(slots: seq<Slot>, tail: nat, head: nat, k: nat)
    requires |slots| > 0 && Window(slots, tail, head)
    ensures tail <= k < head ==> FullFor(slots, k) && At(slots, k).storage.Some?
    ensures head <= k < tail + |slots| ==> FreeFor(slots, k) && At(slots, k).storage.None?
  {
  }

  /** The turn of the slot of the next ticket tells whether the queue is full. */
  lemma FullTest(slots: seq<Slot>, tail: nat, head: nat)
    requires |slots| > 0 && Window(slots, tail, head)
    ensures FreeFor(slots, head) <==> head - tail < |slots|
  {
    InWindow(slots, tail, head, head);
    InWindow(slots, tail, head, tail);
    MpmcTheorems.LapBack(|slots|, tail + |slots|);
  }

  /** The turn of the slot of the next ticket to take tells whether the queue is empty. */
  lemma EmptyTest(slots: seq<Slot>, tail: nat, head: nat)
    requires |slots| > 0 && Window(slots, tail, head)
    ensures FullFor(slots, tail) <==> tail < head
  {
    InWindow(slots, tail, head, tail);
  }

  lemma OtherSlot(slots: seq<Slot>, k: nat, j: nat, s: Slot)
    requires |slots| > 0 && (k < j < k + |slots| || j < k < j + |slots|)
    ensures At(SetAt(slots, k, s), j) == At(slots, j)
  {
    if k < j {
      Ring.SlotsDiffer(k, j, |slots|);
    } else {
      Ring.SlotsDiffer(j, k, |slots|);
    }
  }

  /** Filling the slot of the next ticket appends. */
  lemma FillAppends(slots: seq<Slot>, tail: nat, head: nat, s: Slot, x: int)
    requires |slots| > 0 && Window(slots, tail, head) && head - tail < |slots|
    requires s.turn == 2 * Turn(|slots|, head) + 1 && s.storage == Some(x)
    ensures Window(SetAt(slots, head, s), tail, head + 1)
    ensures Values(SetAt(slots, head, s), tail, head + 1) == Values(slots, tail, head) + [x]
  {
    var slots' := SetAt(slots, head, s);
    forall j: nat | tail <= j < tail + |slots| && j != head
      ensures At(slots', j) == At(slots, j)
    {
      OtherSlot(slots, head, j, s);
    }
    assert forall j: nat :: tail <= j < head ==> FullFor(slots, j) && At(slots, j).storage.Some?;
    assert forall j: nat :: head < j < tail + |slots| ==> FreeFor(slots, j) && At(slots, j).storage.None?;
  }

  /** Freeing the slot of the oldest ticket drops the first value. */
  lemma DrainDrops(slots: seq<Slot>, tail: nat, head: nat, s: Slot)
    requires |slots| > 0 && Window(slots, tail, head) && tail < head
    requires s.turn == 2 * Turn(|slots|, tail) + 2 && s.storage == None
    ensures Window(SetAt(slots, tail, s), tail + 1, head)
    ensures Values(SetAt(slots, tail, s), tail + 1, head) == Values(slots, tail, head)[1..]
  {
    var slots' := SetAt(slots, tail, s);
    forall j: nat | tail < j < tail + |slots|
      ensures At(slots', j) == At(slots, j)
    {
      OtherSlot(slots, tail, j, s);
    }
    assert forall j: nat :: tail < j < head ==> FullFor(slots, j) && At(slots, j).storage.Some?;
    assert forall j: nat :: head <= j < tail + |slots| ==> FreeFor(slots, j) && At(slots, j).storage.None?;
    MpmcTheorems.LapBack(|slots|, tail + |slots|);
  }

  class Queue {
    const capacity: nat
    const slots: array<Slot>
    var head: nat
    var tail: nat

    ghost predicate Valid()
      reads this, slots
    {
      capacity > 0 && slots.Length == capacity && Window(slots[..], tail, head)
    }

    ghost function Contents(): (c: seq<int>)
      reads this, slots
      requires Valid()
      ensures |c| <= capacity
    {
      Values(slots[..], tail, head)
    }

    constructor (capacity: nat)
      requires capacity > 0
      ensures Valid() && this.capacity == capacity && Contents() == [] && fresh(slots)
    {
      this.capacity := capacity;
      slots := new Slot[capacity](_ => Slot(0, None, 0));
      head, tail := 0, 0;
      new;
      forall k: nat | k < capacity
        ensures FreeFor(slots[..], k) && At(slots[..], k).storage.None?
      {
        MpmcTheorems.FirstLap(capacity, k);
      }
    }

    method TryEmplace(x: int) returns (ok: bool)
      requires Valid()
      modifies this`head, slots
      ensures Valid() && tail == old(tail)
      ensures ok == (|old(Contents())| < capacity)
      ensures Contents() == if ok then old(Contents()) + [x] else old(Contents())
    {
      FullTest(slots[..], tail, head);
      ok := false;
      var k := head;
      var done := false;
      while !done
        invariant Valid() && tail == old(tail)
        invariant !done ==> !ok && k == head == old(head) && slots[..] == old(slots[..])
        invariant done ==> ok == (|old(Contents())| < capacity)
        invariant done ==> Contents() == if ok then old(Contents()) + [x] else old(Contents())
        decreases !done
      {
        var i := k % capacity;
        if k / capacity * 2 == slots[i].turn {
          FillAppends(slots[..], tail, head, Slot(k / capacity * 2 + 1, Some(x), 0), x);
          head := k + 1;
          slots[i] := Slot(k / capacity * 2 + 1, Some(x), 0);
          ok, done := true, true;
        } else {
          var previous := k;
          k := head;
          done := k == previous;
        }
      }
    }

    method TryPop() returns (r: Option<int>)
      requires Valid()
      modifies this`tail, slots
      ensures Valid() && head == old(head)
      ensures r == if old(Contents()) == [] then None else Some(old(Contents())[0])
      ensures Contents() == if old(Contents()) == [] then [] else old(Contents())[1..]
    {
      EmptyTest(slots[..], tail, head);
      r := None;
      var k := tail;
      var done := false;
      while !done
        invariant Valid() && head == old(head)
        invariant !done ==> r == None && k == tail == old(tail) && slots[..] == old(slots[..])
        invariant done ==> r == if old(Contents()) == [] then None else Some(old(Contents())[0])
        invariant done ==> Contents() == if old(Contents()) == [] then [] else old(Contents())[1..]
        decreases !done
      {
        var i := k % capacity;
        if k / capacity * 2 + 1 == slots[i].turn {
          DrainDrops(slots[..], tail, head, Slot(k / capacity * 2 + 2, None, 0));
          tail := k + 1;
          r := slots[i].storage;
          slots[i] := Slot(k / capacity * 2 + 2, None, 0);
          done := true;
        } else {
          var previous := k;
          k := tail;
          done := k == previous;
        }
      }
    }
  }
}
