/** Circular buffers: a power-of-two array addressed by masked indices. */
module Ring {

  // ----- masking -----

  function Pow2(k: nat): (p: nat)
    ensures p > 0
  {
    if k == 0 then 1 else 2 * Pow2(k - 1)
  }

  /** Bitwise and of two naturals. */
  function And(a: nat, b: nat): nat
    decreases a
  {
    if a == 0 || b == 0 then 0 else (a % 2) * (b % 2) + 2 * And(a / 2, b / 2)
  }

  lemma HalfMod(i: nat, m: nat)
    requires m > 0
    ensures i % (2 * m) == i % 2 + 2 * ((i / 2) % m)
  {
    var q, r := (i / 2) / m, (i / 2) % m;
    assert i / 2 == m * q + r;
    assert i == 2 * (i / 2) + i % 2;
    assert i == (2 * m) * q + (2 * r + i % 2);
    QuotientUnique(i, 2 * m, q, 2 * r + i % 2);
  }

  /** A nonzero multiple of m is at least m away from zero. */
  lemma MultipleIsFar(m: nat, d: int)
    requires m > 0
    ensures d >= 1 ==> m * d >= m
    ensures d <= -1 ==> m * d <= 0 - m
  {
  }

  lemma QuotientUnique(i: nat, m: nat, q: int, r: nat)
    requires m > 0 && i == m * q + r && r < m
    ensures i % m == r
  {
    var q', r' := i / m, i % m;
    assert i == m * q' + r';
    assert m * (q - q') == r' - r;
    MultipleIsFar(m, q - q');
  }

  /** Masking with capacity - 1 is the remainder modulo the capacity when the capacity is a power of two. */
  lemma {:induction false} MaskIsMod(i: nat, k: nat)
    ensures And(i, Pow2(k) - 1) == i % Pow2(k)
    decreases k
  {
    if k > 0 {
      MaskIsMod(i / 2, k - 1);
      HalfMod(i, Pow2(k - 1));
      assert (Pow2(k) - 1) / 2 == Pow2(k - 1) - 1 && (Pow2(k) - 1) % 2 == 1;
    }
  }

  /** Indices less than one capacity apart use different slots. */
  lemma SlotsDiffer(i: nat, j: nat, cap: nat)
    requires i < j < i + cap
    ensures i % cap != j % cap
  {
    if i % cap == j % cap {
      var d := j / cap - i / cap;
      MultipleIsFar(cap, d);
      MulDistributes(cap, j / cap, i / cap);
    }
  }

  lemma MulDistributes(c: int, x: int, y: int)
    ensures c * (x - y) == c * x - c * y
  {
  }

  // ----- buffers as values -----

  predicate IsRing(slots: seq<int>) {
    |slots| > 0
  }

  function Load(slots: seq<int>, i: nat): int
    requires IsRing(slots)
  {
    slots[i % |slots|]
  }

  function Store(slots: seq<int>, i: nat, x: int): (s: seq<int>)
    requires IsRing(slots)
    ensures |s| == |slots|
  {
    slots[i % |slots| := x]
  }

  /** The logical elements [t, b). */
  function Slice(slots: seq<int>, t: nat, b: nat): (c: seq<int>)
    requires IsRing(slots) && t <= b
    ensures |c| == b - t && forall i :: 0 <= i < b - t ==> c[i] == Load(slots, t + i)
  {
    seq(b - t, i requires 0 <= i < b - t => Load(slots, t + i))
  }

  /** Copy the logical elements [i, b) of slots into to. */
  function Copy(slots: seq<int>, to: seq<int>, i: nat, b: nat): (s: seq<int>)
    requires IsRing(slots) && IsRing(to)
    ensures |s| == |to|
    decreases b - i
  {
    if i >= b then to else Copy(slots, Store(to, i, Load(slots, i)), i + 1, b)
  }

  lemma StoreLoad(slots: seq<int>, i: nat, j: nat, x: int)
    requires IsRing(slots)
    ensures Load(Store(slots, i, x), i) == x
    ensures i < j < i + |slots| || j < i < j + |slots| ==> Load(Store(slots, i, x), j) == Load(slots, j)
  {
    if i < j < i + |slots| { SlotsDiffer(i, j, |slots|); }
    if j < i < j + |slots| { SlotsDiffer(j, i, |slots|); }
  }

  /** A copy into a buffer that can hold the range keeps every logical element of the range. */
  lemma {:induction false} CopyKeeps(slots: seq<int>, to: seq<int>, t: nat, i: nat, b: nat, j: nat)
    requires IsRing(slots) && IsRing(to) && t <= i <= b && b - t <= |to| && t <= j < b
    requires j < i ==> Load(to, j) == Load(slots, j)
    ensures Load(Copy(slots, to, i, b), j) == Load(slots, j)
    decreases b - i
  {
    if i < b {
      StoreLoad(to, i, j, Load(slots, i));
      CopyKeeps(slots, Store(to, i, Load(slots, i)), t, i + 1, b, j);
    }
  }
}
