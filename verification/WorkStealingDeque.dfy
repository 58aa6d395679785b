/** The ring buffer and the deque as the objects they are, for calls that do not overlap. Interleaved calls are
    the subject of DequeMachine.
 */
module WorkStealingDeque {
  import opened Options
  import Ring

  /** A power-of-two array addressed by masked indices. */
  class RingBuff {
    ghost const bits: nat
    const cap: nat
    const mask: nat
    const buff: array<int>

    ghost predicate Valid() {
      cap == Ring.Pow2(bits) && mask == cap - 1 && buff.Length == cap
    }

    constructor (ghost bits: nat, cap: nat)
      requires cap == Ring.Pow2(bits)
      ensures Valid() && this.cap == cap && this.bits == bits && fresh(buff)
    {
      this.bits := bits;
      this.cap := cap;
      this.mask := cap - 1;
      this.buff := new int[cap](_ => 0);
    }

    /** The slot of logical index i: the remainder modulo the capacity, computed by masking. */
    function Slot(i: nat): (s: nat)
      requires Valid()
      ensures s == i % cap && s < buff.Length
    {
      Ring.MaskIsMod(i, bits);
      Ring.And(i, mask)
    }

    method Store(i: nat, x: int)
      requires Valid()
      modifies buff
      ensures buff[..] == Ring.Store(old(buff[..]), i, x)
    {
      buff[Slot(i)] := x;
    }

    method Load(i: nat) returns (x: int)
      requires Valid()
      ensures x == Ring.Load(buff[..], i)
    {
      x := buff[Slot(i)];
    }

    /** A fresh buffer of twice the capacity with the same logical elements in [t, b). */
    method Resize(b: nat, t: nat) returns (ptr: RingBuff)
      requires Valid() && t <= b <= t + cap
      ensures fresh(ptr) && fresh(ptr.buff) && ptr.Valid() && ptr.cap == 2 * cap
      ensures forall j :: t <= j < b ==> Ring.Load(ptr.buff[..], j) == Ring.Load(buff[..], j)
    {
      ptr := new RingBuff(bits + 1, 2 * cap);
      var i := t;
      while i != b
        invariant t <= i <= b && ptr.Valid()
        invariant forall j :: t <= j < i ==> Ring.Load(ptr.buff[..], j) == Ring.Load(buff[..], j)
        decreases b - i
      {
        var x := Load(i);
        ghost var before := ptr.buff[..];
        ptr.Store(i, x);
        forall j | t <= j <= i ensures Ring.Load(ptr.buff[..], j) == Ring.Load(buff[..], j) {
          Ring.StoreLoad(before, i, j, x);
        }
        i := i + 1;
      }
    }
  }

  class Deque {
    var top: int
    var bottom: int
    var buffer: RingBuff
    var garbage: seq<RingBuff>

    ghost predicate Valid()
      reads this
    {
      buffer.Valid() && 0 <= top <= bottom && bottom - top <= buffer.cap
    }

    /** The elements between top and bottom, oldest first. */
    ghost function Contents(): (c: seq<int>)
      requires Valid()
      reads this, buffer.buff
      ensures |c| == bottom - top
    {
      Ring.Slice(buffer.buff[..], top, bottom)
    }

    constructor (ghost bits: nat, cap: nat)
      requires cap == Ring.Pow2(bits)
      ensures Valid() && Contents() == [] && fresh(buffer.buff)
    {
      top, bottom := 0, 0;
      buffer := new RingBuff(bits, cap);
      garbage := [];
    }

    /** Append at the back, moving to a larger buffer first when the present one is full. */
    method Emplace(x: int)
      requires Valid()
      modifies this`bottom, this`buffer, this`garbage, buffer.buff
      ensures Valid() && Contents() == old(Contents()) + [x]
      ensures buffer == old(buffer) || (fresh(buffer.buff) && garbage == old(garbage) + [old(buffer)])
    {
      var b, t := bottom, top;
      var buf := buffer;
      if buf.cap < b - t + 1 {
        var larger := buf.Resize(b, t);
        garbage := garbage + [buf];
        buf := larger;
        buffer := buf;
      }
      ghost var before := buf.buff[..];
      buf.Store(b, x);
      forall j | t <= j < b ensures Ring.Load(buf.buff[..], j) == Ring.Load(before, j) {
        Ring.StoreLoad(before, b, j, x);
      }
      Ring.StoreLoad(before, b, b, x);
      bottom := b + 1;
      assert Contents() == old(Contents()) + [x];
    }

    /** Take the newest element. */
    method Pop() returns (r: Option<int>)
      requires Valid()
      modifies this`top, this`bottom
      ensures Valid() && buffer == old(buffer)
      ensures
        var before := old(Contents());
        if before == [] then r == None && Contents() == []
        else r == Some(before[|before| - 1]) && Contents() == before[..|before| - 1]
    {
      ghost var before := Contents();
      var b := bottom - 1;
      var buf := buffer;
      bottom := b;
      var t := top;
      if t <= b {
        if t == b {
          top := t + 1;
          bottom := b + 1;
        }
        var x := buf.Load(b);
        assert Contents() == before[..|before| - 1];
        r := Some(x);
      } else {
        bottom := b + 1;
        r := None;
      }
    }

    /** Take the oldest element. */
    method Steal() returns (r: Option<int>)
      requires Valid()
      modifies this`top
      ensures Valid() && buffer == old(buffer) && bottom == old(bottom)
      ensures
        var before := old(Contents());
        if before == [] then r == None && Contents() == []
        else r == Some(before[0]) && Contents() == before[1..]
    {
      ghost var before := Contents();
      var t, b := top, bottom;
      if t < b {
        var x := buffer.Load(t);
        top := t + 1;
        assert Contents() == before[1..];
        r := Some(x);
      } else {
        r := None;
      }
    }
  }
}
