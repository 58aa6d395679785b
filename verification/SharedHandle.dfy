/** The reference-counting handle as an object: copying, moving, assigning and resetting keep every frame's counter
    equal to the number of handles that name it and destroy the frame when the last one goes.
 */
module SharedHandle {

  class Coroutine {
    var count: nat
    var destroyed: nat
    ghost var holders: set<Handle>

    ghost predicate Ok()
      reads this, holders
    {
      && count == |holders| && destroyed == (if count == 0 then 1 else 0)
      && forall h | h in holders :: h.frame == this
    }

    constructor (ghost owner: Handle)
      ensures count == 1 && destroyed == 0 && holders == {owner}
    {
      count, destroyed, holders := 1, 0, {owner};
    }
  }

  class Handle {
    var frame: Coroutine?

    ghost predicate Ok()
      reads this, frame, if frame == null then {} else frame.holders
    {
      frame != null ==> frame.Ok() && this in frame.holders
    }

    ghost function Target(): set<Coroutine>
      reads this
    {
      if frame == null then {} else {frame}
    }

    /** The first handle of a new frame adopts the initial count. */
    constructor Adopt()
      ensures Ok() && frame != null && fresh(frame) && frame.holders == {this}
    {
      new;
      frame := new Coroutine(this);
    }

    constructor Empty()
      ensures Ok() && frame == null
    {
      frame := null;
    }

    constructor Copy(other: Handle)
      requires other.Ok()
      modifies other.Target()
      ensures Ok() && other.Ok() && frame == other.frame == old(other.frame)
      ensures frame != null ==> frame.holders == old(other.frame.holders) + {this} && frame.destroyed == 0
    {
      frame := other.frame;
      new;
      Increment();
    }

    constructor Move(other: Handle)
      requires other.Ok()
      modifies other, other.Target()
      ensures Ok() && other.Ok() && frame == old(other.frame) && other.frame == null
      ensures frame != null ==>
                frame.holders == old(other.frame.holders) - {other} + {this} && frame.count == old(other.frame.count)
    {
      frame := other.frame;
      new;
      other.frame := null;
      if frame != null {
        frame.holders := frame.holders - {other} + {this};
      }
    }

    method Increment()
      requires frame != null ==> frame.Ok() && frame.count > 0 && this !in frame.holders
      modifies Target()
      ensures Ok()
      ensures frame != null ==>
                frame.holders == old(frame.holders) + {this} && frame.destroyed == old(frame.destroyed)
    {
      if frame != null {
        frame.count := frame.count + 1;
        frame.holders := frame.holders + {this};
      }
    }

    /** One handle less; the last one destroys the frame. */
    method Reset()
      requires Ok()
      modifies this, Target()
      ensures frame == null
      ensures var f := old(frame);
              f != null ==> f.Ok() && f.holders == old(frame.holders) - {this}
                            && f.destroyed == (if f.holders == {} then 1 else 0)
    {
      var f := frame;
      frame := null;
      if f != null {
        f.holders := f.holders - {this};
        f.count := f.count - 1;
        if f.count == 0 {
          f.destroyed := f.destroyed + 1;
        }
      }
    }

    /** Copy assignment, including to itself and between two handles of one frame: only a frame whose last handle
        this was is destroyed. */
    method Assign(other: Handle)
      requires Ok() && other.Ok()
      modifies this, Target(), other.Target()
      ensures Ok() && other.Ok() && frame == other.frame == old(other.frame)
      ensures frame != null ==> frame.holders == old(other.frame.holders) + {this} && frame.destroyed == 0
      ensures var f := old(frame);
              f != null && f != frame ==> f.Ok() && f.holders == old(frame.holders) - {this}
                                          && f.destroyed == (if f.holders == {} then 1 else 0)
    {
      if this != other {
        Reset();
        frame := other.frame;
        Increment();
      }
    }

    method MoveAssign(other: Handle)
      requires Ok() && other.Ok()
      modifies this, other, Target(), other.Target()
      ensures Ok() && other.Ok() && frame == old(other.frame) && (this != other ==> other.frame == null)
      ensures frame != null && this != other ==>
                frame.holders == old(other.frame.holders) - {other} + {this} && frame.destroyed == 0
      ensures var f := old(frame);
              f != null && f != frame ==> f.Ok() && f.holders == old(frame.holders) - {this}
                                          && f.destroyed == (if f.holders == {} then 1 else 0)
    {
      if this != other {
        Reset();
        frame := other.frame;
        other.frame := null;
        if frame != null {
          frame.holders := frame.holders - {other} + {this};
        }
      }
    }
  }
}
