/** The resource queue as the object it is: an array of entries and three indices, with calls that do not
    overlap. Interleaved calls are the subject of NodeMachine. The object is given the reading of
    `first.compare_exchange_strong(cur, ++cur, ..)`: read as intended it always stands for the list of live entries;
    read as written it does so until a call at the head finds the entry behind it marked.
 */
module ResourceNode {
  import opened Access
  import opened LiveList
  import NodeMachine

  /** The first n waiting entries may run with the first of them. */
  predicate Shared(waiting: seq<TaskAccess>, n: nat)
    requires 0 < n <= |waiting|
  {
    forall i :: 0 < i < n ==> !IsSerialAccess(waiting[0].mode, waiting[i].mode)
  }

  lemma SharedGrows(waiting: seq<TaskAccess>, n: nat)
    requires 0 < n < |waiting| && Shared(waiting, n) && !IsSerialAccess(waiting[0].mode, waiting[n].mode)
    ensures Shared(waiting, n + 1)
    ensures Handles(waiting[..n + 1]) == Handles(waiting[..n]) + [waiting[n].handle]
  {
  }

  /** Granting stops at the end of the waiting entries or at the first one that conflicts. */
  lemma GrantStops(waiting: seq<TaskAccess>, n: nat)
    requires 0 < n <= |waiting| && forall i :: 0 <= i < |waiting| ==> !waiting[i].removeState
    requires Shared(waiting, n)
    requires n < |waiting| ==> IsSerialAccess(waiting[0].mode, waiting[n].mode)
    ensures Balanced(waiting[..n], waiting[n..])
  {
  }

  class ResourceNode {
    var first: nat
    var firstNotReady: nat
    var last: nat
    const tasks: array<TaskAccess>
    const reading: NodeMachine.CasReading

    constructor (capacity: nat, reading: NodeMachine.CasReading)
      requires capacity > 0
      ensures Valid() && Live() == [] && fresh(tasks) && tasks.Length == capacity && this.reading == reading
    {
      this.reading := reading;
      first, firstNotReady, last := 0, 0, 0;
      tasks := new TaskAccess[capacity](_ => TaskAccess(0, Read, false));
    }

    ghost predicate InRange()
      reads this
    {
      first <= firstNotReady <= last < tasks.Length
    }

    ghost function Granted(): (g: seq<TaskAccess>)
      reads this, tasks
      requires InRange()
    {
      tasks[first..firstNotReady]
    }

    ghost function Waiting(): (w: seq<TaskAccess>)
      reads this, tasks
      requires InRange()
    {
      tasks[firstNotReady..last]
    }

    /** The list this object stands for: the registered tasks not yet removed, in arrival order. */
    ghost function Live(): (q: seq<TaskAccess>)
      reads this, tasks
      requires InRange()
    {
      LiveOf(Granted() + Waiting())
    }

    ghost predicate Valid()
      reads this, tasks
    {
      && InRange()
      && Balanced(Granted(), Waiting())
      && (forall i :: last <= i < tasks.Length ==> !tasks[i].removeState)
    }

    /** Register a task at the end; it is granted at once exactly when the list lets all of it run. Nothing is asked of
        its handle, which may be that of an earlier entry, removed or not. */
    method AddTask(handle: nat, mode: AccessMode) returns (ready: bool)
      requires Valid() && last + 1 < tasks.Length
      modifies this`last, this`firstNotReady, tasks
      ensures Valid() && last == old(last) + 1
      ensures Live() == old(Live()) + [TaskAccess(handle, mode, false)]
      ensures ready <==> Prefix(Live()) == |Live()|
    {
      ghost var granted, waiting := Granted(), Waiting();
      var task := TaskAccess(handle, mode, false);
      ready := Append(task);
      AddIsAppend(granted, waiting, task, ready);
    }

    /** The body of add_task. */
    method Append(task: TaskAccess) returns (ready: bool)
      requires InRange() && last + 1 < tasks.Length
      requires first == firstNotReady ==> firstNotReady == last
      requires !task.removeState && forall i :: last <= i < tasks.Length ==> !tasks[i].removeState
      modifies this`last, this`firstNotReady, tasks
      ensures InRange() && last == old(last) + 1
      ensures forall i :: last <= i < tasks.Length ==> !tasks[i].removeState
      ensures
        var granted, waiting := old(Granted()), old(Waiting());
        && (ready <==> waiting == [] && (granted == [] || !IsSerialAccess(task.mode, granted[|granted| - 1].mode)))
        && Granted() == (if ready then granted + [task] else granted)
        && Waiting() == (if ready then [] else waiting + [task])
    {
      var oldLast := last;
      tasks[oldLast] := task;
      last := last + 1;
      ready := false;
      var fnr := firstNotReady;
      if fnr == oldLast {
        if first == oldLast || !IsSerialAccess(task.mode, tasks[oldLast - 1].mode) {
          firstNotReady := fnr + 1;
          ready := true;
        }
      }
    }

    /** A call at the head does what the list asks for: the exchange is read as intended, or there is no marked entry
        right behind first for it to fail on. */
    predicate PassesOn()
      reads this, tasks
      requires InRange()
    {
      reading.Intended? || first + 1 >= firstNotReady || !tasks[first + 1].removeState
    }

    /** Move first past the entry at first and past every marked entry behind it; or, read as written, past the entry at
        first only, and return if the one behind it is marked. */
    method PassHead() returns (goesOn: bool)
      requires InRange() && first < firstNotReady
      modifies this`first
      ensures old(first) < first <= firstNotReady && goesOn == old(PassesOn())
      ensures
        var granted, k := old(Granted()), first - old(first);
        && Granted() == granted[k..] && Waiting() == old(Waiting())
        && (goesOn ==> (forall i :: 0 < i < k ==> granted[i].removeState)
                       && (k < |granted| ==> !granted[k].removeState))
        && (!goesOn ==> k == 1 < |granted| && granted[1].removeState)
    {
      first := first + 1;
      var cur := first;
      while tasks[cur].removeState && cur != firstNotReady
        invariant cur == first && old(first) < first <= firstNotReady
        invariant forall i :: old(first) < i < first ==> tasks[i].removeState
        invariant first > old(first) + 1 ==> reading.Intended?
        decreases firstNotReady - cur
      {
        if reading.AsWritten? {
          return false;
        }
        first := cur + 1;
        cur := cur + 1;
      }
      goesOn := true;
    }

    /** Walk to the entry of handle and mark it. With no other call under way, the CAS on first that follows
        the mark fails, because first is still in front of the entry, and the call returns. */
    method MarkInside(handle: nat) returns (k: nat)
      requires InRange() && first < firstNotReady && tasks[first].handle != handle
      requires exists i :: first < i < firstNotReady && tasks[i].handle == handle
      modifies tasks
      ensures k == FirstOf(old(Granted()), handle) && 0 < k < |old(Granted())|
      ensures Granted() == Marked(old(Granted()), k) && Waiting() == old(Waiting())
      ensures forall i :: last <= i < tasks.Length ==> tasks[i] == old(tasks[i])
    {
      var cur := first + 1;
      var fnr := firstNotReady;
      while cur != fnr
        invariant first < cur <= fnr
        invariant forall i :: first < i < cur ==> tasks[i].handle != handle
        invariant tasks[..] == old(tasks[..])
        decreases fnr - cur
      {
        if tasks[cur].handle == handle {
          k := cur - first;
          tasks[cur] := tasks[cur].(removeState := true);
          return;
        }
        cur := cur + 1;
      }
      assert false;
    }

    /** The inner loop: grant entries below tempLast as long as they may run with the first one granted. */
    method GrantWhile(fnr0: nat, tempLast: nat, mode: AccessMode, parallel: bool, woken0: seq<nat>,
                      ghost waiting: seq<TaskAccess>)
      returns (fnr: nat, parallelExit: bool, woken: seq<nat>)
      requires InRange() && first < fnr0 == firstNotReady <= tempLast <= last
      requires waiting == tasks[first..last] && mode == waiting[0].mode
      requires Shared(waiting, fnr0 - first) && woken0 == Handles(waiting[..fnr0 - first])
      modifies this`firstNotReady
      ensures fnr0 <= fnr == firstNotReady <= tempLast
      ensures Shared(waiting, fnr - first) && woken == Handles(waiting[..fnr - first])
      ensures fnr != tempLast ==> !parallelExit && IsSerialAccess(waiting[0].mode, waiting[fnr - first].mode)
    {
      fnr, parallelExit, woken := fnr0, parallel, woken0;
      if fnr != tempLast {
        parallelExit := !IsSerialAccess(mode, tasks[fnr].mode);
      }
      while fnr != tempLast && parallelExit
        invariant fnr0 <= fnr == firstNotReady <= tempLast
        invariant fnr != tempLast ==> parallelExit == !IsSerialAccess(waiting[0].mode, waiting[fnr - first].mode)
        invariant Shared(waiting, fnr - first) && woken == Handles(waiting[..fnr - first])
        decreases tempLast - fnr
      {
        firstNotReady := fnr + 1;
        woken := woken + [tasks[fnr].handle];
        SharedGrows(waiting, fnr - first);
        fnr := fnr + 1;
        if fnr != tempLast {
          parallelExit := !IsSerialAccess(mode, tasks[fnr].mode);
        }
      }
    }

    lemma Settled(waiting: seq<TaskAccess>)
      requires InRange() && first < firstNotReady && waiting == tasks[first..last]
      ensures
        var n := |Granted()|;
        n == firstNotReady - first <= |waiting| && Granted() == waiting[..n] && Waiting() == waiting[n..]
    {
    }

    /** Grant the next compatible run: the first waiting task and every waiting task that may run with it. */
    method GrantRun() returns (woken: seq<nat>)
      requires InRange() && first == firstNotReady < last
      requires forall i :: first <= i < last ==> !tasks[i].removeState
      modifies this`firstNotReady
      ensures InRange() && Balanced(Granted(), Waiting()) && woken == Handles(Granted())
      ensures Granted() + Waiting() == old(Waiting())
    {
      ghost var waiting := Waiting();
      var fnr := firstNotReady;
      firstNotReady := fnr + 1;
      var firstNewReadyMode := tasks[fnr].mode;
      woken := [tasks[fnr].handle];
      fnr := fnr + 1;
      var parallelExit := false;
      var again := true;
      while again
        invariant first < fnr == firstNotReady <= last
        invariant Shared(waiting, fnr - first) && woken == Handles(waiting[..fnr - first])
        invariant !again ==> fnr == last
        decreases again
      {
        var tempLast := last;
        fnr, parallelExit, woken := GrantWhile(fnr, tempLast, firstNewReadyMode, parallelExit, woken, waiting);
        if !parallelExit {
          break;
        }
        again := tempLast != last;
      }
      GrantStops(waiting, fnr - first);
      Settled(waiting);
    }

    /** Remove a granted task. The result is the handles of the tasks granted by this call, in order: exactly
        those the shorter list lets run and the old list did not. Entries are matched by handle: if the first granted
        entry with this handle is one already marked as removed, left by an earlier frame at the same address, the call
        takes nothing off the list and grants nothing. Read as written, the object stands for the list afterwards if and
        only if the call was not at the head or found no marked entry right behind it. */
    method RemoveTask(handle: nat) returns (woken: seq<nat>)
      requires Valid()
      requires exists i :: 0 <= i < |Granted()| && Granted()[i].handle == handle && !Granted()[i].removeState
      modifies this, tasks
      ensures InRange() && last == old(last)
      ensures Live() == if Finds(old(Granted()), handle) then Without(old(Live()), handle) else old(Live())
      ensures Valid() <==> old(tasks[first].handle != handle || PassesOn())
      ensures Valid() && Finds(old(Granted()), handle) ==>
                Prefix(old(Live())) <= Prefix(Live()) + 1 && woken == NewlyGranted(old(Live()), Live())
      ensures !Valid() || !Finds(old(Granted()), handle) ==> woken == []
    {
      if tasks[first].handle == handle {
        woken := RemoveHead();
      } else {
        RemoveInside(handle);
        woken := [];
      }
    }

    /** The branch of remove_task that does not find its task at first. */
    method RemoveInside(handle: nat)
      requires Valid() && first < firstNotReady && tasks[first].handle != handle
      requires exists i :: 0 <= i < |Granted()| && Granted()[i].handle == handle && !Granted()[i].removeState
      modifies tasks
      ensures Valid()
      ensures Live() == if Finds(old(Granted()), handle) then Without(old(Live()), handle) else old(Live())
      ensures Finds(old(Granted()), handle) ==>
                Prefix(old(Live())) <= Prefix(Live()) + 1 && NewlyGranted(old(Live()), Live()) == []
    {
      ghost var granted, waiting := Granted(), Waiting();
      ghost var i :| 0 <= i < |granted| && granted[i].handle == handle && !granted[i].removeState;
      assert tasks[first + i].handle == handle;
      ghost var k := MarkInside(handle);
      MarkedInside(granted, waiting, handle);
    }

    /** The granted run has been passed: grant the next one, if anything waits. */
    method GrantNext(ghost granted: seq<TaskAccess>) returns (woken: seq<nat>)
      requires InRange() && first == firstNotReady && Balanced(granted, Waiting()) && granted != []
      requires forall i :: 0 < i < |granted| ==> granted[i].removeState
      modifies this`firstNotReady
      ensures InRange() && Balanced(Granted(), Waiting())
      ensures
        var before := LiveOf(granted + old(Waiting()));
        && Live() == Without(before, granted[0].handle)
        && Prefix(before) <= Prefix(Live()) + 1 && woken == NewlyGranted(before, Live())
    {
      ghost var waiting := Waiting();
      woken := [];
      if last != firstNotReady {
        woken := GrantRun();
      } else {
        assert Granted() == [] && waiting == [];
      }
      DrainRemoval(granted, waiting, Granted(), Waiting());
    }

    /** After passing the head and what is marked behind it: grant the next run if that emptied the granted one. */
    method GoOn(ghost granted: seq<TaskAccess>) returns (woken: seq<nat>)
      requires InRange() && |Granted()| < |granted| && Balanced(granted, Waiting())
      requires
        var k := |granted| - |Granted()|;
        && Granted() == granted[k..] && (forall i :: 0 < i < k ==> granted[i].removeState)
        && (k < |granted| ==> !granted[k].removeState)
      modifies this`firstNotReady
      ensures InRange() && Balanced(Granted(), Waiting())
      ensures
        var before := LiveOf(granted + old(Waiting()));
        && Live() == Without(before, granted[0].handle)
        && Prefix(before) <= Prefix(Live()) + 1 && woken == NewlyGranted(before, Live())
    {
      ghost var k := |granted| - |Granted()|;
      if firstNotReady == first {
        woken := GrantNext(granted);
      } else {
        woken := [];
        HeadRemoval(granted, Waiting(), k);
      }
    }

    /** The branch of remove_task that finds its task at first. */
    method RemoveHead() returns (woken: seq<nat>)
      requires Valid() && first < firstNotReady
      modifies this
      ensures InRange() && last == old(last)
      ensures Live() == Without(old(Live()), old(tasks[first].handle))
      ensures Valid() <==> old(PassesOn())
      ensures Valid() ==> Prefix(old(Live())) <= Prefix(Live()) + 1 && woken == NewlyGranted(old(Live()), Live())
      ensures !Valid() ==> woken == []
    {
      ghost var granted, waiting := Granted(), Waiting();
      var goesOn := PassHead();
      woken := [];
      if goesOn {
        woken := GoOn(granted);
      } else {
        MarkedHead(granted, waiting);
      }
    }
  }
}
