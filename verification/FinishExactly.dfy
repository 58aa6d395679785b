/** Exactly which programs always finish. */
module FinishExactly {
  import opened Access
  import opened NodeInvariant
  import opened NodeMachine
  import opened NodeTheorems
  import opened Ordering
  import opened OrderNeeded
  import opened OrderSuffices
  import opened Overlap
  import opened Program
  import opened Progress
  import opened SerialEquivalence
  import opened System
  import opened SystemInvariant
  import opened Walkers

  /** Every run in which nobody can move any more has finished every task. */
  ghost predicate AlwaysFinishes(prog: Program, reading: CasReading, capacity: nat)
    requires Valid(prog) && |prog.tasks| < capacity
  {
    forall schedule: seq<Agent> ::
      NobodyMoves(prog, Run(prog, Start(prog, reading, capacity), schedule)) ==>
        AllFinished(prog, Run(prog, Start(prog, reading, capacity), schedule))
  }

  lemma Disorder(prog: Program, reading: CasReading) returns (r: nat, u: nat, p: nat)
    requires !Orderly(reading, prog)
    ensures SharesCritically(reading, prog, r, u, p)
    ensures !StartsAfter(prog, UserAt(prog, r, u), AccessAt(prog, r, u), UserAt(prog, r, p))
  {
    r, u, p :| SharesCritically(reading, prog, r, u, p) &&
               !StartsAfter(prog, UserAt(prog, r, u), AccessAt(prog, r, u), UserAt(prog, r, p));
  }

  /** A run that gets stuck, for a program that is not orderly. */
  lemma DisorderStrands(prog: Program, reading: CasReading, capacity: nat) returns (schedule: seq<Agent>)
    requires Valid(prog) && |prog.tasks| < capacity && !Orderly(reading, prog)
    ensures Stuck(prog, Run(prog, Start(prog, reading, capacity), schedule))
  {
    var s0 := Start(prog, reading, capacity);
    StartInv(prog, reading, capacity);
    StartQueues(prog, reading, capacity);
    var r, u, p := Disorder(prog, reading);
    var s := OverlapGetsStuck(prog, s0, reading, r, u, p);
    schedule :| Run(prog, s0, schedule) == s;
  }

  /** The exact condition on a program, under either reading of the CAS on first: every run that can go no further has
      finished every task if and only if, on every resource, a task at a critical position can start only after every
      earlier task of its run of compatible registrations has left that resource. */
  lemma FinishesExactlyWhenOrderly(prog: Program, reading: CasReading, capacity: nat)
    requires Valid(prog) && |prog.tasks| < capacity
    ensures AlwaysFinishes(prog, reading, capacity) <==> Orderly(reading, prog)
  {
    if Orderly(reading, prog) {
      forall schedule: seq<Agent>
        ensures NobodyMoves(prog, Run(prog, Start(prog, reading, capacity), schedule)) ==>
                  AllFinished(prog, Run(prog, Start(prog, reading, capacity), schedule))
      {
        OrderlyFinishes(prog, reading, capacity, schedule);
      }
    } else {
      var schedule := DisorderStrands(prog, reading, capacity);
    }
  }

  /** For tasks that use one resource each: if and only if, on every resource, once two neighbouring registrations may
      share, all later ones may share too. */
  lemma OneResourceFinishesExactly(prog: Program, reading: CasReading, capacity: nat)
    requires Valid(prog) && |prog.tasks| < capacity && OneResourceEach(prog)
    ensures AlwaysFinishes(prog, reading, capacity) <==> AllShareToTheEnd(prog)
  {
    FinishesExactlyWhenOrderly(prog, reading, capacity);
    OneResourceOrder(reading, prog);
  }

  /** In an orderly program, under either reading, every run makes at most Measure moves, and whenever nobody can move,
      all tasks have finished and the memory is that of the serial run. */
  lemma EveryMaximalRunFinishes(prog: Program, reading: CasReading, capacity: nat, schedule: seq<Agent>)
    requires Valid(prog) && ReadsAndWrites(prog) && |prog.tasks| < capacity && Orderly(reading, prog)
    ensures Moves(prog, Start(prog, reading, capacity), schedule) <= Measure(prog, Start(prog, reading, capacity))
    ensures
      var s := Run(prog, Start(prog, reading, capacity), schedule);
      NobodyMoves(prog, s) ==> AllFinished(prog, s) && s.mem == SerialMem(prog, |prog.tasks|)
  {
    var s0 := Start(prog, reading, capacity);
    StartInv(prog, reading, capacity);
    RunInv(prog, s0, schedule);
    MovesAreBounded(prog, s0, schedule);
    ParallelIsSerial(prog, reading, capacity, schedule);
    OrderlyFinishes(prog, reading, capacity, schedule);
  }

  /** A wake-up was lost in this queue, in the way its reading allows. */
  predicate Lost(n: Node)
    requires n.first <= |n.modes| < |n.removed|
  {
    n.fnr < n.last && match n.reading
                      case Intended => 0 < n.fnr <= n.first <= |n.cleared| && n.cleared[n.fnr - 1].walker
                      case AsWritten => n.removed[n.first]
  }

  lemma LostIsUnhealthy(n: Node)
    requires Inv(n) && History(n) && Quiescent(n)
    ensures Healthy(n) <==> !Lost(n)
  {
    if n.fnr < n.last {
      if n.reading == Intended {
        LostExactlyByWalker(n);
      } else {
        LostExactlyBehindMark(n);
      }
    }
  }

  /** A run in which nobody can move has finished every task if and only if no queue lost a wake-up: read as intended,
      was drained by a walker; read as written, has a marked entry at first. */
  lemma FinishedExactlyUnlessLost(prog: Program, reading: CasReading, capacity: nat, schedule: seq<Agent>)
    requires Valid(prog) && |prog.tasks| < capacity
    ensures
      var s := Run(prog, Start(prog, reading, capacity), schedule);
      && SysInv(prog, s)
      && (NobodyMoves(prog, s) ==> (AllFinished(prog, s) <==> forall r :: 0 <= r < |s.nodes| ==> !Lost(s.nodes[r])))
  {
    var s0 := Start(prog, reading, capacity);
    var s := Run(prog, s0, schedule);
    StartInv(prog, reading, capacity);
    StartHistories(prog, reading, capacity);
    RunInv(prog, s0, schedule);
    HistoriesRun(prog, s0, schedule);
    if NobodyMoves(prog, s) {
      LostOrFinished(prog, s);
    }
  }

  lemma LostOrFinished(prog: Program, s: Sys)
    requires SysInv(prog, s) && HistoriesOk(s) && NobodyMoves(prog, s)
    ensures AllFinished(prog, s) <==> forall r :: 0 <= r < |s.nodes| ==> !Lost(s.nodes[r])
  {
    forall r | 0 <= r < |s.nodes|
      ensures Healthy(s.nodes[r]) <==> !Lost(s.nodes[r])
    {
      StuckIsQuiescent(prog, s, r);
      assert Inv(s.nodes[r]);
      LostIsUnhealthy(s.nodes[r]);
    }
    if AllFinished(prog, s) {
      forall r | 0 <= r < |s.nodes|
        ensures s.nodes[r].fnr == s.nodes[r].last
      {
        FinishedLeavesNothingWaiting(prog, s, r);
      }
    } else {
      SomebodyHasNotFinished(prog, s);
    }
  }

  lemma SomebodyHasNotFinished(prog: Program, s: Sys)
    requires SysInv(prog, s) && NobodyMoves(prog, s) && !AllFinished(prog, s)
    ensures exists r :: 0 <= r < |s.nodes| && !Healthy(s.nodes[r])
  {
    assert !CanMove(prog, s, Dispatcher);
    var t :| 0 <= t < |prog.tasks| && !s.phase[t].Finished?;
    var r := StuckIsUnhealthy(prog, s, t);
  }

  // ----- two programs -----

  /** Two readers and a writer of one resource. */
  function TwoReadersAndAWriter(body: (nat, seq<int>, nat) -> int): Program {
    Program([[Acc(0, Read)], [Acc(0, Read)], [Acc(0, Write)]], {}, 1, [0], body)
  }

  lemma TwoReadersAndAWriterQueue(body: (nat, seq<int>, nat) -> int)
    ensures var prog := TwoReadersAndAWriter(body);
            Valid(prog) && Modes(prog, 0) == [Read, Read, Write]
  {
    var tasks := TwoReadersAndAWriter(body).tasks;
    assert Users(tasks, 0, 1) == [0];
    assert Users(tasks, 0, 2) == [0, 1];
    assert Users(tasks, 0, 3) == [0, 1, 2];
  }

  /** It has a run after which nobody can move and the writer has not finished, under either reading. */
  lemma TwoReadersStrandAWriterForGood(reading: CasReading, body: (nat, seq<int>, nat) -> int)
    returns (schedule: seq<Agent>)
    ensures
      var prog := TwoReadersAndAWriter(body);
      Valid(prog) && Stuck(prog, Run(prog, Start(prog, reading, 4), schedule))
  {
    var prog := TwoReadersAndAWriter(body);
    TwoReadersAndAWriterQueue(body);
    OneResourceOrder(reading, prog);
    assert Joins(Modes(prog, 0), 1) && !Joins(Modes(prog, 0), 2);
    schedule := DisorderStrands(prog, reading, 4);
  }

  /** Two readers of resource 0 that leave resource 1, which both write, last: the second can start only when the first
      is gone from both. A writer follows. */
  function ReadersInTurn(body: (nat, seq<int>, nat) -> int): Program {
    Program([[Acc(0, Read), Acc(1, Write)], [Acc(0, Read), Acc(1, Write)], [Acc(0, Write)]], {}, 2, [0, 0], body)
  }

  lemma ReadersInTurnUsers(body: (nat, seq<int>, nat) -> int)
    ensures var tasks := ReadersInTurn(body).tasks;
            Users(tasks, 0, 3) == [0, 1, 2] && Users(tasks, 1, 3) == [0, 1]
    ensures var tasks := ReadersInTurn(body).tasks;
            Pos(tasks, 0, 1) == 0 && Pos(tasks, 1, 1) == 1 && Index(tasks[0], 1) == 1 && Index(tasks[1], 1) == 1
  {
    var tasks := ReadersInTurn(body).tasks;
    assert Users(tasks, 0, 1) == [0] && Users(tasks, 1, 1) == [0];
    assert Users(tasks, 0, 2) == [0, 1] && Users(tasks, 1, 2) == [0, 1];
  }

  lemma ReadersInTurnQueues(body: (nat, seq<int>, nat) -> int)
    ensures var prog := ReadersInTurn(body);
            Valid(prog) && Modes(prog, 0) == [Read, Read, Write] && Modes(prog, 1) == [Write, Write]
  {
    ReadersInTurnUsers(body);
  }

  /** Sharing to the end is not needed when tasks use several resources: this program always finishes. */
  lemma ReadersInTurnAlwaysFinish(reading: CasReading, body: (nat, seq<int>, nat) -> int)
    ensures
      var prog := ReadersInTurn(body);
      Valid(prog) && !AllShareToTheEnd(prog) && AlwaysFinishes(prog, reading, 4)
  {
    var prog := ReadersInTurn(body);
    ReadersInTurnQueues(body);
    ReadersInTurnUsers(body);
    assert !SharesToTheEnd(Modes(prog, 0)) by {
      assert Joins(Modes(prog, 0), 1) && !Joins(Modes(prog, 0), 2);
    }
    assert !SameRun(Modes(prog, 1), 0, 1) by {
      assert !Joins(Modes(prog, 1), 1);
    }
    assert Blocks(prog, 0, 1, 1, 1);
    assert StartsAfter(prog, 0, 0, 1);
    forall r: nat, u: nat, p: nat | SharesCritically(reading, prog, r, u, p)
      ensures StartsAfter(prog, UserAt(prog, r, u), AccessAt(prog, r, u), UserAt(prog, r, p))
    {
      assert Joins(Modes(prog, r), p);
      assert r == 0 && p == 1 && u == 0;
    }
    FinishesExactlyWhenOrderly(prog, reading, 4);
  }
}
