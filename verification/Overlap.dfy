/** The run that strands a task of a program that is not orderly. */
module Overlap {
  import opened Access
  import opened NodeInvariant
  import opened NodeMachine
  import opened NodeTheorems
  import opened Ordering
  import opened OrderNeeded
  import opened OrderSuffices
  import opened Options
  import opened Program
  import opened Progress
  import opened SerialEquivalence
  import opened Stranding
  import opened System
  import opened SystemInvariant
  import opened Walkers

  // ----- settled states -----

  lemma SettledDispatcher(prog: Program, s: Sys, holds: seq<Hold>)
    requires SysInv(prog, s) && Settled(prog, s, holds)
    ensures s.task == |prog.tasks|
  {
    assert !CanMove(prog, s, Dispatcher);
  }

  /** In a settled state a task has finished, has not been launched, or is held. */
  lemma SettledTask(prog: Program, s: Sys, holds: seq<Hold>, t: nat)
    requires SysInv(prog, s) && Settled(prog, s, holds) && t < |prog.tasks|
    ensures
      || s.phase[t].Finished?
      || (s.phase[t].Waiting? && s.launches[t] == 0)
      || exists i :: 0 <= i < |holds| && holds[i].t == t && Held(s, holds[i])
  {
    if CanMove(prog, s, Task(t)) {
      var i :| 0 <= i < |holds| && Task(t) == Task(holds[i].t) && Held(s, holds[i]);
    }
  }

  lemma SettledCall(prog: Program, s: Sys, holds: seq<Hold>, pc: RemPc, r: nat, p: nat)
    requires SysInv(prog, s) && Settled(prog, s, holds) && AllBehind(prog, s, holds, pc) && r < |s.nodes|
    requires pc.NotStarted? || forall i :: 0 <= i < |holds| ==> prog.tasks[holds[i].t][holds[i].j].res != r
    requires p < |s.nodes[r].rem|
    ensures s.nodes[r].rem[p].NotStarted? || s.nodes[r].rem[p].Done?
  {
    var t := UserAt(prog, r, p);
    PositionIsPos(prog.tasks, p, r, |prog.tasks|);
    assert PhaseOk(prog, s, t);
    assert RemAt(prog, s, t, AccessAt(prog, r, p));
    SettledTask(prog, s, holds, t);
    if i :| 0 <= i < |holds| && holds[i].t == t && Held(s, holds[i]) {
      assert Behind(prog, s, holds[i], pc);
    }
  }

  lemma SettledIsQuiescent(prog: Program, s: Sys, holds: seq<Hold>, pc: RemPc, r: nat)
    requires SysInv(prog, s) && Settled(prog, s, holds) && AllBehind(prog, s, holds, pc) && r < |s.nodes|
    requires pc.NotStarted? || forall i :: 0 <= i < |holds| ==> prog.tasks[holds[i].t][holds[i].j].res != r
    ensures Quiescent(s.nodes[r]) && s.nodes[r].last == |s.nodes[r].modes|
  {
    SettledDispatcher(prog, s, holds);
    assert AdderAt(prog, s, r);
    forall p | 0 <= p < |s.nodes[r].rem|
      ensures s.nodes[r].rem[p].NotStarted? || s.nodes[r].rem[p].Done?
    {
      SettledCall(prog, s, holds, pc, r, p);
    }
  }

  // ----- who holds back a task that has not been launched -----

  lemma UnlaunchedWaits(prog: Program, s: Sys, t: nat) returns (k: nat)
    requires SysInv(prog, s) && s.task == |prog.tasks| && t < |prog.tasks| && s.launches[t] == 0
    ensures k < |prog.tasks[t]| && !IsNotified(prog, s.nodes, t, k)
  {
    assert CounterOk(prog, s, t);
    NothingPending(prog, s.nodes, t, |prog.tasks[t]|);
    k :| 0 <= k < |prog.tasks[t]| && !IsNotified(prog, s.nodes, t, k);
  }

  /** A quiet healthy queue that has not granted an entry still has somebody outside its run at the head. */
  lemma HealthyHead(n: Node, p: nat)
    requires Inv(n) && Quiescent(n) && Healthy(n) && n.last == |n.modes| && p < |n.modes| && !n.notified[p]
    ensures n.first < p && n.rem[n.first].NotStarted? && !SameRun(n.modes, n.first, p)
  {
    QuiescentNotified(n);
    assert RemOk(n, n.first);
    assert n.first < n.fnr <= p && !Joins(n.modes, n.fnr);
  }

  lemma HealthyBlocker(prog: Program, s: Sys, t: nat, k: nat) returns (v: nat, i: nat)
    requires SysInv(prog, s) && t < |prog.tasks| && k < |prog.tasks[t]| && !IsNotified(prog, s.nodes, t, k)
    requires
      var r := prog.tasks[t][k].res;
      r < |s.nodes| && Quiescent(s.nodes[r]) && Healthy(s.nodes[r]) && s.nodes[r].last == |s.nodes[r].modes|
    ensures Blocks(prog, v, i, t, k) && CallOf(prog, s, Hold(v, i), NotStarted)
  {
    var r := prog.tasks[t][k].res;
    var n := s.nodes[r];
    var p := Pos(prog.tasks, t, r);
    assert Inv(n) && n.modes == Modes(prog, r);
    ModeAtPos(prog, t, k);
    HealthyHead(n, p);
    v, i := UserAt(prog, r, n.first), AccessAt(prog, r, n.first);
    PositionIsPos(prog.tasks, n.first, r, |prog.tasks|);
    EarlierByPosition(prog, r, n.first, t, k);
  }

  lemma EarlierByPosition(prog: Program, r: nat, q: nat, t: nat, k: nat)
    requires Valid(prog) && t < |prog.tasks| && k < |prog.tasks[t]| && prog.tasks[t][k].res == r
    requires q < Pos(prog.tasks, t, r) && q < |Modes(prog, r)|
    ensures UserAt(prog, r, q) < t
  {
    IndexOfAccess(prog.tasks[t], k);
    PosIsPosition(prog.tasks, t, r, |prog.tasks|);
  }

  // ----- the two sharers -----

  /** Tasks hu.t and hp.t are at positions u and p of one run in the queue of r. */
  ghost predicate Sharers(prog: Program, r: nat, u: nat, p: nat, hu: Hold, hp: Hold) {
    && Valid(prog) && r < prog.resources && u < p < |Modes(prog, r)| && SameRun(Modes(prog, r), u, p)
    && hu == Hold(UserAt(prog, r, u), AccessAt(prog, r, u))
    && hp == Hold(UserAt(prog, r, p), AccessAt(prog, r, p))
  }

  lemma SharersPositions(prog: Program, r: nat, u: nat, p: nat, hu: Hold, hp: Hold)
    requires Sharers(prog, r, u, p, hu, hp)
    ensures Pos(prog.tasks, hu.t, r) == u && Pos(prog.tasks, hp.t, r) == p && hu.t < hp.t
  {
    PositionIsPos(prog.tasks, u, r, |prog.tasks|);
    PositionIsPos(prog.tasks, p, r, |prog.tasks|);
  }

  lemma RunPrefix(modes: seq<AccessMode>, u: nat, q: nat, p: nat)
    requires SameRun(modes, u, p) && u <= q <= p
    ensures SameRun(modes, u, q)
  {
  }

  /** The earlier sharer holds nobody up to the later one back on the resource they share. */
  lemma NoBlockWhereShared(prog: Program, r: nat, u: nat, p: nat, hu: Hold, hp: Hold, t: nat, k: nat)
    requires Sharers(prog, r, u, p, hu, hp) && t <= hp.t
    ensures !Blocks(prog, hu.t, hu.j, t, k)
  {
    SharersPositions(prog, r, u, p, hu, hp);
    if hu.t < t && k < |prog.tasks[t]| && prog.tasks[t][k].res == r {
      IndexOfAccess(prog.tasks[t], k);
      PosOrder(prog.tasks, hu.t, t, r);
      if t < hp.t {
        PosOrder(prog.tasks, t, hp.t, r);
      }
      RunPrefix(Modes(prog, r), u, Pos(prog.tasks, t, r), p);
    }
  }

  /** A launched task whose call at its access i has not begun is held at an earlier access, or that is where. */
  lemma HeldBlocker(prog: Program, s: Sys, hu: Hold, hp: Hold, v: nat, i: nat)
    requires SysInv(prog, s) && Settled(prog, s, [hu, hp]) && v < |prog.tasks| && s.launches[v] > 0 && v != hp.t
    requires CallOf(prog, s, Hold(v, i), NotStarted)
    ensures v == hu.t && hu.j <= i
  {
    SettledTask(prog, s, [hu, hp], v);
    assert PhaseOk(prog, s, v) && RemAt(prog, s, v, i);
  }

  ghost predicate AllHealthy(s: Sys) {
    forall r :: 0 <= r < |s.nodes| ==> Healthy(s.nodes[r])
  }

  /** With both sharers held and every queue healthy, a task up to the later sharer that has not been launched can
      start only after the earlier one has left. */
  lemma {:induction false} UnlaunchedStartsAfter(prog: Program, s: Sys, r: nat, u: nat, p: nat, hu: Hold, hp: Hold,
                                                 t: nat)
    requires SysInv(prog, s) && Settled(prog, s, [hu, hp]) && AllBehind(prog, s, [hu, hp], NotStarted)
    requires Sharers(prog, r, u, p, hu, hp) && AllHealthy(s) && t <= hp.t && s.launches[t] == 0
    ensures StartsAfter(prog, hu.t, hu.j, t)
    decreases t
  {
    SettledDispatcher(prog, s, [hu, hp]);
    var k := UnlaunchedWaits(prog, s, t);
    SettledIsQuiescent(prog, s, [hu, hp], NotStarted, prog.tasks[t][k].res);
    var v, i := HealthyBlocker(prog, s, t, k);
    if s.launches[v] == 0 {
      UnlaunchedStartsAfter(prog, s, r, u, p, hu, hp, v);
    } else {
      HeldBlocker(prog, s, hu, hp, v, i);
      NoBlockWhereShared(prog, r, u, p, hu, hp, t, k);
    }
    assert Blocks(prog, v, i, t, k) && ((v == hu.t && hu.j < i) || (v < t && StartsAfter(prog, hu.t, hu.j, v)));
  }

  /** So if the later sharer need not start after the earlier one has left, both get to where they are held. */
  lemma BothGetThere(prog: Program, s: Sys, r: nat, u: nat, p: nat, hu: Hold, hp: Hold)
    requires SysInv(prog, s) && Settled(prog, s, [hu, hp]) && AllBehind(prog, s, [hu, hp], NotStarted)
    requires Sharers(prog, r, u, p, hu, hp) && AllHealthy(s) && !StartsAfter(prog, hu.t, hu.j, hp.t)
    ensures Held(s, hu) && Held(s, hp)
  {
    SharersPositions(prog, r, u, p, hu, hp);
    assert Behind(prog, s, [hu, hp][0], NotStarted) && Behind(prog, s, [hu, hp][1], NotStarted);
    if s.launches[hp.t] == 0 {
      UnlaunchedStartsAfter(prog, s, r, u, p, hu, hp, hp.t);
    }
    if s.launches[hu.t] == 0 {
      UnlaunchedStartsAfter(prog, s, r, u, p, hu, hp, hu.t);
      StartsAfterIsLater(prog, hu.t, hu.j, hu.t);
    }
    SettledTask(prog, s, [hu, hp], hu.t);
    SettledTask(prog, s, [hu, hp], hp.t);
  }

  // ----- the later sharer walks -----

  /** The later sharer looks at first while the earlier one is still in the queue. */
  lemma LaterSharerWalks(prog: Program, s: Sys, r: nat, u: nat, p: nat, hu: Hold, hp: Hold) returns (s': Sys, cur: nat)
    requires SysInv(prog, s) && Sharers(prog, r, u, p, hu, hp) && Held(s, hu) && Held(s, hp)
    requires CallOf(prog, s, hu, NotStarted) && CallOf(prog, s, hp, NotStarted)
    ensures SysInv(prog, s') && Reaches(prog, s, s') && Behind(prog, s', hp, WalkLoad(cur)) && Held(s', hp)
  {
    SharersPositions(prog, r, u, p, hu, hp);
    s' := SysStep(prog, s, Task(hp.t));
    StepReaches(prog, s, Task(hp.t));
    SysStepInv(prog, s, Task(hp.t));
    cur := s.nodes[r].first + 1;
    LaterSharerIsNotHead(prog, s, r, u, p, hu, hp);
    NotHeadWalks(s.nodes[r], p);
    RemovesOnly(prog, s, hp.t);
  }

  /** A task inside remove_task changes the queue by its own step there. */
  lemma RemovesOnly(prog: Program, s: Sys, t: nat)
    requires SysInv(prog, s) && t < |prog.tasks| && s.phase[t].Removing? && s.phase[t].acc < |prog.tasks[t]|
    ensures
      var r := prog.tasks[t][s.phase[t].acc].res;
      var p := Pos(prog.tasks, t, r);
      && r < |s.nodes| && p < |s.nodes[r].modes|
      && TaskStep(prog, s, t).nodes == s.nodes[r := RemStep(s.nodes[r], p)]
      && TaskStep(prog, s, t).phase ==
         (if RemStep(s.nodes[r], p).rem[p] == Done then s.phase[t := Removing(s.phase[t].acc + 1)] else s.phase)
  {
    var r, p := RemoveStep(prog, s, t);
    StepNodeNodes(prog, s, r, Remover(p));
  }

  lemma LaterSharerIsNotHead(prog: Program, s: Sys, r: nat, u: nat, p: nat, hu: Hold, hp: Hold)
    requires SysInv(prog, s) && Sharers(prog, r, u, p, hu, hp) && Held(s, hu) && Held(s, hp)
    requires CallOf(prog, s, hu, NotStarted) && CallOf(prog, s, hp, NotStarted)
    ensures
      && r < |s.nodes| && p < |s.nodes[r].modes| && s.nodes[r].rem[p].NotStarted? && s.nodes[r].notified[p]
      && s.nodes[r].first != p
  {
    SharersPositions(prog, r, u, p, hu, hp);
    var n := s.nodes[r];
    assert Inv(n) && RemOk(n, u) && PhaseOk(prog, s, hp.t);
    LaunchedIsGranted(prog, s, hp.t, hp.j);
  }

  lemma NotHeadWalks(n: Node, p: nat)
    requires Sized(n) && p < |n.modes| && n.rem[p].NotStarted? && n.notified[p] && n.first != p
    ensures RemStep(n, p).rem[p] == WalkLoad(n.first + 1)
  {
  }

  // ----- getting stuck -----

  /** A state in which nobody can move and somebody has not finished. */
  ghost predicate Stuck(prog: Program, s: Sys)
    requires Fits(prog, s)
  {
    NobodyMoves(prog, s) && !AllFinished(prog, s)
  }

  lemma WaitingIsStuck(prog: Program, s: Sys, r: nat)
    requires SysInv(prog, s) && NobodyMoves(prog, s) && r < |s.nodes| && s.nodes[r].fnr < |s.nodes[r].modes|
    ensures Stuck(prog, s)
  {
    if AllFinished(prog, s) {
      FinishedLeavesNothingWaiting(prog, s, r);
      StuckIsQuiescent(prog, s, r);
    }
  }

  lemma SettledIsNobody(prog: Program, s: Sys)
    requires Fits(prog, s) && Settled(prog, s, [])
    ensures NobodyMoves(prog, s)
  {
  }

  /** Once a queue is dead, letting everybody go on ends stuck. */
  lemma DeadGetsStuck(prog: Program, s: Sys, r: nat) returns (s': Sys)
    requires SysInv(prog, s) && r < |s.nodes| && Dead(s.nodes[r])
    ensures SysInv(prog, s') && Reaches(prog, s, s') && Stuck(prog, s')
  {
    s' := RunHolding(prog, s, [], NotStarted);
    var schedule :| Run(prog, s, schedule) == s';
    DeadRun(prog, s, schedule, r);
    DeadWaits(s'.nodes[r]);
    SettledIsNobody(prog, s');
    WaitingIsStuck(prog, s', r);
  }

  /** A settled state with an unhealthy queue in which nobody is held goes on to a stuck one. */
  lemma UnhealthyGetsStuck(prog: Program, s: Sys, r: nat) returns (s': Sys)
    requires SysInv(prog, s) && r < |s.nodes| && Quiescent(s.nodes[r]) && !Healthy(s.nodes[r])
    ensures SysInv(prog, s') && Reaches(prog, s, s') && Stuck(prog, s')
  {
    assert Inv(s.nodes[r]);
    UnhealthyIsDead(s.nodes[r]);
    s' := DeadGetsStuck(prog, s, r);
  }

  lemma MarkIsNeverPassed(n: Node, p: nat)
    requires Inv(n) && Quiescent(n) && n.reading == AsWritten && p < |n.modes| && Walking(n, p)
    requires Critical(AsWritten, n.modes, p)
    ensures n.fnr < |n.modes|
  {
    var z: nat :| p < z < |n.modes| && !Joins(n.modes, z);
    assert StuckBehindMark(n);
    DeadWaits(n);
  }

  /** Read as written: a walker's mark is never passed. */
  lemma WalkerStrandsAsWritten(prog: Program, s: Sys, r: nat, p: nat) returns (s': Sys)
    requires SysInv(prog, s) && ReadingIs(s, AsWritten) && r < |s.nodes| && p < |s.nodes[r].modes|
    requires Walking(s.nodes[r], p) && Critical(AsWritten, Modes(prog, r), p)
    ensures SysInv(prog, s') && Reaches(prog, s, s') && Stuck(prog, s')
  {
    s' := RunHolding(prog, s, [], NotStarted);
    var schedule :| Run(prog, s, schedule) == s';
    WalkingRun(prog, s, schedule, r, p);
    RunReading(prog, s, schedule, AsWritten);
    SettledIsNobody(prog, s');
    StuckIsQuiescent(prog, s', r);
    assert Inv(s'.nodes[r]);
    MarkIsNeverPassed(s'.nodes[r], p);
    WaitingIsStuck(prog, s', r);
  }

  // ----- read as intended: everybody in front leaves, then the walker does -----

  lemma OtherCallSettled(prog: Program, s: Sys, h: Hold, r: nat, x: nat)
    requires SysInv(prog, s) && Settled(prog, s, [h]) && r < |s.nodes| && x < |s.nodes[r].rem|
    requires UserAt(prog, r, x) != h.t
    ensures s.nodes[r].rem[x].NotStarted? || s.nodes[r].rem[x].Done?
  {
    var t := UserAt(prog, r, x);
    PositionIsPos(prog.tasks, x, r, |prog.tasks|);
    assert PhaseOk(prog, s, t);
    assert RemAt(prog, s, t, AccessAt(prog, r, x));
    SettledTask(prog, s, [h], t);
  }

  /** Nobody is in a call of the queue but a remover that walks. */
  ghost predicate OnlyWalks(n: Node, p: nat) {
    && Sized(n) && p < |n.modes| && n.adder == AddIdle && n.rem[p].WalkLoad?
    && forall x :: 0 <= x < |n.rem| && x != p ==> n.rem[x].NotStarted? || n.rem[x].Done?
  }

  lemma OnlyTheWalker(prog: Program, s: Sys, r: nat, p: nat, h: Hold, cur: nat)
    requires SysInv(prog, s) && Settled(prog, s, [h]) && Behind(prog, s, h, WalkLoad(cur))
    requires r < |s.nodes| && p < |Modes(prog, r)| && h == Hold(UserAt(prog, r, p), AccessAt(prog, r, p))
    ensures OnlyWalks(s.nodes[r], p) && s.nodes[r].last == |s.nodes[r].modes|
  {
    SettledDispatcher(prog, s, [h]);
    assert AdderAt(prog, s, r);
    PositionIsPos(prog.tasks, p, r, |prog.tasks|);
    forall x | 0 <= x < |s.nodes[r].rem| && x != p
      ensures s.nodes[r].rem[x].NotStarted? || s.nodes[r].rem[x].Done?
    {
      PositionIsPos(prog.tasks, x, r, |prog.tasks|);
      OtherCallSettled(prog, s, h, r, x);
    }
  }

  lemma NotifiedWhileWalking(n: Node, p: nat, x: nat)
    requires Inv(n) && OnlyWalks(n, p) && x < n.fnr
    ensures n.notified[x]
  {
    assert n.notified[x] || Notifying(n, x);
  }

  /** A task in front of the walker that waits is held back by an unhealthy queue elsewhere. */
  lemma WaitsElsewhere(prog: Program, s: Sys, r: nat, p: nat, h: Hold, cur: nat, t: nat)
    requires SysInv(prog, s) && Settled(prog, s, [h]) && Behind(prog, s, h, WalkLoad(cur))
    requires r < |s.nodes| && p < |Modes(prog, r)| && h == Hold(UserAt(prog, r, p), AccessAt(prog, r, p))
    requires t < h.t && s.launches[t] == 0 && forall u :: 0 <= u < t ==> s.phase[u].Finished?
    ensures exists q :: 0 <= q < |s.nodes| && q != r && !Healthy(s.nodes[q])
  {
    SettledDispatcher(prog, s, [h]);
    var k := UnlaunchedWaits(prog, s, t);
    var q := prog.tasks[t][k].res;
    OnlyTheWalker(prog, s, r, p, h, cur);
    if q == r {
      InFrontOfWalker(prog, s, r, p, h, t, k);
    } else {
      SettledIsQuiescent(prog, s, [h], WalkLoad(cur), q);
      BlockedIsUnhealthy(prog, s, t, k);
    }
  }

  lemma InFrontOfWalker(prog: Program, s: Sys, r: nat, p: nat, h: Hold, t: nat, k: nat)
    requires SysInv(prog, s) && r < |s.nodes| && p < |Modes(prog, r)| && h.t == UserAt(prog, r, p)
    requires OnlyWalks(s.nodes[r], p) && t < h.t && k < |prog.tasks[t]| && prog.tasks[t][k].res == r
    ensures IsNotified(prog, s.nodes, t, k)
  {
    var n := s.nodes[r];
    assert Inv(n) && RemOk(n, p) && n.modes == Modes(prog, r);
    PositionIsPos(prog.tasks, p, r, |prog.tasks|);
    IndexOfAccess(prog.tasks[t], k);
    PosOrder(prog.tasks, t, h.t, r);
    NotifiedWhileWalking(n, p, Pos(prog.tasks, t, r));
  }

  lemma {:induction false} EarlierFinish(prog: Program, s: Sys, r: nat, p: nat, h: Hold, cur: nat, t: nat)
    requires SysInv(prog, s) && Settled(prog, s, [h]) && Behind(prog, s, h, WalkLoad(cur))
    requires r < |s.nodes| && p < |Modes(prog, r)| && h == Hold(UserAt(prog, r, p), AccessAt(prog, r, p))
    requires forall q :: 0 <= q < |s.nodes| && q != r ==> Healthy(s.nodes[q])
    requires t < h.t
    ensures s.phase[t].Finished?
    decreases t
  {
    forall u | 0 <= u < t
      ensures s.phase[u].Finished?
    {
      EarlierFinish(prog, s, r, p, h, cur, u);
    }
    SettledTask(prog, s, [h], t);
    if s.launches[t] == 0 {
      WaitsElsewhere(prog, s, r, p, h, cur, t);
    }
  }

  /** Read as intended, an entry at first whose call has ended is about to be passed by somebody. */
  lemma LeftHeadHasOwner(n: Node)
    requires Inv(n) && n.reading == Intended && n.first < n.fnr && n.rem[n.first].Done?
    ensures exists x: nat :: ChainHolds(n, x)
  {
    assert RemOk(n, n.first) && MarkOwned(n);
    assert ChainHolds(n, n.cleared[n.first - 1].who);
  }

  /** The walker alone in its queue with everybody in front of it gone is at first. */
  lemma WalkerAtFirst(n: Node, p: nat)
    requires Inv(n) && n.reading == Intended && OnlyWalks(n, p)
    requires forall x :: 0 <= x < p ==> n.rem[x].Done?
    ensures n.first == p
  {
    assert RemOk(n, p);
    if n.first < p {
      LeftHeadHasOwner(n);
    }
  }

  lemma WalkerIsDoomed(n: Node, p: nat)
    requires Inv(n) && n.reading == Intended && OnlyWalks(n, p) && n.last == |n.modes|
    requires Critical(Intended, n.modes, p) && forall x :: 0 <= x < p ==> n.rem[x].Done?
    ensures Doomed(n, p)
  {
    WalkerAtFirst(n, p);
    assert RemOk(n, p) && n.fnr == p + 1;
    forall x | p < x < |n.modes|
      ensures n.rem[x].NotStarted? && !n.notified[x]
    {
      assert n.notified[x] ==> x < n.fnr;
    }
  }

  lemma EarlierHaveLeft(prog: Program, s: Sys, r: nat, p: nat, h: Hold, cur: nat, x: nat)
    requires SysInv(prog, s) && Settled(prog, s, [h]) && Behind(prog, s, h, WalkLoad(cur))
    requires r < |s.nodes| && p < |Modes(prog, r)| && h == Hold(UserAt(prog, r, p), AccessAt(prog, r, p))
    requires forall q :: 0 <= q < |s.nodes| && q != r ==> Healthy(s.nodes[q])
    requires x < p
    ensures s.nodes[r].rem[x].Done?
  {
    var t := UserAt(prog, r, x);
    PositionIsPos(prog.tasks, x, r, |prog.tasks|);
    EarlierFinish(prog, s, r, p, h, cur, t);
    assert PhaseOk(prog, s, t) && RemAt(prog, s, t, AccessAt(prog, r, x));
  }

  lemma WalkerBecomesDoomed(prog: Program, s: Sys, r: nat, p: nat, h: Hold, cur: nat)
    requires SysInv(prog, s) && Settled(prog, s, [h]) && Behind(prog, s, h, WalkLoad(cur)) && ReadingIs(s, Intended)
    requires r < |s.nodes| && p < |Modes(prog, r)| && h == Hold(UserAt(prog, r, p), AccessAt(prog, r, p))
    requires forall q :: 0 <= q < |s.nodes| && q != r ==> Healthy(s.nodes[q])
    requires Critical(Intended, Modes(prog, r), p)
    ensures Doomed(s.nodes[r], p)
  {
    OnlyTheWalker(prog, s, r, p, h, cur);
    forall x | 0 <= x < p
      ensures s.nodes[r].rem[x].Done?
    {
      EarlierHaveLeft(prog, s, r, p, h, cur, x);
    }
    assert Inv(s.nodes[r]);
    WalkerIsDoomed(s.nodes[r], p);
  }

  lemma DoomedGetsStuck(prog: Program, s: Sys, r: nat, p: nat) returns (s': Sys)
    requires SysInv(prog, s) && r < |s.nodes| && Doomed(s.nodes[r], p)
    ensures SysInv(prog, s') && Reaches(prog, s, s') && Stuck(prog, s')
  {
    s' := RunHolding(prog, s, [], NotStarted);
    var schedule :| Run(prog, s, schedule) == s';
    DoomedRun(prog, s, schedule, r, p);
    SettledIsNobody(prog, s');
    WaitingIsStuck(prog, s', r);
  }

  /** Everybody but the held walker runs on. */
  lemma RunHoldingWalker(prog: Program, s: Sys, h: Hold, cur: nat) returns (m: Sys)
    requires SysInv(prog, s) && Behind(prog, s, h, WalkLoad(cur)) && ReadingIs(s, Intended)
    ensures SysInv(prog, m) && Reaches(prog, s, m) && Settled(prog, m, [h]) && AllBehind(prog, m, [h], WalkLoad(cur))
    ensures Behind(prog, m, h, WalkLoad(cur)) && ReadingIs(m, Intended)
  {
    m := RunHolding(prog, s, [h], WalkLoad(cur));
    var schedule :| Run(prog, s, schedule) == m;
    RunReading(prog, s, schedule, Intended);
    assert Behind(prog, m, [h][0], WalkLoad(cur));
  }

  /** Read as intended: hold the walker, let everybody else go on, then let it go on too. */
  lemma WalkerStrandsIntended(prog: Program, s: Sys, r: nat, p: nat, h: Hold, cur: nat) returns (s': Sys)
    requires SysInv(prog, s) && Behind(prog, s, h, WalkLoad(cur)) && ReadingIs(s, Intended)
    requires r < |s.nodes| && p < |Modes(prog, r)| && h == Hold(UserAt(prog, r, p), AccessAt(prog, r, p))
    requires Critical(Intended, Modes(prog, r), p)
    ensures SysInv(prog, s') && Reaches(prog, s, s') && Stuck(prog, s')
  {
    var m := RunHoldingWalker(prog, s, h, cur);
    if q :| 0 <= q < |m.nodes| && q != r && !Healthy(m.nodes[q]) {
      SettledIsQuiescent(prog, m, [h], WalkLoad(cur), q);
      s' := UnhealthyGetsStuck(prog, m, q);
    } else {
      WalkerBecomesDoomed(prog, m, r, p, h, cur);
      s' := DoomedGetsStuck(prog, m, r, p);
    }
    ReachesTransitively(prog, s, m, s');
  }

  // ----- the whole run -----

  /** From the start, if the later sharer need not start after the earlier one has left, some run gets stuck. */
  lemma OverlapGetsStuck(prog: Program, s: Sys, reading: CasReading, r: nat, u: nat, p: nat) returns (s': Sys)
    requires SysInv(prog, s) && ReadingIs(s, reading) && r < prog.resources && u < p < |Modes(prog, r)|
    requires forall t :: 0 <= t < |prog.tasks| ==> s.phase[t].Waiting?
    requires SameRun(Modes(prog, r), u, p) && Critical(reading, Modes(prog, r), p)
    requires !StartsAfter(prog, UserAt(prog, r, u), AccessAt(prog, r, u), UserAt(prog, r, p))
    ensures SysInv(prog, s') && Reaches(prog, s, s') && Stuck(prog, s')
  {
    var hu, hp := Hold(UserAt(prog, r, u), AccessAt(prog, r, u)), Hold(UserAt(prog, r, p), AccessAt(prog, r, p));
    AllWaiting(prog, s, hu);
    AllWaiting(prog, s, hp);
    var m := RunHolding(prog, s, [hu, hp], NotStarted);
    assert Behind(prog, m, [hu, hp][0], NotStarted) && Behind(prog, m, [hu, hp][1], NotStarted);
    if q :| 0 <= q < |m.nodes| && !Healthy(m.nodes[q]) {
      SettledIsQuiescent(prog, m, [hu, hp], NotStarted, q);
      s' := UnhealthyGetsStuck(prog, m, q);
    } else {
      BothGetThere(prog, m, r, u, p, hu, hp);
      s' := SharersGetStuck(prog, s, m, reading, r, u, p, hu, hp);
    }
    ReachesTransitively(prog, s, m, s');
  }

  lemma AllWaiting(prog: Program, s: Sys, h: Hold)
    requires SysInv(prog, s) && h.t < |prog.tasks| && h.j < |prog.tasks[h.t]| && s.phase[h.t].Waiting?
    ensures Behind(prog, s, h, NotStarted)
  {
    assert PhaseOk(prog, s, h.t) && RemAt(prog, s, h.t, h.j);
  }

  lemma SharersGetStuck(prog: Program, s0: Sys, s: Sys, reading: CasReading, r: nat, u: nat, p: nat, hu: Hold, hp: Hold)
    returns (s': Sys)
    requires SysInv(prog, s0) && ReadingIs(s0, reading) && Reaches(prog, s0, s)
    requires SysInv(prog, s) && Sharers(prog, r, u, p, hu, hp) && Held(s, hu) && Held(s, hp)
    requires CallOf(prog, s, hu, NotStarted) && CallOf(prog, s, hp, NotStarted)
    requires Critical(reading, Modes(prog, r), p)
    ensures SysInv(prog, s') && Reaches(prog, s, s') && Stuck(prog, s')
  {
    var m, cur := LaterSharerWalks(prog, s, r, u, p, hu, hp);
    SharersPositions(prog, r, u, p, hu, hp);
    ReachesTransitively(prog, s0, s, m);
    var schedule :| Run(prog, s0, schedule) == m;
    RunReading(prog, s0, schedule, reading);
    if reading == Intended {
      s' := WalkerStrandsIntended(prog, m, r, p, hp, cur);
    } else {
      s' := WalkerStrandsAsWritten(prog, m, r, p);
    }
    ReachesTransitively(prog, s, m, s');
  }
}
