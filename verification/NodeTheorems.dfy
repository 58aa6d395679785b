/** What the resource queue promises, over every interleaving. */
module NodeTheorems {
  import opened Access
  import opened NodeMachine
  import opened NodeInvariant

  /** All runs of the queue on a list of registrations, with an array longer than the list. */
  ghost predicate Reachable(reading: CasReading, modes: seq<AccessMode>, s: Node) {
    exists capacity: nat, schedule: seq<Thread> ::
      |modes| < capacity && s == Exec(Init(reading, modes, capacity), schedule)
  }

  lemma ReachableInv(reading: CasReading, modes: seq<AccessMode>, s: Node)
    requires Reachable(reading, modes, s)
    ensures Inv(s) && s.modes == modes && s.reading == reading
  {
    var capacity: nat, schedule: seq<Thread> :|
      |modes| < capacity && s == Exec(Init(reading, modes, capacity), schedule);
    InitInv(reading, modes, capacity);
    ExecInv(Init(reading, modes, capacity), schedule);
  }

  // ----- grant safety -----

  /** Task p has been granted and has not begun to leave the queue. */
  ghost predicate Running(s: Node, p: nat) {
    p < |s.modes| && p < s.fnr && p < |s.rem| && s.rem[p].NotStarted?
  }

  /** The array entry the next step of add_task touches. */
  function AddReaches(s: Node): nat {
    match s.adder
    case AddIdle => s.last
    case AddStored(p) => p
    case AddPublished(p) => p
    case AddCheckFirst(p) => p
    case AddCas(p) => p
    case AddNotify(p) => p
  }

  /** The array entry the next step of remover p touches, or 0. */
  function RemReaches(s: Node, p: nat): nat
    requires p < |s.rem|
  {
    match s.rem[p]
    case NotStarted => s.first
    case Walk(cur, seen) => if cur != seen then cur else 0
    case Check(cur, _) => cur
    case Wake(pos) => pos
    case LoopLast(_, pos, _) => if pos != s.last then pos else 0
    case WakeNext(_, pos, seenLast) => if pos + 1 != seenLast then pos + 1 else pos
    case _ => 0
  }

  /** Grant safety: the indices are ordered, the window is pairwise compatible, granted tasks that have not
      left lie in it, and every array access of the next step is inside the array. */
  lemma GrantSafety(reading: CasReading, modes: seq<AccessMode>, s: Node)
    requires Reachable(reading, modes, s)
    ensures s.first <= s.fnr <= s.last <= |modes| < |s.removed|
    ensures forall i, j :: s.first <= i < j < s.fnr ==> !IsSerialAccess(modes[i], modes[j])
    ensures forall p: nat :: Running(s, p) ==> s.first <= p < s.fnr
    ensures forall p: nat, q: nat :: Running(s, p) && Running(s, q) && p != q ==> !IsSerialAccess(modes[p], modes[q])
    ensures AddReaches(s) < |s.removed| && forall p :: 0 <= p < |modes| ==> RemReaches(s, p) < |s.removed|
  {
    ReachableInv(reading, modes, s);
    forall p | 0 <= p < |modes| ensures RemReaches(s, p) < |s.removed| {
      assert RemOk(s, p);
    }
    forall i, j | s.first <= i < j < s.fnr ensures !IsSerialAccess(modes[i], modes[j]) {
      RunIsPairwiseParallel(modes, s.first, s.fnr, i, j);
    }
    forall p: nat | Running(s, p) ensures s.first <= p < s.fnr {
      assert RemOk(s, p);
    }
    forall p: nat, q: nat | Running(s, p) && Running(s, q) && p != q ensures !IsSerialAccess(modes[p], modes[q]) {
      ParallelIsSameSharedMode(modes[p], modes[q]);
    }
  }

  /** A running task runs alone against everything it conflicts with: every earlier conflicting registration
      has already been passed by first, and no later conflicting registration has been granted. */
  lemma ConflictsAreOrdered(s: Node, p: nat, q: nat)
    requires Inv(s) && Running(s, p) && q < |s.modes| && q != p && IsSerialAccess(s.modes[p], s.modes[q])
    ensures q < p ==> q < s.first
    ensures p < q ==> s.fnr <= q
  {
    assert RemOk(s, p);
    if q < p && s.first <= q {
      RunIsPairwiseParallel(s.modes, s.first, s.fnr, q, p);
      ParallelIsSameSharedMode(s.modes[p], s.modes[q]);
    }
    if p < q && q < s.fnr {
      RunIsPairwiseParallel(s.modes, s.first, s.fnr, p, q);
    }
  }

  /** A barrier registers with Write: it is granted only when every task registered before it has removed itself. */
  lemma BarrierWaitsForEarlierTasks(reading: CasReading, modes: seq<AccessMode>, s: Node, p: nat, q: nat)
    requires Reachable(reading, modes, s) && q < p && Running(s, p) && modes[p] == Write
    ensures s.rem[q] != NotStarted && q < s.first
  {
    ReachableInv(reading, modes, s);
    ConflictsAreOrdered(s, p, q);
    assert RemOk(s, q);
  }

  // ----- lost wake-up -----

  /** No call is in flight. */
  ghost predicate Quiescent(s: Node) {
    s.adder == AddIdle && forall p :: 0 <= p < |s.rem| ==> s.rem[p].NotStarted? || s.rem[p].Done?
  }

  /** If a task waits, then some granted task is still in front of it, the one at first has not been
      removed, and the waiting task conflicts with the last granted one. */
  ghost predicate Healthy(s: Node) {
    s.fnr < s.last ==>
      && s.first < s.fnr < |s.modes|
      && (s.first < |s.removed| ==> !s.removed[s.first])
      && IsSerialAccess(s.modes[s.fnr], s.modes[s.fnr - 1])
  }

  /** With no call in flight, on every list of registrations: the first registration is granted, and so is every one
      that may run with a granted predecessor. */
  lemma CompatibleIsGranted(reading: CasReading, modes: seq<AccessMode>, s: Node, p: nat)
    requires Reachable(reading, modes, s) && Quiescent(s) && p < s.last
    ensures s.last <= |modes|
    ensures p == 0 ==> p < s.fnr
    ensures 0 < p <= s.fnr && !IsSerialAccess(modes[p], modes[p - 1]) ==> p < s.fnr
  {
    ReachableInv(reading, modes, s);
    assert RunOwned(s) && DrainedOwned(s);
  }

  /** The last granted position was left behind by a remover that walked to its entry and then won the CAS on first. */
  ghost predicate DrainedByWalker(s: Node) {
    0 < s.fnr <= s.first <= |s.cleared| && s.cleared[s.fnr - 1].walker
  }

  /** With no call in flight, everything granted has been notified. */
  lemma QuiescentNotified(s: Node)
    requires Inv(s) && Quiescent(s)
    ensures forall p :: 0 <= p < s.fnr ==> s.notified[p]
  {
    forall p | 0 <= p < s.fnr ensures s.notified[p] {
      assert s.notified[p] || Notifying(s, p);
    }
  }

  /** Read as intended, a wake-up is lost exactly when a walker drains the granted run: with no call in
      flight and a task waiting, the queue is healthy if and only if no walker passed the last granted position. */
  lemma LostExactlyByWalker(s: Node)
    requires Inv(s) && s.reading == Intended && Quiescent(s) && s.fnr < s.last
    ensures Healthy(s) <==> !DrainedByWalker(s)
    ensures DrainedByWalker(s) <==> s.first == s.fnr
  {
    assert MarkOwned(s) && RunOwned(s) && DrainedOwned(s);
  }

  /** Whatever the reading, a quiescent node that is not healthy has at its end a pair that joined, followed
      by a registration that does not join. */
  lemma UnhealthyShowsTriple(s: Node)
    requires Inv(s) && Quiescent(s) && !Healthy(s)
    ensures 0 < s.fnr && Joins(s.modes, s.fnr - 1) && s.fnr < |s.modes| && !Joins(s.modes, s.fnr)
  {
    assert RunOwned(s) && DrainedOwned(s);
    if s.first < s.fnr {
      assert s.removed[s.first];
      assert Joins(s.modes, s.first);
      assert s.first < s.fnr - 1 ==> Joins(s.modes, s.fnr - 1);
    }
  }

  /** Once two neighbours may share, everything after them may share too. */
  ghost predicate SharesToTheEnd(modes: seq<AccessMode>) {
    forall i :: 0 < i && i + 1 < |modes| && !IsSerialAccess(modes[i], modes[i - 1]) ==>
      !IsSerialAccess(modes[i + 1], modes[i])
  }

  /** Otherwise some pair that may share is followed by a registration that may not. */
  lemma TripleOf(modes: seq<AccessMode>) returns (i: nat)
    requires !SharesToTheEnd(modes)
    ensures 0 < i && i + 1 < |modes| && Joins(modes, i) && !Joins(modes, i + 1)
  {
    i :| 0 < i && i + 1 < |modes| && !IsSerialAccess(modes[i], modes[i - 1]) && IsSerialAccess(modes[i + 1], modes[i]);
  }

  /** If the registrations share to the end, no interleaving loses a wake-up, under either reading. */
  lemma SharingNeverLoses(reading: CasReading, modes: seq<AccessMode>, s: Node)
    requires SharesToTheEnd(modes) && Reachable(reading, modes, s) && Quiescent(s)
    ensures Healthy(s)
  {
    ReachableInv(reading, modes, s);
    if !Healthy(s) {
      UnhealthyShowsTriple(s);
    }
  }

  // ----- the schedule that loses a wake-up -----

  /** s' is some number of steps after s. */
  ghost predicate Leads(s: Node, s': Node)
    requires Sized(s)
  {
    exists schedule: seq<Thread> :: Exec(s, schedule) == s'
  }

  lemma {:induction false} ExecAppends(s: Node, a: seq<Thread>, b: seq<Thread>)
    requires Sized(s)
    ensures Exec(s, a + b) == Exec(Exec(s, a), b)
    decreases |a|
  {
    if a == [] {
      assert a + b == b;
    } else {
      assert (a + b)[0] == a[0] && (a + b)[1..] == a[1..] + b;
      ExecAppends(Step(s, a[0]), a[1..], b);
    }
  }

  lemma LeadsTransitively(s: Node, m: Node, s': Node)
    requires Sized(s) && Sized(m) && Leads(s, m) && Leads(m, s')
    ensures Leads(s, s')
  {
    var a :| Exec(s, a) == m;
    var b :| Exec(m, b) == s';
    ExecAppends(s, a, b);
  }

  lemma StepLeads(s: Node, th: Thread)
    requires Sized(s)
    ensures Leads(s, Step(s, th))
  {
    assert Exec(Step(s, th), [th][1..]) == Step(s, th);
    assert Exec(s, [th]) == Step(s, th);
  }

  /** Let th take n steps. */
  function Solo(s: Node, th: Thread, n: nat): (s': Node)
    requires Sized(s)
    ensures Sized(s') && s'.modes == s.modes && s'.reading == s.reading
    decreases n
  {
    if n == 0 then s else Solo(Step(s, th), th, n - 1)
  }

  lemma {:induction false} SoloLeads(s: Node, th: Thread, n: nat)
    requires Sized(s)
    ensures Leads(s, Solo(s, th, n))
    decreases n
  {
    if n == 0 {
      assert Exec(s, []) == s;
    } else {
      StepLeads(s, th);
      SoloLeads(Step(s, th), th, n - 1);
      LeadsTransitively(s, Step(s, th), Solo(s, th, n));
    }
  }

  // ----- calls that do not overlap -----

  /** No thread but th is inside a call. */
  predicate OthersIdle(s: Node, th: Thread) {
    && (th != Adder ==> s.adder == AddIdle)
    && forall x :: 0 <= x < |s.rem| && th != Remover(x) ==> s.rem[x].NotStarted? || s.rem[x].Done?
  }

  /** A schedule in which no two calls overlap. */
  predicate InTurn(s: Node, schedule: seq<Thread>)
    requires Sized(s)
    decreases |schedule|
  {
    schedule == [] || (OthersIdle(s, schedule[0]) && InTurn(Step(s, schedule[0]), schedule[1..]))
  }

  ghost predicate LeadsInTurn(s: Node, s': Node)
    requires Sized(s)
  {
    exists schedule: seq<Thread> :: InTurn(s, schedule) && Exec(s, schedule) == s'
  }

  lemma InTurnLeads(s: Node, s': Node)
    requires Sized(s) && LeadsInTurn(s, s')
    ensures Leads(s, s')
  {
    var schedule :| InTurn(s, schedule) && Exec(s, schedule) == s';
  }

  lemma StaysInTurn(s: Node)
    requires Sized(s)
    ensures LeadsInTurn(s, s)
  {
    assert InTurn(s, []) && Exec(s, []) == s;
  }

  lemma {:induction false} InTurnAppends(s: Node, a: seq<Thread>, b: seq<Thread>)
    requires Sized(s) && InTurn(s, a) && InTurn(Exec(s, a), b)
    ensures InTurn(s, a + b)
    decreases |a|
  {
    if a == [] {
      assert a + b == b;
    } else {
      assert (a + b)[0] == a[0] && (a + b)[1..] == a[1..] + b;
      InTurnAppends(Step(s, a[0]), a[1..], b);
    }
  }

  lemma InTurnTransitively(s: Node, m: Node, s': Node)
    requires Sized(s) && Sized(m) && LeadsInTurn(s, m) && LeadsInTurn(m, s')
    ensures LeadsInTurn(s, s')
  {
    var a :| InTurn(s, a) && Exec(s, a) == m;
    var b :| InTurn(m, b) && Exec(m, b) == s';
    ExecAppends(s, a, b);
    InTurnAppends(s, a, b);
  }

  lemma StepInTurn(s: Node, th: Thread)
    requires Sized(s) && OthersIdle(s, th)
    ensures LeadsInTurn(s, Step(s, th)) && OthersIdle(Step(s, th), th)
  {
    assert InTurn(Step(s, th), [th][1..]) && Exec(Step(s, th), [th][1..]) == Step(s, th);
    assert InTurn(s, [th]) && Exec(s, [th]) == Step(s, th);
    if th.Remover? && th.pos < |s.modes| {
      RemoverFrame(s, th.pos);
    }
  }

  lemma {:induction false} SoloInTurn(s: Node, th: Thread, n: nat)
    requires Sized(s) && OthersIdle(s, th)
    ensures LeadsInTurn(s, Solo(s, th, n))
    decreases n
  {
    if n == 0 {
      StaysInTurn(s);
    } else {
      StepInTurn(s, th);
      SoloInTurn(Step(s, th), th, n - 1);
      InTurnTransitively(s, Step(s, th), Solo(s, th, n));
    }
  }

  /** The adder registers position s.last and grants it itself. */
  lemma AdderGrants(s: Node)
    requires Shape(s) && OthersIdle(s, Adder) && s.adder == AddIdle && s.fnr == s.last < |s.modes|
    requires s.first == s.last || Joins(s.modes, s.last)
    ensures LeadsInTurn(s, s.(last := s.last + 1, fnr := s.last + 1, granter := s.granter + [Adder],
                              notified := s.notified[s.last := true]))
  {
    var s1 := Step(s, Adder);
    var s2 := Step(s1, Adder);
    var s3 := Step(s2, Adder);
    var s4 := Step(s3, Adder);
    var s5 := Step(s4, Adder);
    var s6 := Step(s5, Adder);
    assert s6 == s.(last := s.last + 1, fnr := s.last + 1, granter := s.granter + [Adder],
                    notified := s.notified[s.last := true]);
    assert Solo(s, Adder, 6) == Solo(s3, Adder, 3) == s6;
    SoloInTurn(s, Adder, 6);
  }

  /** The adder registers position s.last, which has to wait. */
  lemma AdderLeavesWaiting(s: Node)
    requires Shape(s) && OthersIdle(s, Adder) && s.adder == AddIdle && s.fnr == s.last < |s.modes|
    requires s.first != s.last && !Joins(s.modes, s.last)
    ensures LeadsInTurn(s, s.(last := s.last + 1))
  {
    var s1 := Step(s, Adder);
    var s2 := Step(s1, Adder);
    var s3 := Step(s2, Adder);
    var s4 := Step(s3, Adder);
    assert s4 == s.(last := s.last + 1);
    assert Solo(s, Adder, 4) == Solo(s2, Adder, 2) == s4;
    SoloInTurn(s, Adder, 4);
  }

  /** The task at first removes itself, with nothing to pass behind it and nothing to grant. */
  lemma HeadLeaves(s: Node, p: nat)
    requires Shape(s) && p < |s.modes| && s.first == p < s.fnr && s.rem[p].NotStarted? && s.notified[p]
    requires !s.removed[p + 1] && (s.fnr == p + 1 ==> s.last == p + 1)
    ensures Leads(s, s.(first := p + 1, cleared := s.cleared + [Clear(p, false)], rem := s.rem[p := Done]))
    ensures OthersIdle(s, Remover(p)) ==>
              LeadsInTurn(s, s.(first := p + 1, cleared := s.cleared + [Clear(p, false)], rem := s.rem[p := Done]))
  {
    var s1 := Step(s, Remover(p));
    var s2 := Step(s1, Remover(p));
    var s3 := Step(s2, Remover(p));
    var s4 := Step(s3, Remover(p));
    var s5 := Step(s4, Remover(p));
    assert s5 == s.(first := p + 1, cleared := s.cleared + [Clear(p, false)], rem := s.rem[p := Done]);
    assert Solo(s, Remover(p), 5) == Solo(s2, Remover(p), 3) == s5;
    SoloLeads(s, Remover(p), 5);
    if OthersIdle(s, Remover(p)) {
      SoloInTurn(s, Remover(p), 5);
    }
  }

  /** Positions below j have come and gone, and nothing else has happened. */
  ghost predicate Clean(s: Node, j: nat) {
    && Inv(s)
    && s.first == s.fnr == s.last == j && s.adder == AddIdle
    && (forall p :: 0 <= p < j ==> s.rem[p].Done?)
    && (forall p :: j <= p < |s.modes| ==> s.rem[p].NotStarted?)
  }

  lemma LeadsInv(s: Node, s': Node)
    requires Inv(s) && Leads(s, s')
    ensures Inv(s') && s'.modes == s.modes && s'.reading == s.reading
  {
    var schedule :| Exec(s, schedule) == s';
    ExecInv(s, schedule);
  }

  lemma OneTaskAlone(s: Node, j: nat) returns (s': Node)
    requires Clean(s, j) && j < |s.modes|
    ensures LeadsInTurn(s, s') && Clean(s', j + 1) && s'.modes == s.modes && s'.reading == s.reading
  {
    AdderGrants(s);
    var m := s.(last := j + 1, fnr := j + 1, granter := s.granter + [Adder], notified := s.notified[j := true]);
    InTurnLeads(s, m);
    LeadsInv(s, m);
    HeadLeaves(m, j);
    s' := m.(first := j + 1, cleared := m.cleared + [Clear(j, false)], rem := m.rem[j := Done]);
    InTurnTransitively(s, m, s');
    InTurnLeads(s, s');
    LeadsInv(s, s');
  }

  lemma {:induction false} PrefixAlone(s: Node, j: nat, k: nat) returns (s': Node)
    requires Clean(s, j) && j <= k <= |s.modes|
    ensures LeadsInTurn(s, s') && Clean(s', k) && s'.modes == s.modes && s'.reading == s.reading
    decreases k - j
  {
    if j == k {
      StaysInTurn(s);
      s' := s;
    } else {
      var m := OneTaskAlone(s, j);
      s' := PrefixAlone(m, j + 1, k);
      InTurnTransitively(s, m, s');
    }
  }

  /** k and k + 1 are granted together and k + 2 waits behind them. */
  lemma ThreeArrive(s: Node, k: nat) returns (s': Node)
    requires Clean(s, k) && k + 2 < |s.modes| && Joins(s.modes, k + 1) && !Joins(s.modes, k + 2)
    ensures LeadsInTurn(s, s') && Inv(s') && s'.modes == s.modes && s'.reading == s.reading
    ensures s'.first == k && s'.fnr == k + 2 && s'.last == k + 3 && s'.adder == AddIdle
    ensures s'.rem == s.rem && s'.notified[k] && s'.notified[k + 1]
  {
    AdderGrants(s);
    var s1 := s.(last := k + 1, fnr := k + 1, granter := s.granter + [Adder], notified := s.notified[k := true]);
    InTurnLeads(s, s1);
    LeadsInv(s, s1);
    AdderGrants(s1);
    var s2 := s1.(last := k + 2, fnr := k + 2, granter := s1.granter + [Adder], notified := s1.notified[k + 1 := true]);
    InTurnTransitively(s, s1, s2);
    InTurnLeads(s, s2);
    LeadsInv(s, s2);
    AdderLeavesWaiting(s2);
    s' := s2.(last := k + 3);
    InTurnTransitively(s, s2, s');
    InTurnLeads(s, s');
    LeadsInv(s, s');
  }

  /** k + 1 looks at first and starts walking, k leaves as head, then k + 1 finishes walking: nobody is left
      to grant k + 2. */
  lemma TwoLeaveBadly(s: Node, k: nat) returns (s': Node)
    requires Inv(s) && k + 2 < |s.modes| && s.adder == AddIdle && !Joins(s.modes, k + 2)
    requires s.first == k && s.fnr == k + 2 && s.last == k + 3 && s.notified[k] && s.notified[k + 1]
    requires forall p :: 0 <= p < k ==> s.rem[p].Done?
    requires forall p :: k <= p < |s.modes| ==> s.rem[p].NotStarted?
    ensures Leads(s, s') && Quiescent(s') && !Healthy(s') && Abandoned(s') && s'.modes == s.modes
  {
    assert RemOk(s, k) && RemOk(s, k + 1);
    var th := Remover(k + 1);
    var s1 := Step(s, th);
    assert s1 == s.(rem := s.rem[k + 1 := WalkLoad(k + 1)]);
    StepLeads(s, th);
    HeadLeaves(s1, k);
    var s2 := s1.(first := k + 1, cleared := s1.cleared + [Clear(k, false)], rem := s1.rem[k := Done]);
    LeadsTransitively(s, s1, s2);
    LeadsInv(s, s2);
    s' := FinishWalking(s2, k);
    LeadsTransitively(s, s2, s');
  }

  lemma FinishWalking(s: Node, k: nat) returns (s': Node)
    requires Inv(s) && k + 2 < |s.modes| && s.adder == AddIdle && !Joins(s.modes, k + 2)
    requires s.first == k + 1 && s.fnr == k + 2 && s.last == k + 3 && s.rem[k + 1] == WalkLoad(k + 1)
    requires forall p :: 0 <= p < k + 1 ==> s.rem[p].Done?
    requires forall p :: k + 2 <= p < |s.modes| ==> s.rem[p].NotStarted?
    ensures Leads(s, s') && Quiescent(s') && !Healthy(s') && Abandoned(s') && s'.modes == s.modes
  {
    var th := Remover(k + 1);
    var s1 := Step(s, th);
    var s2 := Step(s1, th);
    var s3 := Step(s2, th);
    s' := Step(s3, th);
    assert s2.rem == s.rem[k + 1 := WalkCas] && s2.removed == s.removed[k + 1 := true];
    assert s'.rem == s.rem[k + 1 := Done];
    assert Solo(s, th, 4) == Solo(s2, th, 2) == s';
    SoloLeads(s, th, 4);
  }

  /** Everything granted has left, the adder is not about to grant, and a task waits. */
  ghost predicate Abandoned(s: Node) {
    && Sized(s)
    && s.fnr < s.last <= |s.modes|
    && !AdderHolds(s) && !s.adder.AddNotify? && (s.adder.AddStored? ==> s.adder.pos == s.last < |s.modes|)
    && (forall p :: 0 <= p < |s.rem| ==> if p < s.fnr then s.rem[p].Done? else s.rem[p].NotStarted? && !s.notified[p])
  }

  lemma AbandonedStep(s: Node, th: Thread)
    requires Abandoned(s)
    ensures Abandoned(Step(s, th)) && Step(s, th).fnr == s.fnr
  {
    match th
    case Adder =>
    case Remover(p) => if p < |s.modes| { assert s.rem[p].Done? || !s.notified[p]; }
  }

  /** A lost wake-up is lost for good: no continuation grants anything. */
  lemma {:induction false} AbandonedForever(s: Node, schedule: seq<Thread>)
    requires Abandoned(s)
    ensures Abandoned(Exec(s, schedule)) && Exec(s, schedule).fnr == s.fnr
    decreases |schedule|
  {
    if schedule != [] {
      AbandonedStep(s, schedule[0]);
      AbandonedForever(Step(s, schedule[0]), schedule[1..]);
    }
  }

  /** A compatible pair followed by a serial registration: some interleaving strands the third task. */
  lemma TripleCanLose(reading: CasReading, modes: seq<AccessMode>, k: nat) returns (s: Node)
    requires k + 2 < |modes| && Joins(modes, k + 1) && !Joins(modes, k + 2)
    ensures Reachable(reading, modes, s) && Quiescent(s) && !Healthy(s) && Abandoned(s)
  {
    var s0 := Init(reading, modes, |modes| + 1);
    InitInv(reading, modes, |modes| + 1);
    var s1 := PrefixAlone(s0, 0, k);
    var s2 := ThreeArrive(s1, k);
    s := TwoLeaveBadly(s2, k);
    InTurnTransitively(s0, s1, s2);
    InTurnLeads(s0, s2);
    LeadsTransitively(s0, s2, s);
    var schedule :| Exec(s0, schedule) == s;
  }

  /** The exact condition on a list of registrations, under either reading of the CAS on first:
      every interleaving leaves the queue healthy if and only if no two neighbours that may share
      are ever followed by a registration that may not. */
  lemma NoLostWakeUpExactly(reading: CasReading, modes: seq<AccessMode>)
    ensures (forall s :: Reachable(reading, modes, s) && Quiescent(s) ==> Healthy(s)) <==> SharesToTheEnd(modes)
  {
    if SharesToTheEnd(modes) {
      forall s | Reachable(reading, modes, s) && Quiescent(s) ensures Healthy(s) {
        SharingNeverLoses(reading, modes, s);
      }
    } else {
      var i := TripleOf(modes);
      var s := TripleCanLose(reading, modes, i - 1);
    }
  }

  /** The smallest instance: two readers and a writer, and the writer is never granted by any continuation. */
  lemma TwoReadersStrandAWriter(reading: CasReading) returns (s: Node)
    ensures Reachable(reading, [Read, Read, Write], s) && Quiescent(s) && !Healthy(s)
    ensures s.fnr == 2 < s.last && forall schedule: seq<Thread> :: Exec(s, schedule).fnr == 2
  {
    s := TripleCanLose(reading, [Read, Read, Write], 0);
    ReachableInv(reading, [Read, Read, Write], s);
    UnhealthyShowsTriple(s);
    forall schedule: seq<Thread> ensures Exec(s, schedule).fnr == 2 {
      AbandonedForever(s, schedule);
    }
  }
}
