/** Calls that do not overlap: where the two readings of the CAS on first part. */
module InTurnTheorems {
  import opened Access
  import opened NodeInvariant
  import opened NodeMachine
  import opened NodeTheorems

  /** All runs of the queue in which no two calls overlap. */
  ghost predicate ReachableInTurn(reading: CasReading, modes: seq<AccessMode>, s: Node) {
    exists capacity: nat :: |modes| < capacity && LeadsInTurn(Init(reading, modes, capacity), s)
  }

  lemma InTurnIsReachable(reading: CasReading, modes: seq<AccessMode>, s: Node)
    requires ReachableInTurn(reading, modes, s)
    ensures Reachable(reading, modes, s)
  {
    var capacity: nat :| |modes| < capacity && LeadsInTurn(Init(reading, modes, capacity), s);
    var schedule :| InTurn(Init(reading, modes, capacity), schedule)
                    && Exec(Init(reading, modes, capacity), schedule) == s;
  }

  // ----- read as intended -----

  predicate WalkerPc(pc: RemPc) {
    pc.WalkLoad? || pc.Walk? || pc.WalkCas?
  }

  predicate ClearsAsWalker(pc: RemPc) {
    (pc.Check? || pc.CheckFnr? || pc.AdvanceCas?) && pc.walker
  }

  /** No walker has won the CAS on first, and none can: first is still in front of it. */
  predicate NoWalkerWins(s: Node) {
    && (forall i :: 0 <= i < |s.cleared| ==> !s.cleared[i].walker)
    && (forall p :: 0 <= p < |s.rem| && WalkerPc(s.rem[p]) ==> s.first < p)
    && (forall p :: 0 <= p < |s.rem| ==> !ClearsAsWalker(s.rem[p]))
  }

  lemma OwnStepClears(s: Node, p: nat)
    requires Shape(s) && p < |s.modes| && RemOk(s, p) && s.reading == Intended
    requires WalkerPc(s.rem[p]) ==> s.first < p
    requires !ClearsAsWalker(s.rem[p]) && forall i :: 0 <= i < |s.cleared| ==> !s.cleared[i].walker
    ensures forall i :: 0 <= i < |RemStep(s, p).cleared| ==> !RemStep(s, p).cleared[i].walker
  {
  }

  lemma OwnStepStaysBehind(s: Node, p: nat)
    requires Shape(s) && p < |s.modes| && RemOk(s, p) && s.reading == Intended
    requires (WalkerPc(s.rem[p]) ==> s.first < p) && !ClearsAsWalker(s.rem[p])
    ensures var s' := RemStep(s, p); (WalkerPc(s'.rem[p]) ==> s'.first < p) && !ClearsAsWalker(s'.rem[p])
  {
    if WalkerPc(s.rem[p]) || s.rem[p].NotStarted? {
      WalkerStaysBehind(s, p);
    } else {
      OthersNeverWalk(s, p);
    }
  }

  lemma WalkerStaysBehind(s: Node, p: nat)
    requires Shape(s) && p < |s.modes| && RemOk(s, p) && s.reading == Intended
    requires (WalkerPc(s.rem[p]) && s.first < p) || s.rem[p].NotStarted?
    ensures var s' := RemStep(s, p); (WalkerPc(s'.rem[p]) ==> s'.first < p) && !ClearsAsWalker(s'.rem[p])
  {
  }

  lemma OthersNeverWalk(s: Node, p: nat)
    requires Sized(s) && p < |s.modes| && !WalkerPc(s.rem[p]) && !s.rem[p].NotStarted? && !ClearsAsWalker(s.rem[p])
    ensures var s' := RemStep(s, p); !WalkerPc(s'.rem[p]) && !ClearsAsWalker(s'.rem[p])
  {
  }

  lemma NoWalkerOwnStep(s: Node, p: nat)
    requires Shape(s) && p < |s.modes| && RemOk(s, p) && s.reading == Intended
    requires NoWalkerWins(s) && OthersIdle(s, Remover(p))
    ensures NoWalkerWins(RemStep(s, p))
  {
    OwnStepClears(s, p);
    OwnStepStaysBehind(s, p);
    RemoverFrame(s, p);
  }

  lemma NoWalkerStep(s: Node, th: Thread)
    requires Inv(s) && s.reading == Intended && NoWalkerWins(s) && OthersIdle(s, th)
    ensures NoWalkerWins(Step(s, th))
  {
    if th.Remover? && th.pos < |s.modes| {
      assert RemOk(s, th.pos);
      NoWalkerOwnStep(s, th.pos);
    }
  }

  lemma {:induction false} NoWalkerRun(s: Node, schedule: seq<Thread>)
    requires Inv(s) && s.reading == Intended && NoWalkerWins(s) && InTurn(s, schedule)
    ensures NoWalkerWins(Exec(s, schedule)) && Inv(Exec(s, schedule)) && Exec(s, schedule).reading == Intended
    decreases |schedule|
  {
    if schedule != [] {
      NoWalkerStep(s, schedule[0]);
      StepInv(s, schedule[0]);
      NoWalkerRun(Step(s, schedule[0]), schedule[1..]);
    }
  }

  /** Read as intended, calls that do not overlap never lose a wake-up, whatever the registrations. */
  lemma IntendedNeverLosesInTurn(modes: seq<AccessMode>, s: Node)
    requires ReachableInTurn(Intended, modes, s) && Quiescent(s)
    ensures Healthy(s)
  {
    var capacity: nat :| |modes| < capacity && LeadsInTurn(Init(Intended, modes, capacity), s);
    var s0 := Init(Intended, modes, capacity);
    var schedule :| InTurn(s0, schedule) && Exec(s0, schedule) == s;
    InitInv(Intended, modes, capacity);
    NoWalkerRun(s0, schedule);
    if s.fnr < s.last {
      LostExactlyByWalker(s);
    }
  }

  // ----- read as written -----

  /** k + 1 leaves by itself and marks its entry. */
  lemma SecondLeavesAlone(s: Node, k: nat) returns (s': Node)
    requires Inv(s) && s.reading == AsWritten && k + 2 < |s.modes| && OthersIdle(s, Remover(k + 1))
    requires s.first == k && s.fnr == k + 2 && s.notified[k + 1] && s.rem[k + 1].NotStarted?
    ensures LeadsInTurn(s, s')
    ensures s' == s.(removed := s.removed[k + 1 := true], rem := s.rem[k + 1 := Done])
  {
    var th := Remover(k + 1);
    var s1 := Step(s, th);
    var s2 := Step(s1, th);
    var s3 := Step(s2, th);
    s' := Step(s3, th);
    assert s2.rem == s.rem[k + 1 := Walk(k + 1, k + 2)] && s3.removed == s.removed[k + 1 := true];
    assert s'.rem == s.rem[k + 1 := Done];
    assert Solo(s, th, 4) == Solo(s2, th, 2) == s';
    SoloInTurn(s, th, 4);
  }

  /** Then k leaves by itself, finds the marked entry behind it, fails to pass it, and returns. */
  lemma FirstLeavesAlone(s: Node, k: nat) returns (s': Node)
    requires Inv(s) && s.reading == AsWritten && k + 2 < |s.modes| && OthersIdle(s, Remover(k))
    requires s.first == k && s.fnr == k + 2 && s.notified[k] && s.rem[k].NotStarted? && s.removed[k + 1]
    ensures LeadsInTurn(s, s')
    ensures s' == s.(first := k + 1, cleared := s.cleared + [Clear(k, false)], rem := s.rem[k := Done])
  {
    var th := Remover(k);
    var s1 := Step(s, th);
    var s2 := Step(s1, th);
    var s3 := Step(s2, th);
    var s4 := Step(s3, th);
    s' := Step(s4, th);
    assert s2.rem == s.rem[k := Check(k + 1, false)] && s2.first == k + 1;
    assert s4.rem == s.rem[k := AdvanceCas(k + 1, false)] && s4.first == k + 1;
    assert s'.rem == s.rem[k := Done];
    assert Solo(s, th, 5) == Solo(s2, th, 3) == s';
    SoloInTurn(s, th, 5);
  }

  /** Two that share leave one after the other, the later one first: the one that waits behind them is abandoned. */
  lemma TwoLeaveInTurn(s: Node, k: nat) returns (s': Node)
    requires Inv(s) && s.reading == AsWritten && k + 2 < |s.modes| && s.adder == AddIdle
    requires s.first == k && s.fnr == k + 2 && s.last == k + 3 && s.notified[k] && s.notified[k + 1]
    requires forall p :: 0 <= p < k ==> s.rem[p].Done?
    requires forall p :: k <= p < |s.modes| ==> s.rem[p].NotStarted?
    ensures LeadsInTurn(s, s') && Quiescent(s') && !Healthy(s') && Abandoned(s')
  {
    var m := SecondLeavesAlone(s, k);
    InTurnLeads(s, m);
    LeadsInv(s, m);
    s' := FirstLeavesAlone(m, k);
    InTurnTransitively(s, m, s');
    forall p | 0 <= p < |s.rem|
      ensures if p < k + 2 then s'.rem[p].Done? else s'.rem[p].NotStarted? && !s'.notified[p]
    {
      assert s.notified[p] ==> p < s.fnr;
    }
  }

  lemma TripleLosesInTurn(modes: seq<AccessMode>, k: nat) returns (s: Node)
    requires k + 2 < |modes| && Joins(modes, k + 1) && !Joins(modes, k + 2)
    ensures ReachableInTurn(AsWritten, modes, s) && Quiescent(s) && !Healthy(s) && Abandoned(s)
  {
    var s0 := Init(AsWritten, modes, |modes| + 1);
    InitInv(AsWritten, modes, |modes| + 1);
    var s1 := PrefixAlone(s0, 0, k);
    var s2 := ThreeArrive(s1, k);
    s := TwoLeaveInTurn(s2, k);
    InTurnTransitively(s0, s1, s2);
    InTurnTransitively(s0, s2, s);
  }

  /** Read as written, even calls that do not overlap lose wake-ups, on exactly the lists of registrations on which
      overlapping ones do. */
  lemma AsWrittenInTurnExactly(modes: seq<AccessMode>)
    ensures
      (forall s :: ReachableInTurn(AsWritten, modes, s) && Quiescent(s) ==> Healthy(s)) <==> SharesToTheEnd(modes)
  {
    if SharesToTheEnd(modes) {
      forall s | ReachableInTurn(AsWritten, modes, s) && Quiescent(s)
        ensures Healthy(s)
      {
        InTurnIsReachable(AsWritten, modes, s);
        SharingNeverLoses(AsWritten, modes, s);
      }
    } else {
      var i := TripleOf(modes);
      var s := TripleLosesInTurn(modes, i - 1);
    }
  }

  /** The smallest instance: two readers and a writer; the second reader leaves, then the first, by themselves. */
  lemma TwoReadersInTurn() returns (s: Node)
    ensures ReachableInTurn(AsWritten, [Read, Read, Write], s) && Quiescent(s) && !Healthy(s)
    ensures forall schedule: seq<Thread> :: Exec(s, schedule).fnr == s.fnr < |s.modes|
  {
    var modes := [Read, Read, Write];
    s := TripleLosesInTurn(modes, 0);
    InTurnIsReachable(AsWritten, modes, s);
    ReachableInv(AsWritten, modes, s);
    forall schedule: seq<Thread> ensures Exec(s, schedule).fnr == s.fnr {
      AbandonedForever(s, schedule);
    }
  }
}
