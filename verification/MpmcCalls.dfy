/** The calls of the bounded ticket queue: the request that began a call, read off the schedule, against its ticket, its
    value and its result. */
module MpmcCalls {
  import opened MpmcInvariant
  import opened MpmcMachine
  import opened MpmcTheorems
  import opened Options

  /** The request hands in x. */
  predicate Carries(request: Request, x: int) {
    request == Emplace(x) || request == TryEmplace(x)
  }

  /** Thread i took producer ticket k, with value x. */
  predicate Made(q: Queue, i: nat, k: nat, x: int) {
    k < |q.issued| && k < |q.makers| && q.issued[k] == x && q.makers[k] == i
  }

  /** Thread i took consumer ticket k. */
  predicate Took(q: Queue, i: nat, k: nat) {
    k < |q.takers| && q.takers[k] == i
  }

  /** What thread i is doing is what the request asks for. */
  predicate Serves(q: Queue, i: nat, request: Request)
    requires i < |q.threads|
  {
    match q.threads[i]
    case Idle => false
    case EmplaceWait(k, x) => request == Emplace(x) && Made(q, i, k, x)
    case Construct(k, x) => Carries(request, x) && Made(q, i, k, x)
    case PublishFull(k) => (request.Emplace? || request.TryEmplace?) && Made(q, i, k, request.value)
    case TryEmplaceTurn(_, x) => request == TryEmplace(x)
    case TryEmplaceCas(_, x) => request == TryEmplace(x)
    case TryEmplaceReload(_, x) => request == TryEmplace(x)
    case PopWait(k) => request == Pop && Took(q, i, k)
    case Move(k) => (request == Pop || request == TryPop) && Took(q, i, k)
    case Destroy(k, _) => (request == Pop || request == TryPop) && Took(q, i, k)
    case PublishFree(k, _) => (request == Pop || request == TryPop) && Took(q, i, k)
    case TryPopTurn(_) => request == TryPop
    case TryPopCas(_) => request == TryPop
    case TryPopReload(_) => request == TryPop
  }

  // ----- steps -----

  /** A call begins by serving its request, whatever it is. */
  lemma BeginServes(q: Queue, i: nat, request: Request)
    requires Inv(q) && i < |q.threads| && q.threads[i].Idle?
    ensures Serves(Step(q, i, request), i, request)
  {
  }

  lemma EmplaceServes(q: Queue, i: nat, now: Request, request: Request)
    requires Inv(q) && i < |q.threads| && Serves(q, i, request) && (request.Emplace? || request.TryEmplace?)
    ensures var q' := Step(q, i, now); q'.threads[i].Idle? || Serves(q', i, request)
  {
    assert ThreadOk(q.slots, q.head, q.tail, q.issued, q.threads[i]);
  }

  lemma PopServes(q: Queue, i: nat, now: Request, request: Request)
    requires |q.slots| > 0 && |q.takers| == q.tail
    requires i < |q.threads| && Serves(q, i, request) && (request.Pop? || request.TryPop?)
    ensures var q' := Step(q, i, now); q'.threads[i].Idle? || Serves(q', i, request)
  {
    if !Consuming(q.threads[i]) {
      TryPopServes(q, i, now);
    }
  }

  lemma TryPopServes(q: Queue, i: nat, now: Request)
    requires |q.slots| > 0 && |q.takers| == q.tail
    requires i < |q.threads| && Serves(q, i, TryPop) && !Consuming(q.threads[i])
    ensures var q' := Step(q, i, now); q'.threads[i].Idle? || Serves(q', i, TryPop)
  {
  }

  lemma OwnServes(q: Queue, i: nat, now: Request, request: Request)
    requires Inv(q) && i < |q.threads| && Serves(q, i, request)
    ensures var q' := Step(q, i, now); q'.threads[i].Idle? || Serves(q', i, request)
  {
    if request.Emplace? || request.TryEmplace? {
      EmplaceServes(q, i, now, request);
    } else {
      PopServes(q, i, now, request);
    }
  }

  /** Tickets taken stay taken. */
  lemma TicketsStay(q: Queue, i: nat, now: Request)
    requires |q.slots| > 0 && i < |q.threads|
    ensures var q' := Step(q, i, now);
            q.issued <= q'.issued && q.makers <= q'.makers && q.takers <= q'.takers
  {
  }

  lemma OtherServes(q: Queue, j: nat, now: Request, i: nat, request: Request)
    requires |q.slots| > 0 && i < |q.threads| && j < |q.threads| && i != j && Serves(q, i, request)
    ensures Serves(Step(q, j, now), i, request)
  {
    StepOther(q, j, now, i);
    TicketsStay(q, j, now);
  }

  // ----- the call a thread is in -----

  /** Event m began the call that thread i is still in. */
  ghost predicate InCallSince(capacity: nat, threads: nat, schedule: seq<Event>, i: nat, m: nat)
    requires capacity > 0
  {
    && i < threads && m < |schedule| && schedule[m].thread == i
    && IdleAfter(capacity, threads, schedule[..m], i)
    && forall j :: m < j <= |schedule| ==> !IdleAfter(capacity, threads, schedule[..j], i)
  }

  predicate IdleAfter(capacity: nat, threads: nat, schedule: seq<Event>, i: nat)
    requires capacity > 0
  {
    var q := Run(capacity, threads, schedule);
    i < |q.threads| && q.threads[i].Idle?
  }

  lemma CallGoesOn(capacity: nat, threads: nat, schedule: seq<Event>, i: nat, m: nat)
    requires capacity > 0 && schedule != []
    requires InCallSince(capacity, threads, schedule[..|schedule| - 1], i, m)
    requires !IdleAfter(capacity, threads, schedule, i)
    ensures InCallSince(capacity, threads, schedule, i, m)
  {
    var n := |schedule| - 1;
    assert schedule[..n][..m] == schedule[..m];
    forall j | m < j <= |schedule|
      ensures !IdleAfter(capacity, threads, schedule[..j], i)
    {
      if j <= n {
        assert schedule[..n][..j] == schedule[..j];
      } else {
        assert schedule[..j] == schedule;
      }
    }
  }

  /** Whatever a thread is doing in the middle of a call serves the request that began the call. */
  lemma {:induction false} CallServes(capacity: nat, threads: nat, schedule: seq<Event>, i: nat) returns (m: nat)
    requires capacity > 0 && i < threads && !IdleAfter(capacity, threads, schedule, i)
    ensures InCallSince(capacity, threads, schedule, i, m)
    ensures Serves(Run(capacity, threads, schedule), i, schedule[m].request)
    decreases |schedule|
  {
    StartsIdle(capacity, threads, i);
    assert schedule != [];
    var n := |schedule| - 1;
    var e, before := schedule[n], Run(capacity, threads, schedule[..n]);
    RunInv(capacity, threads, schedule[..n]);
    RunLast(capacity, threads, schedule);
    if IdleAfter(capacity, threads, schedule[..n], i) {
      m := n;
      OnlyOwnStepBegins(before, e, i);
      BeginServes(before, i, e.request);
      assert schedule[..|schedule|] == schedule;
    } else {
      m := CallServes(capacity, threads, schedule[..n], i);
      CallGoesOn(capacity, threads, schedule, i, m);
      if e.thread == i {
        OwnServes(before, i, e.request, schedule[m].request);
      } else if e.thread < threads {
        OtherServes(before, e.thread, e.request, i, schedule[m].request);
      }
    }
  }

  lemma StartsIdle(capacity: nat, threads: nat, i: nat)
    requires capacity > 0 && i < threads
    ensures IdleAfter(capacity, threads, [], i)
  {
  }

  lemma OnlyOwnStepBegins(q: Queue, e: Event, i: nat)
    requires |q.slots| > 0 && i < |q.threads| && q.threads[i].Idle?
    requires !(if e.thread < |q.threads| then Step(q, e.thread, e.request) else q).threads[i].Idle?
    ensures e.thread == i
  {
    if e.thread < |q.threads| && e.thread != i {
      StepOther(q, e.thread, e.request, i);
    }
  }

  // ----- tickets -----

  /** Ticket k was taken at event n, inside the call of the same thread that event m began, and that call hands in x. */
  ghost predicate AskedFor(capacity: nat, threads: nat, schedule: seq<Event>, k: nat, m: nat, n: nat, x: int)
    requires capacity > 0
  {
    && m <= n < |schedule| && schedule[m].thread == schedule[n].thread < threads
    && Run(capacity, threads, schedule[..n]).head == k && Run(capacity, threads, schedule[..n + 1]).head == k + 1
    && (m == n ==> IdleAfter(capacity, threads, schedule[..n], schedule[n].thread))
    && (m < n ==> InCallSince(capacity, threads, schedule[..n], schedule[n].thread, m))
    && Carries(schedule[m].request, x)
  }

  lemma AskedBefore(capacity: nat, threads: nat, schedule: seq<Event>, k: nat, m: nat, n: nat, x: int)
    requires capacity > 0 && schedule != []
    requires AskedFor(capacity, threads, schedule[..|schedule| - 1], k, m, n, x)
    ensures AskedFor(capacity, threads, schedule, k, m, n, x)
  {
    var l := |schedule| - 1;
    assert schedule[..l][..n] == schedule[..n] && schedule[..l][..n + 1] == schedule[..n + 1];
  }

  /** A step takes at most one producer ticket, in the thread's own name. */
  lemma StepIssues(q: Queue, i: nat, request: Request)
    requires |q.slots| > 0 && |q.issued| == |q.makers| == q.head && i < |q.threads|
    ensures
      var q' := Step(q, i, request);
      || (q'.head == q.head && q'.issued == q.issued && q'.makers == q.makers)
      || (q'.head == q.head + 1 && |q'.issued| == |q.issued| + 1 && q.issued <= q'.issued
          && q'.makers == q.makers + [i] && !q'.threads[i].Idle?
          && (q'.threads[i].EmplaceWait? || q'.threads[i].Construct?) && q'.threads[i].value == q'.issued[q.head]
          && (q.threads[i].Idle? || q.threads[i].TryEmplaceCas?))
  {
  }

  /** Every ticket ever taken was taken inside the call of the thread that made it, and carries the value that call was
      given: emplace and try_emplace issue what they are asked to. */
  lemma {:induction false} TicketWasAsked(capacity: nat, threads: nat, schedule: seq<Event>, k: nat)
    returns (m: nat, n: nat)
    requires capacity > 0 && k < |Run(capacity, threads, schedule).issued|
    ensures
      var q := Run(capacity, threads, schedule);
      && k < |q.makers| && AskedFor(capacity, threads, schedule, k, m, n, q.issued[k])
      && schedule[n].thread == q.makers[k]
    decreases |schedule|
  {
    assert schedule != [];
    var l := |schedule| - 1;
    var before := Run(capacity, threads, schedule[..l]);
    LastIssues(capacity, threads, schedule);
    if k < |before.issued| {
      m, n := TicketWasAsked(capacity, threads, schedule[..l], k);
      AskedBefore(capacity, threads, schedule, k, m, n, before.issued[k]);
    } else {
      n := l;
      m := TakerOf(capacity, threads, schedule);
    }
  }

  /** The last event takes at most one producer ticket, in its thread's name. */
  lemma LastIssues(capacity: nat, threads: nat, schedule: seq<Event>)
    requires capacity > 0 && schedule != []
    ensures
      var l := |schedule| - 1;
      var q, before := Run(capacity, threads, schedule), Run(capacity, threads, schedule[..l]);
      && |q.issued| == |q.makers| == q.head && |before.issued| == |before.makers| == before.head
      && before.issued <= q.issued && before.makers <= q.makers
      && (before.head < q.head ==> q.head == before.head + 1 && q.makers[before.head] == schedule[l].thread)
  {
    var l := |schedule| - 1;
    RunInv(capacity, threads, schedule[..l]);
    RunInv(capacity, threads, schedule);
    RunLast(capacity, threads, schedule);
    if schedule[l].thread < threads {
      StepIssues(Run(capacity, threads, schedule[..l]), schedule[l].thread, schedule[l].request);
    }
  }

  /** The last event takes a ticket. */
  lemma TakerOf(capacity: nat, threads: nat, schedule: seq<Event>) returns (m: nat)
    requires capacity > 0 && schedule != []
    requires
      var l := |schedule| - 1;
      Run(capacity, threads, schedule).head > Run(capacity, threads, schedule[..l]).head
    ensures
      var l := |schedule| - 1;
      var q, before := Run(capacity, threads, schedule), Run(capacity, threads, schedule[..l]);
      before.head < |q.issued| && AskedFor(capacity, threads, schedule, before.head, m, l, q.issued[before.head])
  {
    var l := |schedule| - 1;
    var e, before := schedule[l], Run(capacity, threads, schedule[..l]);
    RunInv(capacity, threads, schedule[..l]);
    RunLast(capacity, threads, schedule);
    assert schedule[..l + 1] == schedule;
    StepIssues(before, e.thread, e.request);
    if before.threads[e.thread].Idle? {
      m := l;
      BeginServes(before, e.thread, e.request);
    } else {
      m := CallServes(capacity, threads, schedule[..l], e.thread);
      OwnServes(before, e.thread, e.request, schedule[m].request);
    }
  }

  /** First in, first out, from request to result: what the consumer of ticket k receives is the value handed in by the
      call that took producer ticket k. */
  lemma RequestedIsReceived(capacity: nat, threads: nat, schedule: seq<Event>, k: nat) returns (m: nat, n: nat)
    requires capacity > 0 && k in Run(capacity, threads, schedule).received
    ensures AskedFor(capacity, threads, schedule, k, m, n, Run(capacity, threads, schedule).received[k])
  {
    FirstInFirstOut(capacity, threads, schedule, k);
    m, n := TicketWasAsked(capacity, threads, schedule, k);
  }

  // ----- results -----

  /** Value x, under a ticket thread i made, is now published in its slot and was not before. */
  ghost predicate Delivers(before: Queue, after: Queue, i: nat, x: int)
    requires |before.slots| > 0 && |after.slots| > 0
  {
    exists k: nat ::
      && Made(after, i, k, x) && !FullFor(before.slots, k)
      && FullFor(after.slots, k) && At(after.slots, k).storage == Some(x)
  }

  /** The value of a ticket that thread i took is now received and was not before. */
  ghost predicate Receives(before: Queue, after: Queue, i: nat) {
    exists k: nat ::
      && Took(after, i, k) && k < |after.issued|
      && k !in before.received && after.received == before.received[k := after.issued[k]]
  }

  /** Between these two states thread i's call comes back, with this answer to its request. */
  ghost predicate Answers(before: Queue, after: Queue, i: nat, request: Request)
    requires |before.slots| > 0 && |after.slots| > 0
  {
    match request
    case Emplace(x) => Delivers(before, after, i, x)
    case TryEmplace(x) => Delivers(before, after, i, x) || (exists k: nat :: RefusesEmplace(before, i, k))
    case Pop => Receives(before, after, i)
    case TryPop => Receives(before, after, i) || (exists k: nat :: RefusesPop(before, i, k))
  }

  lemma EmplaceAnswers(q: Queue, i: nat, now: Request, request: Request)
    requires Inv(q) && i < |q.threads| && Serves(q, i, request) && (request.Emplace? || request.TryEmplace?)
    requires Step(q, i, now).threads[i].Idle?
    ensures Answers(q, Step(q, i, now), i, request)
  {
    var q', k := Step(q, i, now), q.threads[i].k;
    assert ThreadOk(q.slots, q.head, q.tail, q.issued, q.threads[i]);
    if q.threads[i].PublishFull? {
      assert Made(q', i, k, request.value) && FullFor(q'.slots, k);
    } else {
      assert RefusesEmplace(q, i, k);
    }
  }

  lemma PopAnswers(q: Queue, i: nat, now: Request, request: Request)
    requires Inv(q) && i < |q.threads| && Serves(q, i, request) && (request.Pop? || request.TryPop?)
    requires Step(q, i, now).threads[i].Idle?
    ensures Answers(q, Step(q, i, now), i, request)
  {
    var q', k := Step(q, i, now), q.threads[i].k;
    assert ThreadOk(q.slots, q.head, q.tail, q.issued, q.threads[i]);
    if q.threads[i].PublishFree? {
      assert Took(q', i, k) && k !in q.received;
    } else {
      assert RefusesPop(q, i, k);
    }
  }

  /** Every call begins by taking up its request, and comes back only with the answer to it: emplace with its own value
      newly published under a ticket of its own; pop with the value of its own ticket, received by nobody before; the
      try forms with that, or at the reload that still finds the ticket it had seen, which is when
      FullWhenEmplaceRefused and UnpublishedWhenPopRefused apply. A lost exchange never ends a call. */
  lemma CallsAreAnswered(capacity: nat, threads: nat, schedule: seq<Event>) returns (m: nat)
    requires capacity > 0 && schedule != [] && schedule[|schedule| - 1].thread < threads
    ensures
      var n, i := |schedule| - 1, schedule[|schedule| - 1].thread;
      && (IdleAfter(capacity, threads, schedule[..n], i) ==> !IdleAfter(capacity, threads, schedule, i))
      && (!IdleAfter(capacity, threads, schedule[..n], i) ==>
            && InCallSince(capacity, threads, schedule[..n], i, m)
            && (IdleAfter(capacity, threads, schedule, i) ==>
                  Answers(Run(capacity, threads, schedule[..n]), Run(capacity, threads, schedule), i,
                          schedule[m].request)))
  {
    var n, i := |schedule| - 1, schedule[|schedule| - 1].thread;
    var e, before := schedule[n], Run(capacity, threads, schedule[..n]);
    RunInv(capacity, threads, schedule[..n]);
    RunLast(capacity, threads, schedule);
    if IdleAfter(capacity, threads, schedule[..n], i) {
      m := n;
      BeginServes(before, i, e.request);
    } else {
      m := CallServes(capacity, threads, schedule[..n], i);
      if IdleAfter(capacity, threads, schedule, i) {
        if schedule[m].request.Emplace? || schedule[m].request.TryEmplace? {
          EmplaceAnswers(before, i, e.request, schedule[m].request);
        } else {
          PopAnswers(before, i, e.request, schedule[m].request);
        }
      }
    }
  }

  // ----- calls that wait, and calls that move on -----

  function CallRank(pc: Pc): nat {
    match pc
    case Idle => 0
    case EmplaceWait(_, _) => 3
    case Construct(_, _) => 2
    case PublishFull(_) => 1
    case PopWait(_) => 4
    case Move(_) => 3
    case Destroy(_, _) => 2
    case PublishFree(_, _) => 1
    case TryEmplaceTurn(_, _) => 6
    case TryEmplaceCas(_, _) => 5
    case TryEmplaceReload(_, _) => 5
    case TryPopTurn(_) => 6
    case TryPopCas(_) => 5
    case TryPopReload(_) => 5
  }

  /** The thread spins on its slot. */
  predicate Blocked(q: Queue, i: nat)
    requires i < |q.threads| && |q.slots| > 0
  {
    match q.threads[i]
    case EmplaceWait(k, _) => !FreeFor(q.slots, k)
    case PopWait(k) => !FullFor(q.slots, k)
    case _ => false
  }

  /** Somebody else has taken the ticket the thread was after. */
  predicate Overtaken(q: Queue, i: nat)
    requires i < |q.threads|
  {
    match q.threads[i]
    case TryEmplaceCas(k, _) => q.head != k
    case TryEmplaceReload(k, _) => q.head != k
    case TryPopCas(k) => q.tail != k
    case TryPopReload(k) => q.tail != k
    case _ => false
  }

  /** Every step inside a call brings it closer to its end, unless it spins on its slot or starts again because somebody
      else took the ticket meanwhile. */
  lemma CallsMoveOn(q: Queue, i: nat, now: Request)
    requires |q.slots| > 0 && i < |q.threads| && !q.threads[i].Idle? && !Blocked(q, i) && !Overtaken(q, i)
    ensures CallRank(Step(q, i, now).threads[i]) < CallRank(q.threads[i])
  {
    if Producing(q.threads[i]) {
      ProducersMoveOn(q, i, now);
    } else if Consuming(q.threads[i]) {
      ConsumersMoveOn(q, i, now);
    }
  }

  lemma ProducersMoveOn(q: Queue, i: nat, now: Request)
    requires |q.slots| > 0 && i < |q.threads| && !Blocked(q, i) && Producing(q.threads[i])
    ensures CallRank(Step(q, i, now).threads[i]) < CallRank(q.threads[i])
  {
  }

  lemma ConsumersMoveOn(q: Queue, i: nat, now: Request)
    requires |q.slots| > 0 && i < |q.threads| && !Blocked(q, i) && Consuming(q.threads[i])
    ensures CallRank(Step(q, i, now).threads[i]) < CallRank(q.threads[i])
  {
  }

  /** The blocking forms spin only while they have to: emplace while the value one lap before its ticket has not been
      taken out, pop while the value of its ticket has not been asked for or its producer is still inside the slot. */
  lemma BlockedWhenItMust(capacity: nat, threads: nat, schedule: seq<Event>, i: nat)
    requires capacity > 0 && i < |Run(capacity, threads, schedule).threads|
    requires Blocked(Run(capacity, threads, schedule), i)
    ensures
      var q := Run(capacity, threads, schedule);
      var k := q.threads[i].k;
      && (q.threads[i].EmplaceWait? ==> k >= capacity && k - capacity !in q.received)
      && (q.threads[i].PopWait? ==> q.head <= k || exists j :: 0 <= j < threads && Holds(q.threads, j, k))
  {
    RunInv(capacity, threads, schedule);
    var q := Run(capacity, threads, schedule);
    var k := q.threads[i].k;
    assert ThreadOk(q.slots, q.head, q.tail, q.issued, q.threads[i]);
    if q.threads[i].EmplaceWait? {
      FirstLap(capacity, k);
      if k >= capacity {
        LapBack(capacity, k);
      }
    } else if k < q.head {
      TakenByProducer(q, k);
      assert Holds(q.threads, q.makers[k], k);
    }
  }
}
