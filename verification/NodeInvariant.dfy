/** What every step of the resource queue keeps, in every interleaving of one adder and any number of removers. */
module NodeInvariant {
  import opened Access
  import opened NodeMachine
  import opened Options

  // ----- shape -----

  ghost predicate Shape(s: Node) {
    && Sized(s)
    && s.first <= s.fnr <= s.last <= |s.modes|
    && |s.cleared| == s.first
    && |s.granter| == s.fnr
  }

  ghost predicate AdderOk(s: Node)
    requires Shape(s)
  {
    match s.adder
    case AddIdle => true
    case AddStored(p) => p == s.last < |s.modes|
    case AddPublished(p) => p + 1 == s.last && (p == 0 ==> s.fnr == 0)
    case AddCheckFirst(p) => p + 1 == s.last && p <= s.fnr && (p == 0 ==> s.fnr == 0)
    case AddCas(p) => p + 1 == s.last && (p == 0 ==> s.fnr == 0) && (s.first >= p || Joins(s.modes, p))
    case AddNotify(p) => p + 1 == s.last && p < s.fnr && !s.notified[p] && s.granter[p] == Adder
  }

  // ----- removers -----

  /** Remover p holds `first` past its own position, with `first` having reached cur. */
  ghost predicate Passed(s: Node, p: nat, cur: nat) {
    p < cur <= s.first
  }

  ghost predicate ModeIs(s: Node, mode: AccessMode, pos: nat)
    requires Shape(s)
  {
    0 < pos <= s.fnr && mode == s.modes[pos - 1]
  }

  ghost predicate RemOk(s: Node, p: nat)
    requires Shape(s) && p < |s.modes|
  {
    match s.rem[p]
    case NotStarted => s.first <= p && !s.removed[p]
    case HeadInc => s.first == p < s.fnr && !s.removed[p]
    case WalkLoad(cur) => s.first <= p < s.fnr && cur <= p && Joins(s.modes, p) && !s.removed[p]
    case Walk(cur, seen) => s.first <= p < s.fnr && cur <= p < seen && Joins(s.modes, p) && !s.removed[p]
    case WalkCas => p < s.fnr && s.removed[p]
    case Check(cur, walker) =>
      Passed(s, p, cur) && s.cleared[cur - 1] == Clear(p, walker) && (walker ==> Joins(s.modes, p))
    case CheckFnr(cur, walker) =>
      Passed(s, p, cur) && s.cleared[cur - 1] == Clear(p, walker) && s.removed[cur] && (walker ==> Joins(s.modes, p))
    case AdvanceCas(cur, walker) =>
      Passed(s, p, cur) && s.cleared[cur - 1] == Clear(p, walker) && s.removed[cur] && (walker ==> Joins(s.modes, p))
    case GrantFnr(cur) => Passed(s, p, cur)
    case GrantLast(cur, seen) => Passed(s, p, cur) && cur <= seen <= s.fnr
    case GrantCas(pos) => Passed(s, p, pos) && pos < s.last
    case Wake(pos) => p < s.first && p < pos < s.fnr && !s.notified[pos] && s.granter[pos] == Remover(p)
    case LoopLast(mode, pos, parallelExit) =>
      p < s.first && p < pos && ModeIs(s, mode, pos) && (parallelExit ==> pos < s.last)
    case LoopCas(mode, pos, seenLast) =>
      p < s.first && p < pos < seenLast <= s.last && ModeIs(s, mode, pos) && Joins(s.modes, pos)
    case WakeNext(mode, pos, seenLast) =>
      && p < s.first && p < pos < s.fnr && pos < seenLast <= s.last && mode == s.modes[pos]
      && !s.notified[pos] && s.granter[pos] == Remover(p)
    case Recheck(mode, pos, seenLast) => p < s.first && p < pos == seenLast <= s.last && ModeIs(s, mode, pos)
    case Done => s.first <= p ==> s.removed[p]
  }

  ghost predicate RemoversOk(s: Node)
    requires Shape(s)
  {
    forall p :: 0 <= p < |s.modes| ==> RemOk(s, p)
  }

  // ----- grant safety -----

  /** The positions granted and not yet passed by first are one compatible run. */
  ghost predicate Window(s: Node)
    requires Shape(s)
  {
    forall i :: s.first < i < s.fnr ==> Joins(s.modes, i)
  }

  /** remove_state is set only by walkers, and only on granted positions that joined their predecessor. */
  ghost predicate Marked(s: Node)
    requires Shape(s)
  {
    forall p :: 0 <= p < |s.removed| && s.removed[p] ==> p < s.fnr && Joins(s.modes, p)
  }

  ghost predicate Notified(s: Node)
    requires Shape(s)
  {
    && (forall p :: 0 <= p < |s.modes| && s.notified[p] ==> p < s.fnr)
    && (forall p :: 0 <= p < |s.modes| && s.rem[p] != NotStarted ==> s.notified[p])
  }

  /** A granted position is notified, or the thread that granted it is about to notify it. */
  ghost predicate Notifying(s: Node, p: nat)
    requires Shape(s) && p < s.fnr
  {
    match s.granter[p]
    case Adder => s.adder == AddNotify(p)
    case Remover(x) =>
      && x < |s.rem|
      && (s.rem[x] == Wake(p) || (s.rem[x].WakeNext? && s.rem[x].pos == p))
  }

  ghost predicate Granted(s: Node)
    requires Shape(s)
  {
    forall p :: 0 <= p < s.fnr && !s.notified[p] ==> Notifying(s, p)
  }

  /** A walker clears only positions that joined their predecessor. */
  ghost predicate Cleared(s: Node)
    requires Shape(s)
  {
    forall i :: 0 <= i < s.first && s.cleared[i].walker ==> Joins(s.modes, i)
  }

  /** Read as written, the CAS on first never succeeds, so nothing marked is ever passed. */
  ghost predicate AsWrittenOk(s: Node)
    requires Shape(s)
  {
    s.reading == AsWritten ==> forall p :: 0 <= p < |s.removed| && s.removed[p] ==> s.first <= p
  }

  // ----- responsibility -----

  ghost predicate AdderHolds(s: Node) {
    || s.adder == AddPublished(s.fnr)
    || s.adder == AddCheckFirst(s.fnr)
    || s.adder == AddCas(s.fnr)
  }

  /** Remover x moved first to its present value as a non-walker and still has to look at firstNotReady. */
  ghost predicate HeadHolds(s: Node, x: nat) {
    && x < |s.rem|
    && (|| s.rem[x] == Check(s.first, false)
        || s.rem[x] == GrantFnr(s.first)
        || s.rem[x] == GrantLast(s.first, s.first)
        || s.rem[x] == GrantCas(s.first))
  }

  /** Remover x granted the last granted position and still has to look at the next one. */
  ghost predicate LoopHolds(s: Node, th: Thread) {
    && th.Remover? && th.pos < |s.rem|
    && var pc := s.rem[th.pos];
       || (pc.Wake? && pc.pos + 1 == s.fnr)
       || (pc.WakeNext? && pc.pos + 1 == s.fnr)
       || (pc.LoopLast? && pc.pos == s.fnr)
       || (pc.LoopCas? && pc.pos == s.fnr)
       || (pc.Recheck? && pc.pos == s.fnr)
  }

  /** Remover x moved first to its present value and still has to look at remove_state there. */
  ghost predicate ChainHolds(s: Node, x: nat) {
    && x < |s.rem|
    && var pc := s.rem[x];
       (pc.Check? || pc.CheckFnr? || pc.AdvanceCas?) && pc.cur == s.first
  }

  /** The node is drained up to firstNotReady while registered tasks still wait. */
  ghost predicate Stranded(s: Node) {
    s.first == s.fnr < s.last
  }

  /** Nothing granted is left and a task waits: the adder or the head remover that emptied the window
      takes over, unless a walker emptied it. */
  ghost predicate DrainedOwned(s: Node)
    requires Shape(s)
  {
    Stranded(s) ==>
      || AdderHolds(s)
      || (s.first > 0 && (HeadHolds(s, s.cleared[s.first - 1].who) || s.cleared[s.first - 1].walker))
  }

  /** A compatible task waits right behind the granted run: the adder or the last granter takes over. */
  ghost predicate RunOwned(s: Node)
    requires Shape(s)
  {
    s.fnr < s.last && Joins(s.modes, s.fnr) ==> AdderHolds(s) || LoopHolds(s, s.granter[s.fnr - 1])
  }

  /** A marked entry at first is about to be passed by its own remover or by the one that moved first there. */
  ghost predicate MarkOwned(s: Node)
    requires Shape(s)
  {
    s.reading == Intended && s.first < s.fnr && s.removed[s.first] ==>
      || s.rem[s.first] == WalkCas
      || (s.first > 0 && ChainHolds(s, s.cleared[s.first - 1].who))
  }

  ghost predicate Inv(s: Node) {
    && Shape(s)
    && AdderOk(s)
    && RemoversOk(s)
    && Window(s)
    && Marked(s)
    && Notified(s)
    && Granted(s)
    && Cleared(s)
    && AsWrittenOk(s)
    && DrainedOwned(s)
    && RunOwned(s)
    && MarkOwned(s)
  }

  // ----- preservation -----

  lemma InitInv(reading: CasReading, modes: seq<AccessMode>, capacity: nat)
    requires |modes| < capacity
    ensures Inv(Init(reading, modes, capacity))
  {
  }

  // -- one adder step --

  lemma AddKeepsShape(s: Node)
    requires Shape(s) && AdderOk(s) && Notified(s)
    ensures Shape(AddStep(s)) && AdderOk(AddStep(s))
  {
  }

  lemma AddKeepsWindow(s: Node)
    requires Shape(s) && AdderOk(s) && Window(s)
    ensures Shape(AddStep(s)) && Window(AddStep(s))
  {
  }

  lemma AddKeepsMarks(s: Node)
    requires Shape(s) && AdderOk(s) && Marked(s) && Cleared(s) && AsWrittenOk(s)
    ensures Shape(AddStep(s)) && Marked(AddStep(s)) && Cleared(AddStep(s)) && AsWrittenOk(AddStep(s))
  {
  }

  lemma AddKeepsNotified(s: Node)
    requires Shape(s) && AdderOk(s) && Notified(s)
    ensures Shape(AddStep(s)) && Notified(AddStep(s))
  {
  }

  lemma AddKeepsGranted(s: Node)
    requires Shape(s) && AdderOk(s) && Granted(s)
    ensures Shape(AddStep(s)) && Granted(AddStep(s))
  {
    var s' := AddStep(s);
    forall p | 0 <= p < s'.fnr && !s'.notified[p] ensures Notifying(s', p) {
      assert p < s.fnr ==> Notifying(s, p);
    }
  }

  lemma AddKeepsDrainedOwned(s: Node)
    requires Shape(s) && AdderOk(s) && DrainedOwned(s)
    ensures Shape(AddStep(s)) && DrainedOwned(AddStep(s))
  {
  }

  lemma AddKeepsRunOwned(s: Node)
    requires Shape(s) && AdderOk(s) && RunOwned(s)
    ensures Shape(AddStep(s)) && RunOwned(AddStep(s))
  {
  }

  lemma AddKeepsMarkOwned(s: Node)
    requires Shape(s) && AdderOk(s) && MarkOwned(s) && Marked(s)
    ensures Shape(AddStep(s)) && MarkOwned(AddStep(s))
  {
  }

  // -- one remover step: what it may do, by effect --

  /** The invariant without the removers' own facts and without the responsibility facts. */
  ghost predicate Core(s: Node) {
    && Shape(s) && AdderOk(s) && Window(s) && Marked(s) && Notified(s) && Cleared(s) && AsWrittenOk(s)
  }

  ghost predicate Owned(s: Node)
    requires Shape(s)
  {
    DrainedOwned(s) && RunOwned(s) && MarkOwned(s)
  }

  /** What a step of another thread leaves alone as far as remover q is concerned. */
  ghost predicate Undisturbed(s: Node, s': Node, q: nat)
    requires Shape(s) && q < |s.modes|
  {
    && Shape(s') && s'.modes == s.modes
    && s'.rem[q] == s.rem[q]
    && s.first <= s'.first && s.fnr <= s'.fnr && s.last <= s'.last
    && s.cleared <= s'.cleared && s.granter <= s'.granter
    && (forall i :: 0 <= i < |s.removed| && s.removed[i] ==> i < |s'.removed| && s'.removed[i])
    && s.removed[q] == s'.removed[q]
    && (forall i :: 0 <= i < s.fnr && s.granter[i] == Remover(q) && !s.notified[i] ==> !s'.notified[i])
    && (s.first <= q < s'.first ==> s.removed[q])
  }

  lemma FrameRemover(s: Node, s': Node, q: nat)
    requires Shape(s) && q < |s.modes| && RemOk(s, q) && Undisturbed(s, s', q)
    ensures RemOk(s', q)
  {
  }

  lemma FrameRemovers(s: Node, s': Node, p: nat)
    requires Shape(s) && RemoversOk(s) && Shape(s') && p < |s'.modes| == |s.modes| && RemOk(s', p)
    requires forall q :: 0 <= q < |s.modes| && q != p ==> Undisturbed(s, s', q)
    ensures RemoversOk(s')
  {
    forall q | 0 <= q < |s'.modes| ensures RemOk(s', q) {
      if q != p {
        assert RemOk(s, q) && Undisturbed(s, s', q);
        FrameRemover(s, s', q);
      }
    }
  }

  /** What a step of remover p may use: the shared facts and p's own. */
  ghost predicate View(s: Node, p: nat) {
    p < |s.modes| && Core(s) && RemOk(s, p) && Owned(s)
  }

  /** Moving remover p to pc keeps p's own facts and leaves no responsibility behind. */
  ghost predicate Lands(s: Node, p: nat, pc: RemPc)
    requires Shape(s) && p < |s.modes|
  {
    RemOk(At(s, p, pc), p) && Owned(At(s, p, pc))
  }

  // -- a step that touches nothing shared --

  lemma MoveCore(s: Node, p: nat, pc: RemPc)
    requires Core(s) && p < |s.modes| && s.notified[p]
    ensures Core(At(s, p, pc))
  {
  }

  lemma MoveGranted(s: Node, p: nat, pc: RemPc)
    requires Shape(s) && Granted(s) && p < |s.modes| && !s.rem[p].Wake? && !s.rem[p].WakeNext?
    ensures Granted(At(s, p, pc))
  {
    var s' := At(s, p, pc);
    forall i | 0 <= i < s'.fnr && !s'.notified[i] ensures Notifying(s', i) {
      assert Notifying(s, i);
    }
  }

  lemma MoveInv(s: Node, p: nat, pc: RemPc)
    requires Inv(s) && p < |s.modes| && s.notified[p]
    requires !s.rem[p].Wake? && !s.rem[p].WakeNext?
    requires Lands(s, p, pc)
    ensures Inv(At(s, p, pc))
  {
    MoveCore(s, p, pc);
    MoveGranted(s, p, pc);
    FrameRemovers(s, At(s, p, pc), p);
  }

  // -- a step that moves first past its present position --

  ghost predicate MayAdvance(s: Node, p: nat, walker: bool)
    requires Shape(s)
  {
    && p < |s.modes| && s.notified[p]
    && (s.rem[p].HeadInc? || s.rem[p].WalkCas? || s.rem[p].AdvanceCas?)
    && p <= s.first < s.fnr
    && (s.first == p || s.removed[s.first])
    && (s.removed[s.first] ==> s.reading == Intended)
    && (walker ==> Joins(s.modes, s.first) && Joins(s.modes, p))
  }

  lemma AdvanceCore(s: Node, p: nat, walker: bool)
    requires Core(s) && MayAdvance(s, p, walker)
    ensures Core(Advance(s, p, s.first, walker))
  {
  }

  lemma AdvanceGranted(s: Node, p: nat, walker: bool)
    requires Shape(s) && Granted(s) && MayAdvance(s, p, walker)
    ensures Shape(Advance(s, p, s.first, walker)) && Granted(Advance(s, p, s.first, walker))
  {
    var s' := Advance(s, p, s.first, walker);
    forall i | 0 <= i < s'.fnr && !s'.notified[i] ensures Notifying(s', i) {
      assert Notifying(s, i);
    }
  }

  lemma AdvanceOwned(s: Node, p: nat, walker: bool)
    requires Shape(s) && RunOwned(s) && MayAdvance(s, p, walker)
    ensures Shape(Advance(s, p, s.first, walker)) && Owned(Advance(s, p, s.first, walker))
  {
  }

  lemma AdvanceInv(s: Node, p: nat, walker: bool)
    requires Inv(s) && MayAdvance(s, p, walker)
    ensures Inv(Advance(s, p, s.first, walker))
  {
    AdvanceCore(s, p, walker);
    AdvanceGranted(s, p, walker);
    AdvanceOwned(s, p, walker);
    FrameRemovers(s, Advance(s, p, s.first, walker), p);
  }

  // -- a step that grants the position at firstNotReady --

  ghost predicate MayGrant(s: Node, p: nat, won: RemPc)
    requires Shape(s)
  {
    && p < |s.modes| && s.notified[p] && p < s.first
    && (s.rem[p].GrantCas? || s.rem[p].LoopCas?)
    && s.fnr < s.last && (s.first == s.fnr || Joins(s.modes, s.fnr))
    && (won == Wake(s.fnr)
        || (won.WakeNext? && won.pos == s.fnr < won.seenLast <= s.last && won.mode == s.modes[s.fnr]))
  }

  lemma GrantCore(s: Node, p: nat, won: RemPc)
    requires Core(s) && MayGrant(s, p, won)
    ensures Core(Grant(s, p, s.fnr, won))
  {
  }

  lemma GrantGranted(s: Node, p: nat, won: RemPc)
    requires Shape(s) && Granted(s) && MayGrant(s, p, won)
    ensures Shape(Grant(s, p, s.fnr, won)) && Granted(Grant(s, p, s.fnr, won))
  {
    var s' := Grant(s, p, s.fnr, won);
    forall i | 0 <= i < s'.fnr && !s'.notified[i] ensures Notifying(s', i) {
      assert i < s.fnr ==> Notifying(s, i);
    }
  }

  lemma GrantOwned(s: Node, p: nat, won: RemPc)
    requires Shape(s) && Marked(s) && MarkOwned(s) && MayGrant(s, p, won)
    ensures Shape(Grant(s, p, s.fnr, won)) && Owned(Grant(s, p, s.fnr, won))
  {
  }

  lemma GrantInv(s: Node, p: nat, won: RemPc)
    requires Inv(s) && MayGrant(s, p, won)
    ensures Inv(Grant(s, p, s.fnr, won))
  {
    GrantCore(s, p, won);
    GrantGranted(s, p, won);
    GrantOwned(s, p, won);
    FrameRemovers(s, Grant(s, p, s.fnr, won), p);
  }

  // -- a walker publishes remove_state --

  ghost predicate MayMark(s: Node, p: nat)
    requires Shape(s)
  {
    p < |s.modes| && s.notified[p] && s.rem[p].Walk? && s.first <= p < s.fnr && Joins(s.modes, p)
  }

  lemma MarkCore(s: Node, p: nat)
    requires Core(s) && MayMark(s, p)
    ensures Core(Mark(s, p))
  {
  }

  lemma MarkGranted(s: Node, p: nat)
    requires Shape(s) && Granted(s) && MayMark(s, p)
    ensures Shape(Mark(s, p)) && Granted(Mark(s, p))
  {
    var s' := Mark(s, p);
    forall i | 0 <= i < s'.fnr && !s'.notified[i] ensures Notifying(s', i) {
      assert Notifying(s, i);
    }
  }

  lemma MarkInv(s: Node, p: nat)
    requires Inv(s) && MayMark(s, p)
    ensures Inv(Mark(s, p))
  {
    MarkCore(s, p);
    MarkGranted(s, p);
    FrameRemovers(s, Mark(s, p), p);
  }

  // -- a granter decrements the wait counter of the position it granted --

  ghost predicate MayNotify(s: Node, p: nat, pos: nat)
    requires Shape(s)
  {
    && p < |s.modes| && s.notified[p]
    && pos < s.fnr && s.granter[pos] == Remover(p)
    && (s.rem[p] == Wake(pos) || (s.rem[p].WakeNext? && s.rem[p].pos == pos))
  }

  lemma NotifyCore(s: Node, p: nat, pos: nat, next: RemPc)
    requires Core(s) && MayNotify(s, p, pos)
    ensures Core(Notify(s, p, pos, next))
  {
  }

  lemma NotifyGranted(s: Node, p: nat, pos: nat, next: RemPc)
    requires Shape(s) && Granted(s) && MayNotify(s, p, pos)
    ensures Shape(Notify(s, p, pos, next)) && Granted(Notify(s, p, pos, next))
  {
    var s' := Notify(s, p, pos, next);
    forall i | 0 <= i < s'.fnr && !s'.notified[i] ensures Notifying(s', i) {
      assert Notifying(s, i);
    }
  }

  lemma NotifyLands(s: Node, p: nat, pos: nat, next: RemPc)
    requires Shape(s) && MayNotify(s, p, pos) && !next.Wake? && !next.WakeNext? && Lands(s, p, next)
    ensures Shape(Notify(s, p, pos, next)) && RemOk(Notify(s, p, pos, next), p) && Owned(Notify(s, p, pos, next))
  {
  }

  lemma NotifyUndisturbed(s: Node, p: nat, pos: nat, next: RemPc, q: nat)
    requires Shape(s) && MayNotify(s, p, pos) && q < |s.modes| && q != p
    ensures Undisturbed(s, Notify(s, p, pos, next), q)
  {
  }

  lemma NotifyInv(s: Node, p: nat, pos: nat, next: RemPc)
    requires Inv(s) && MayNotify(s, p, pos)
    requires !next.Wake? && !next.WakeNext? && Lands(s, p, next)
    ensures Inv(Notify(s, p, pos, next))
  {
    NotifyCore(s, p, pos, next);
    NotifyGranted(s, p, pos, next);
    NotifyLands(s, p, pos, next);
    forall q | 0 <= q < |s.modes| && q != p ensures Undisturbed(s, Notify(s, p, pos, next), q) {
      NotifyUndisturbed(s, p, pos, next, q);
    }
    FrameRemovers(s, Notify(s, p, pos, next), p);
  }

  // -- every program counter of a remover --

  lemma NotStartedLands(s: Node, p: nat)
    requires View(s, p) && s.rem[p].NotStarted? && s.notified[p]
    ensures Lands(s, p, if s.first == p then HeadInc else WalkLoad(s.first + 1))
  {
  }

  lemma WalkLoadLands(s: Node, p: nat)
    requires View(s, p) && s.rem[p].WalkLoad?
    ensures Lands(s, p, Walk(s.rem[p].cur, s.fnr))
  {
  }

  lemma WalkLands(s: Node, p: nat)
    requires View(s, p) && s.rem[p].Walk? && s.rem[p].cur != p
    ensures s.rem[p].cur != s.rem[p].seen && Lands(s, p, Walk(s.rem[p].cur + 1, s.rem[p].seen))
  {
  }

  lemma WalkMarks(s: Node, p: nat)
    requires View(s, p) && s.rem[p].Walk? && s.rem[p].cur == p
    ensures s.rem[p].cur != s.rem[p].seen && (s.notified[p] ==> MayMark(s, p))
  {
  }

  lemma HeadIncAdvances(s: Node, p: nat)
    requires View(s, p) && s.rem[p].HeadInc?
    ensures s.notified[p] ==> MayAdvance(s, p, false)
  {
  }

  lemma WalkCasAdvances(s: Node, p: nat)
    requires View(s, p) && s.rem[p].WalkCas?
    ensures
      if s.first == Expected(s.reading, p)
      then s.first == p && (s.notified[p] ==> MayAdvance(s, p, true))
      else Lands(s, p, Done)
  {
  }

  lemma AdvanceCasAdvances(s: Node, p: nat)
    requires View(s, p) && s.rem[p].AdvanceCas?
    ensures
      if s.first == Expected(s.reading, s.rem[p].cur)
      then s.first == s.rem[p].cur && (s.notified[p] ==> MayAdvance(s, p, s.rem[p].walker))
      else Lands(s, p, Done)
  {
  }

  lemma CheckMarked(s: Node, p: nat)
    requires View(s, p) && s.rem[p].Check? && s.rem[p].cur < |s.removed| && s.removed[s.rem[p].cur]
    ensures Lands(s, p, CheckFnr(s.rem[p].cur, s.rem[p].walker))
  {
  }

  lemma CheckUnmarked(s: Node, p: nat)
    requires View(s, p) && s.rem[p].Check? && s.rem[p].cur < |s.removed| && !s.removed[s.rem[p].cur]
    ensures Lands(s, p, if s.rem[p].walker then Done else GrantFnr(s.rem[p].cur))
  {
  }

  lemma CheckLands(s: Node, p: nat)
    requires View(s, p) && s.rem[p].Check?
    ensures
      var Check(cur, walker) := s.rem[p];
      && cur < |s.removed|
      && Lands(s, p, if s.removed[cur] then CheckFnr(cur, walker) else if walker then Done else GrantFnr(cur))
  {
    if s.removed[s.rem[p].cur] {
      CheckMarked(s, p);
    } else {
      CheckUnmarked(s, p);
    }
  }

  lemma CheckFnrLands(s: Node, p: nat)
    requires View(s, p) && s.rem[p].CheckFnr?
    ensures s.rem[p].cur != s.fnr && Lands(s, p, AdvanceCas(s.rem[p].cur, s.rem[p].walker))
  {
  }

  lemma GrantFnrLands(s: Node, p: nat)
    requires View(s, p) && s.rem[p].GrantFnr?
    ensures Lands(s, p, GrantLast(s.rem[p].cur, s.fnr))
  {
  }

  lemma GrantLastLands(s: Node, p: nat)
    requires View(s, p) && s.rem[p].GrantLast?
    ensures
      var GrantLast(cur, seen) := s.rem[p];
      Lands(s, p, if seen == cur && s.last != cur then GrantCas(seen) else Done)
  {
  }

  lemma GrantCasGrants(s: Node, p: nat)
    requires View(s, p) && s.rem[p].GrantCas?
    ensures
      if s.fnr == s.rem[p].pos
      then s.notified[p] ==> MayGrant(s, p, Wake(s.fnr))
      else Lands(s, p, Done)
  {
  }

  lemma WakeNotifies(s: Node, p: nat)
    requires View(s, p) && s.rem[p].Wake?
    ensures
      var pos := s.rem[p].pos;
      && pos < s.fnr && (s.notified[p] ==> MayNotify(s, p, pos))
      && Lands(s, p, LoopLast(s.modes[pos], pos + 1, false))
  {
  }

  lemma LoopLastMore(s: Node, p: nat)
    requires View(s, p) && s.rem[p].LoopLast? && s.rem[p].pos != s.last
    ensures Lands(s, p, Inner(s.modes, s.rem[p].mode, s.rem[p].pos, s.last, s.rem[p].parallelExit))
  {
  }

  lemma LoopLastEnd(s: Node, p: nat)
    requires View(s, p) && s.rem[p].LoopLast? && s.rem[p].pos == s.last
    ensures Lands(s, p, Inner(s.modes, s.rem[p].mode, s.rem[p].pos, s.last, s.rem[p].parallelExit))
  {
  }

  lemma LoopLastLands(s: Node, p: nat)
    requires View(s, p) && s.rem[p].LoopLast?
    ensures Lands(s, p, Inner(s.modes, s.rem[p].mode, s.rem[p].pos, s.last, s.rem[p].parallelExit))
  {
    if s.rem[p].pos != s.last {
      LoopLastMore(s, p);
    } else {
      LoopLastEnd(s, p);
    }
  }

  lemma LoopCasGrants(s: Node, p: nat)
    requires View(s, p) && s.rem[p].LoopCas?
    ensures
      var LoopCas(mode, pos, seenLast) := s.rem[p];
      if s.fnr == pos
      then s.notified[p] ==> MayGrant(s, p, WakeNext(mode, pos, seenLast))
      else Lands(s, p, Done)
  {
  }

  lemma WakeNextNotifies(s: Node, p: nat)
    requires View(s, p) && s.rem[p].WakeNext?
    ensures
      s.rem[p].pos < s.fnr && (s.notified[p] ==> MayNotify(s, p, s.rem[p].pos))
  {
  }

  lemma WakeNextLands(s: Node, p: nat)
    requires View(s, p) && s.rem[p].WakeNext?
    ensures
      var WakeNext(mode, pos, seenLast) := s.rem[p];
      Lands(s, p, Inner(s.modes, mode, pos + 1, seenLast, true))
  {
  }

  lemma RecheckLands(s: Node, p: nat)
    requires View(s, p) && s.rem[p].Recheck?
    ensures
      var Recheck(mode, pos, seenLast) := s.rem[p];
      Lands(s, p, if seenLast != s.last then LoopLast(mode, pos, true) else Done)
  {
  }

  lemma StartStepInv(s: Node, p: nat)
    requires Inv(s) && p < |s.modes|
    requires s.rem[p].NotStarted? || s.rem[p].HeadInc? || s.rem[p].WalkLoad?
    ensures Inv(RemStep(s, p))
  {
    assert RemOk(s, p);
    match s.rem[p]
    case NotStarted =>
      if s.notified[p] {
        NotStartedLands(s, p);
        MoveInv(s, p, if s.first == p then HeadInc else WalkLoad(s.first + 1));
      }
    case HeadInc =>
      HeadIncAdvances(s, p);
      AdvanceInv(s, p, false);
    case WalkLoad(cur) =>
      WalkLoadLands(s, p);
      MoveInv(s, p, Walk(cur, s.fnr));
  }

  lemma WalkStepInv(s: Node, p: nat)
    requires Inv(s) && p < |s.modes|
    requires s.rem[p].Walk? || s.rem[p].WalkCas?
    ensures Inv(RemStep(s, p))
  {
    assert RemOk(s, p);
    match s.rem[p]
    case Walk(cur, seen) =>
      if cur == p {
        WalkMarks(s, p);
        MarkInv(s, p);
      } else {
        WalkLands(s, p);
        MoveInv(s, p, Walk(cur + 1, seen));
      }
    case WalkCas =>
      WalkCasAdvances(s, p);
      if s.first == Expected(s.reading, p) { AdvanceInv(s, p, true); } else { MoveInv(s, p, Done); }
  }

  lemma ClearStepInv(s: Node, p: nat)
    requires Inv(s) && p < |s.modes|
    requires s.rem[p].Check? || s.rem[p].CheckFnr? || s.rem[p].AdvanceCas?
    ensures Inv(RemStep(s, p))
  {
    assert RemOk(s, p);
    match s.rem[p]
    case Check(cur, walker) =>
      CheckLands(s, p);
      MoveInv(s, p, if s.removed[cur] then CheckFnr(cur, walker) else if walker then Done else GrantFnr(cur));
    case CheckFnr(cur, walker) =>
      CheckFnrLands(s, p);
      MoveInv(s, p, AdvanceCas(cur, walker));
    case AdvanceCas(cur, walker) =>
      AdvanceCasAdvances(s, p);
      if s.first == Expected(s.reading, cur) { AdvanceInv(s, p, walker); } else { MoveInv(s, p, Done); }
  }

  lemma GrantStepInv(s: Node, p: nat)
    requires Inv(s) && p < |s.modes|
    requires s.rem[p].GrantFnr? || s.rem[p].GrantLast? || s.rem[p].GrantCas?
    ensures Inv(RemStep(s, p))
  {
    assert RemOk(s, p);
    match s.rem[p]
    case GrantFnr(cur) =>
      GrantFnrLands(s, p);
      MoveInv(s, p, GrantLast(cur, s.fnr));
    case GrantLast(cur, seen) =>
      GrantLastLands(s, p);
      MoveInv(s, p, if seen == cur && s.last != cur then GrantCas(seen) else Done);
    case GrantCas(pos) =>
      GrantCasGrants(s, p);
      if s.fnr == pos { GrantInv(s, p, Wake(s.fnr)); } else { MoveInv(s, p, Done); }
  }

  lemma WakeStepInv(s: Node, p: nat)
    requires Inv(s) && p < |s.modes| && s.rem[p].Wake?
    ensures Inv(RemStep(s, p))
  {
    assert RemOk(s, p);
    var pos := s.rem[p].pos;
    WakeNotifies(s, p);
    NotifyInv(s, p, pos, LoopLast(s.modes[pos], pos + 1, false));
  }

  lemma WakeNextStepInv(s: Node, p: nat)
    requires Inv(s) && p < |s.modes| && s.rem[p].WakeNext?
    ensures Inv(RemStep(s, p))
  {
    assert RemOk(s, p);
    var WakeNext(mode, pos, seenLast) := s.rem[p];
    WakeNextNotifies(s, p);
    WakeNextLands(s, p);
    NotifyInv(s, p, pos, Inner(s.modes, mode, pos + 1, seenLast, true));
  }

  lemma LoopStepInv(s: Node, p: nat)
    requires Inv(s) && p < |s.modes|
    requires s.rem[p].LoopLast? || s.rem[p].LoopCas? || s.rem[p].Recheck?
    ensures Inv(RemStep(s, p))
  {
    assert RemOk(s, p);
    match s.rem[p]
    case LoopLast(mode, pos, parallelExit) =>
      LoopLastLands(s, p);
      MoveInv(s, p, Inner(s.modes, mode, pos, s.last, parallelExit));
    case LoopCas(mode, pos, seenLast) =>
      LoopCasGrants(s, p);
      if s.fnr == pos { GrantInv(s, p, WakeNext(mode, pos, seenLast)); } else { MoveInv(s, p, Done); }
    case Recheck(mode, pos, seenLast) =>
      RecheckLands(s, p);
      MoveInv(s, p, if seenLast != s.last then LoopLast(mode, pos, true) else Done);
  }

  lemma RemStepInv(s: Node, p: nat)
    requires Inv(s) && p < |s.modes|
    ensures Inv(RemStep(s, p))
  {
    var pc := s.rem[p];
    if pc.NotStarted? || pc.HeadInc? || pc.WalkLoad? {
      StartStepInv(s, p);
    } else if pc.Walk? || pc.WalkCas? {
      WalkStepInv(s, p);
    } else if pc.Check? || pc.CheckFnr? || pc.AdvanceCas? {
      ClearStepInv(s, p);
    } else if pc.GrantFnr? || pc.GrantLast? || pc.GrantCas? {
      GrantStepInv(s, p);
    } else if pc.Wake? {
      WakeStepInv(s, p);
    } else if pc.WakeNext? {
      WakeNextStepInv(s, p);
    } else if !pc.Done? {
      LoopStepInv(s, p);
    }
  }

  lemma AddStepInv(s: Node)
    requires Inv(s)
    ensures Inv(AddStep(s))
  {
    AddKeepsShape(s);
    AddKeepsWindow(s);
    AddKeepsMarks(s);
    AddKeepsNotified(s);
    AddKeepsGranted(s);
    AddKeepsDrainedOwned(s);
    AddKeepsRunOwned(s);
    AddKeepsMarkOwned(s);
    AddKeepsRemovers(s);
  }

  lemma AddKeepsRemovers(s: Node)
    requires Shape(s) && AdderOk(s) && RemoversOk(s) && Shape(AddStep(s))
    ensures RemoversOk(AddStep(s))
  {
    var s' := AddStep(s);
    forall q | 0 <= q < |s'.modes| ensures RemOk(s', q) {
      assert RemOk(s, q) && Undisturbed(s, s', q);
      FrameRemover(s, s', q);
    }
  }

  lemma StepInv(s: Node, th: Thread)
    requires Inv(s)
    ensures Inv(Step(s, th))
  {
    match th
    case Adder => AddStepInv(s);
    case Remover(p) => if p < |s.modes| { RemStepInv(s, p); }
  }

  /** The invariant holds in every state of every interleaving. */
  lemma {:induction false} ExecInv(s: Node, schedule: seq<Thread>)
    requires Inv(s)
    ensures Inv(Exec(s, schedule))
    decreases |schedule|
  {
    if schedule != [] {
      StepInv(s, schedule[0]);
      ExecInv(Step(s, schedule[0]), schedule[1..]);
    }
  }

  // ----- what a step leaves unchanged -----

  lemma RemoverFrame(s: Node, p: nat)
    requires Sized(s) && p < |s.modes|
    ensures
      var s' := RemStep(s, p);
      && s'.adder == s.adder && s'.last == s.last
      && forall q :: 0 <= q < |s.rem| && q != p ==> s'.rem[q] == s.rem[q]
  {
  }

  lemma RemoverNotifies(s: Node, p: nat)
    requires Inv(s) && p < |s.modes|
    ensures
      var s' := RemStep(s, p);
      match Target(s, Remover(p))
      case None => s'.notified == s.notified
      case Some(pos) => pos < s.fnr && !s.notified[pos] && s'.notified == s.notified[pos := true]
  {
    assert RemOk(s, p);
  }

  lemma AdderFrame(s: Node)
    requires Inv(s)
    ensures
      var s' := AddStep(s);
      && s'.rem == s.rem
      && (match Target(s, Adder)
          case None => s'.notified == s.notified
          case Some(pos) =>
            pos + 1 == s.last && pos < s.fnr && !s.notified[pos] && s'.notified == s.notified[pos := true])
      && s'.last == (if s.adder.AddStored? then s.last + 1 else s.last)
  {
  }
}
