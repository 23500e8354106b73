/**
  Who holds what, in every state the threads can reach: the read lock is held by exactly the
  ghosts in flight, the write lock excludes them all, each cell mutex is held by the thread whose
  program counter says so, and once the ghosts have been told to stop none starts another move.
 */
module ThreadLocks {
  import opened Maze
  import opened Threads

  /** The mutexes lo..hi-1 of a plan. */
  datatype Span = NoSpan | Span(p: Plan, lo: nat, hi: nat)

  function HeldSpan(pc: Pc): Span {
    match pc
    case Locking(p, k) => Span(p, 0, k)
    case Look(p, j) => Span(p, 0, p.reach + 1)
    case Kill1(p, j) => Span(p, 0, p.reach + 1)
    case Kill2(p, j) => Span(p, 0, p.reach + 1)
    case Clear(p, j) => if p.charged then NoSpan else Span(p, 0, p.reach + 1)
    case SetPos(p, j) => if p.charged then NoSpan else Span(p, 0, p.reach + 1)
    case Mark(p, j) => if p.charged then NoSpan else Span(p, 0, p.reach + 1)
    case Unlocking(p, k, j, pending) => Span(p, k, p.reach + 1)
    case _ => NoSpan
  }

  function KeptSpan(kept: Kept): Span {
    if kept.Portal? then Span(kept.p, 0, 2) else NoSpan
  }

  function KeptBy(m: MainPc): Kept {
    match m
    case Releasing(kept) => kept
    case Stopping(kept) => kept
    case Flagging(kept) => kept
    case Flagged(kept) => kept
    case Joining(kept, i) => kept
    case Unloaded(kept) => kept
    case _ => Nothing
  }

  function MainSpan(m: MainPc): Span {
    match m
    case MainLocking(p, k) => Span(p, 0, k)
    case Moving(p) => Span(p, 0, 2)
    case MainUnlocking(p, k) => Span(p, k, 2)
    case _ => KeptSpan(KeptBy(m))
  }

  predicate SpanIn(width: int, height: int, sp: Span) {
    sp.Span? ==> PlanIn(width, height, sp.p) && sp.hi <= sp.p.reach + 1
  }

  /** The span contains the mutex of cell c. */
  ghost predicate Holds(width: int, height: int, sp: Span, c: int)
    requires SpanIn(width, height, sp)
  {
    sp.Span? && exists k :: sp.lo <= k < sp.hi && LockIndex(width, height, sp.p, k) == c
  }

  predicate OwnedBy(s: Sys, c: int, t: Thread) {
    c in s.owner && s.owner[c] == t
  }

  /** A ghost that can no longer start a move. */
  predicate WindingDown(pc: Pc) {
    pc.Sleeping? || pc.Entered? || pc == Leaving(true) || pc.Done?
  }

  ghost predicate ReadersInFlight(s: Sys) {
    forall g: nat :: g in s.readers <==> g < |s.pc| && InFlight(s.pc[g])
  }

  ghost predicate OwnersRight(s: Sys)
    requires Shaped(s)
  {
    && (forall g: nat, c :: g < |s.pc| ==>
         (OwnedBy(s, c, GhostThread(g)) <==> Holds(s.b.width, s.b.height, HeldSpan(s.pc[g]), c)))
    && (forall c :: c in s.owner && s.owner[c].GhostThread? ==> s.owner[c].g < |s.pc|)
    && (forall c :: OwnedBy(s, c, MainThread) <==> Holds(s.b.width, s.b.height, MainSpan(s.main), c))
  }

  ghost predicate StopOrder(s: Sys) {
    if s.main.Flagged? || s.main.Joining? then
      && s.shutdown
      && (forall g :: 0 <= g < |s.pc| ==> WindingDown(s.pc[g]))
      && (s.main.Joining? ==> s.main.i <= |s.pc| && forall g :: 0 <= g < s.main.i ==> s.pc[g].Done?)
    else if s.main.Unloaded? then
      !s.shutdown && forall g :: 0 <= g < |s.pc| ==> s.pc[g].Done?
    else
      && !s.shutdown
      && forall g :: 0 <= g < |s.pc| ==> !s.pc[g].Done? && s.pc[g] != Leaving(true)
  }

  ghost predicate LockInv(s: Sys) {
    && Shaped(s) && ReadersInFlight(s) && OwnersRight(s) && StopOrder(s)
    && s.writer == MainWrites(s.main) && (s.writer ==> s.readers == {})
  }

  // ----- the order of the mutexes

  lemma MulMonotone(a: int, b: int, w: int)
    requires a < b && w > 0
    ensures a * w + w <= b * w
  {
    var d := b - a - 1;
    assert d * w >= 0;
    assert (a + 1 + d) * w == a * w + w + d * w;
  }

  /** Every move takes its mutexes in strictly ascending index order, along rows and columns alike. */
  lemma LocksAscend(width: int, height: int, p: Plan, i: int, j: int)
    requires PlanIn(width, height, p) && 0 <= i < j <= p.reach
    ensures LockIndex(width, height, p, i) < LockIndex(width, height, p, j)
  {
    if p.d == 'W' {
      MulMonotone(p.start.y - (p.reach - i), p.start.y - (p.reach - j), width);
    } else if p.d == 'S' {
      MulMonotone(p.start.y + i, p.start.y + j, width);
    }
  }

  lemma SpanGrows(width: int, height: int, p: Plan, k: nat, c: int)
    requires PlanIn(width, height, p) && k <= p.reach
    ensures Holds(width, height, Span(p, 0, k + 1), c) <==>
            Holds(width, height, Span(p, 0, k), c) || c == LockIndex(width, height, p, k)
  {
  }

  lemma SpanShrinks(width: int, height: int, p: Plan, k: nat, hi: nat, c: int)
    requires PlanIn(width, height, p) && k < hi <= p.reach + 1
    ensures Holds(width, height, Span(p, k + 1, hi), c) <==>
            Holds(width, height, Span(p, k, hi), c) && c != LockIndex(width, height, p, k)
  {
    if Holds(width, height, Span(p, k + 1, hi), c) {
      var j :| k + 1 <= j < hi && LockIndex(width, height, p, j) == c;
      LocksAscend(width, height, p, k, j);
    }
  }

  // ----- every step keeps the invariant

  predicate Empty(sp: Span) {
    sp.NoSpan? || sp.lo >= sp.hi
  }

  lemma GhostSpanMoves(s: Sys, g: nat, rnd: nat)
    requires Shaped(s) && Enabled(s, GhostDoes(g, rnd))
    ensures var old', new' := HeldSpan(s.pc[g]), HeldSpan(PcAfter(s, g, rnd));
            match s.pc[g]
            case Locking(p, k) => new' == Span(p, 0, k + 1)
            case Unlocking(p, k, j, pending) => new' == Span(p, k + 1, p.reach + 1) || (k == p.reach && Empty(new'))
            case _ => new' == old' || (Empty(old') && Empty(new'))
  {
  }

  /** A ghost's span changes by the mutex it takes or releases. */
  lemma SpanAfter(s: Sys, g: nat, rnd: nat, c: int)
    requires Shaped(s) && Enabled(s, GhostDoes(g, rnd))
    ensures var w, h := s.b.width, s.b.height;
            var old', new' := HeldSpan(s.pc[g]), HeldSpan(PcAfter(s, g, rnd));
            Holds(w, h, new', c) <==>
              match s.pc[g]
              case Locking(p, k) => Holds(w, h, old', c) || c == LockOf(s, p, k)
              case Unlocking(p, k, j, pending) => Holds(w, h, old', c) && c != LockOf(s, p, k)
              case _ => Holds(w, h, old', c)
  {
    GhostSpanMoves(s, g, rnd);
    match s.pc[g]
    case Locking(p, k) => SpanGrows(s.b.width, s.b.height, p, k, c);
    case Unlocking(p, k, j, pending) => SpanShrinks(s.b.width, s.b.height, p, k, p.reach + 1, c);
    case _ =>
  }

  lemma GhostKeepsOwners(s: Sys, g: nat, rnd: nat)
    requires LockInv(s) && Enabled(s, GhostDoes(g, rnd))
    ensures OwnersRight(GhostNext(s, g, rnd))
  {
    var t := GhostNext(s, g, rnd);
    var w, h := s.b.width, s.b.height;
    forall i: nat, c | i < |t.pc|
      ensures OwnedBy(t, c, GhostThread(i)) <==> Holds(w, h, HeldSpan(t.pc[i]), c)
    {
      assert OwnedBy(s, c, GhostThread(i)) <==> Holds(w, h, HeldSpan(s.pc[i]), c);
      SpanAfter(s, g, rnd, c);
      if s.pc[g].Unlocking? {
        OwnsNext(s, g);
      }
    }
    forall c ensures OwnedBy(t, c, MainThread) <==> Holds(w, h, MainSpan(t.main), c) {
      assert OwnedBy(s, c, MainThread) <==> Holds(w, h, MainSpan(s.main), c);
      if s.pc[g].Unlocking? {
        OwnsNext(s, g);
      }
    }
  }

  /** The mutex a ghost releases next is its own. */
  lemma OwnsNext(s: Sys, g: nat)
    requires LockInv(s) && g < |s.pc| && s.pc[g].Unlocking?
    ensures OwnedBy(s, LockOf(s, s.pc[g].p, s.pc[g].k), GhostThread(g))
  {
    var c := LockOf(s, s.pc[g].p, s.pc[g].k);
    assert Holds(s.b.width, s.b.height, HeldSpan(s.pc[g]), c);
  }

  lemma GhostKeepsReaders(s: Sys, g: nat, rnd: nat)
    requires LockInv(s) && Enabled(s, GhostDoes(g, rnd))
    ensures ReadersInFlight(GhostNext(s, g, rnd))
    ensures s.writer ==> GhostNext(s, g, rnd).readers == {}
  {
  }

  lemma GhostKeepsStopOrder(s: Sys, g: nat, rnd: nat)
    requires LockInv(s) && Enabled(s, GhostDoes(g, rnd))
    ensures StopOrder(GhostNext(s, g, rnd))
  {
  }

  lemma MainSpanMoves(s: Sys, m: MainChoice)
    requires Shaped(s) && Enabled(s, MainDoes(m))
    ensures var old', new' := MainSpan(s.main), MainSpan(MainNext(s, m).main);
            match s.main
            case MainLocking(p, k) => new' == Span(p, 0, k + 1)
            case MainUnlocking(p, k) => new' == Span(p, k + 1, 2) || (k == 1 && Empty(new'))
            case _ => new' == old' || (Empty(old') && Empty(new'))
  {
    hide PacmanStep, PacmanTurn, ChoosePacman;
  }

  lemma MainSpanAfter(s: Sys, m: MainChoice, c: int)
    requires Shaped(s) && Enabled(s, MainDoes(m))
    ensures var w, h := s.b.width, s.b.height;
            var old', new' := MainSpan(s.main), MainSpan(MainNext(s, m).main);
            Holds(w, h, new', c) <==>
              match s.main
              case MainLocking(p, k) => Holds(w, h, old', c) || c == LockOf(s, p, k)
              case MainUnlocking(p, k) => Holds(w, h, old', c) && c != LockOf(s, p, k)
              case _ => Holds(w, h, old', c)
  {
    MainSpanMoves(s, m);
    match s.main
    case MainLocking(p, k) => SpanGrows(s.b.width, s.b.height, p, k, c);
    case MainUnlocking(p, k) => SpanShrinks(s.b.width, s.b.height, p, k, 2, c);
    case _ =>
  }

  function MainOwnerAfter(s: Sys): map<int, Thread>
    requires Shaped(s)
  {
    match s.main
    case MainLocking(p, k) => s.owner[LockOf(s, p, k) := MainThread]
    case MainUnlocking(p, k) => Remove(s.owner, LockOf(s, p, k))
    case _ => s.owner
  }

  lemma MainFrame(s: Sys, m: MainChoice)
    requires Shaped(s) && Enabled(s, MainDoes(m))
    ensures var t := MainNext(s, m);
            && t.owner == MainOwnerAfter(s) && t.pc == s.pc && t.readers == s.readers
            && t.b.width == s.b.width && t.b.height == s.b.height
  {
    hide PacmanStep, PacmanTurn, ChoosePacman;
  }

  lemma MainKeepsOwners(s: Sys, m: MainChoice)
    requires LockInv(s) && Enabled(s, MainDoes(m))
    ensures OwnersRight(MainNext(s, m))
  {
    hide MainNext;
    var t := MainNext(s, m);
    var w, h := s.b.width, s.b.height;
    MainFrame(s, m);
    if s.main.MainUnlocking? {
      assert Holds(w, h, MainSpan(s.main), LockOf(s, s.main.p, s.main.k));
      assert OwnedBy(s, LockOf(s, s.main.p, s.main.k), MainThread);
    }
    forall c ensures OwnedBy(t, c, MainThread) <==> Holds(w, h, MainSpan(t.main), c) {
      assert OwnedBy(s, c, MainThread) <==> Holds(w, h, MainSpan(s.main), c);
      MainSpanAfter(s, m, c);
    }
    forall i: nat, c | i < |t.pc|
      ensures OwnedBy(t, c, GhostThread(i)) <==> Holds(w, h, HeldSpan(t.pc[i]), c)
    {
      assert OwnedBy(s, c, GhostThread(i)) <==> Holds(w, h, HeldSpan(s.pc[i]), c);
    }
  }

  lemma MainKeepsRest(s: Sys, m: MainChoice)
    requires LockInv(s) && Enabled(s, MainDoes(m))
    ensures var t := MainNext(s, m);
            && ReadersInFlight(t) && StopOrder(t)
            && t.writer == MainWrites(t.main) && (t.writer ==> t.readers == {})
  {
    assert s.main.Flagging? ==> forall g: nat :: g < |s.pc| ==> g !in s.readers;
  }

  lemma StepKeepsLockInv(s: Sys, a: Step)
    requires LockInv(s) && Enabled(s, a)
    ensures LockInv(Next(s, a))
  {
    match a
    case GhostDoes(g, rnd) =>
      GhostKeepsOwners(s, g, rnd);
      GhostKeepsReaders(s, g, rnd);
      GhostKeepsStopOrder(s, g, rnd);
    case MainDoes(m) =>
      MainKeepsOwners(s, m);
      MainKeepsRest(s, m);
  }

  lemma InitialLockInv(s: Sys)
    requires Initial(s)
    ensures LockInv(s)
  {
  }

  lemma {:induction false} LockInvAlways(s: Sys, steps: seq<Step>)
    requires LockInv(s) && CanRun(s, steps)
    ensures LockInv(Execute(s, steps))
    decreases |steps|
  {
    if steps != [] {
      StepKeepsLockInv(s, steps[0]);
      LockInvAlways(Next(s, steps[0]), steps[1..]);
    }
  }
}
