/**
  The fine-grained ghosts against the atomic game. A ghost's call takes effect at one point: at
  once when it moves nothing on the board, and otherwise when, holding the mutexes of its move, it
  has read how far it can go. `View` shows the board with every call up to its point of effect not
  begun and every call past it complete. A charge gives its mutexes back before it writes; what it
  is about to write is its claim, and as long as nobody reads a cell that another ghost claims the
  view stays a board of the atomic game. The portal exit does not disturb it.
 */
module ThreadView {
  import opened Maze
  import opened Agreement
  import opened Threads
  import opened ThreadLocks
  import opened ThreadProgress
  import opened Landing

  /** Past the point of effect and not yet written out. */
  predicate Committed(pc: Pc) {
    pc.Kill1? || pc.Kill2? || pc.Clear? || pc.SetPos? || pc.Mark? || (pc.Unlocking? && pc.pending)
  }

  /** The call has a move on the board that has not taken effect. */
  predicate Undecided(pc: Pc) {
    pc.Locking? || pc.Look?
  }

  // ----- claims

  /** Ghost g is completing a move that ends on cell c. */
  predicate Ends(s: Sys, g: nat, c: int)
    requires Shaped(s)
  {
    g < |s.pc| && Committed(s.pc[g]) && c == CellOf(s, s.pc[g].p, s.pc[g].j)
  }

  /** Ghost g is completing a move: the cell where it still stands, and the one where it will. */
  predicate Claims(s: Sys, g: nat, c: int)
    requires Shaped(s)
  {
    && g < |s.pc| && Committed(s.pc[g])
    && ((!s.pc[g].Mark? && c == CellOf(s, s.pc[g].p, 0)) || c == CellOf(s, s.pc[g].p, s.pc[g].j))
  }

  /** The cells that ghost g's move rests on: its claims, or what it has read, or where it stands. */
  ghost predicate Touches(s: Sys, g: nat, c: int)
    requires Shaped(s) && g < |s.pc|
  {
    if Committed(s.pc[g]) then Claims(s, g, c)
    else if s.pc[g].Look? then exists m :: 0 <= m < s.pc[g].j && CellOf(s, s.pc[g].p, m) == c
    else c == GhostIndex(s.b, g)
  }

  ghost predicate ClaimsApart(s: Sys)
    requires Shaped(s)
  {
    forall h: nat, i: nat, c :: i < |s.pc| && h != i && Claims(s, h, c) ==> !Touches(s, i, c)
  }

  // ----- the view

  ghost function ViewContent(s: Sys, c: int): char
    requires Shaped(s) && 0 <= c < |s.b.cells|
  {
    if exists g: nat :: Ends(s, g, c) then 'M'
    else if exists g: nat :: Claims(s, g, c) then ' '
    else s.b.cells[c].content
  }

  ghost function ViewGhost(s: Sys, g: int): Ghost
    requires Shaped(s) && 0 <= g < |s.b.ghosts|
  {
    if Undecided(s.pc[g]) then s.calls[g].was
    else if Committed(s.pc[g]) then
      var to := Along(s.pc[g].p.start, s.pc[g].p.d, s.pc[g].j);
      s.b.ghosts[g].(x := to.x, y := to.y)
    else s.b.ghosts[g]
  }

  /** A killer has read the pacman's cell but not yet cleared `alive`. */
  ghost predicate Dying(s: Sys) {
    exists g :: 0 <= g < |s.pc| && s.pc[g].Kill1?
  }

  ghost function ViewPacman(s: Sys): Pacman {
    if s.main.MainLocking? || s.main.Moving? then s.request.was
    else s.b.pac.(alive := s.b.pac.alive && !Dying(s))
  }

  ghost function View(s: Sys): (v: State)
    requires Shaped(s)
    ensures |v.ghosts| == |s.b.ghosts| && |v.cells| == |s.b.cells|
    ensures v.width == s.b.width && v.height == s.b.height
  {
    State(s.b.width, s.b.height,
          seq(|s.b.cells|, c requires 0 <= c < |s.b.cells| => s.b.cells[c].(content := ViewContent(s, c))),
          ViewPacman(s),
          seq(|s.b.ghosts|, g requires 0 <= g < |s.b.ghosts| => ViewGhost(s, g)))
  }

  // ----- what a program counter knows

  /** The ghost's record is what the private part of its call has made of the record before it. */
  predicate Called(s: Sys, g: nat)
    requires Shaped(s) && g < |s.pc| && Undecided(s.pc[g])
  {
    var call := s.calls[g];
    && |call.was.moves| > 0 && call.was.currentMove >= 0
    && s.b.ghosts[g] == Timed(call.was, call.rnd)
    && Choose(s.b, call.was, call.rnd) == Move(s.pc[g].p)
  }

  /** The cells read so far are free. */
  ghost predicate FreeSoFar(s: Sys, p: Plan, j: nat)
    requires Shaped(s) && PlanIn(s.b.width, s.b.height, p) && j <= p.reach + 1
  {
    forall m :: 1 <= m < j ==> s.b.cells[CellOf(s, p, m)].content !in {'W', 'M', 'P'}
  }

  /** The two cells of a committed move, as far as it has been written. */
  predicate Writing(s: Sys, pc: Pc)
    requires Shaped(s) && PcIn(s.b.width, s.b.height, pc) && Committed(pc)
  {
    && (!pc.Mark? ==> s.b.cells[CellOf(s, pc.p, 0)].content == if pc.SetPos? then ' ' else 'M')
    && (pc.j > 0 || pc.Mark? ==> s.b.cells[CellOf(s, pc.p, pc.j)].content !in {'W', 'M'})
  }

  ghost predicate Local(s: Sys, g: nat)
    requires Shaped(s) && g < |s.pc|
  {
    var pc := s.pc[g];
    && (Undecided(pc) ==> Called(s, g))
    && (pc.Look? ==> FreeSoFar(s, pc.p, pc.j))
    && (Committed(pc) ==>
         && GhostAt(s.b, g) == (if pc.Mark? then Along(pc.p.start, pc.p.d, pc.j) else pc.p.start)
         && Writing(s, pc))
    && (pc.Kill1? || pc.Kill2? ==> Pos(s.b.pac.x, s.b.pac.y) == Along(pc.p.start, pc.p.d, pc.j))
  }

  ghost predicate MainLocal(s: Sys) {
    s.main.MainLocking? || s.main.Moving? ==>
      && ChoosePacman(s.b, s.request.was, s.request.d, s.request.rnd) == Move(s.main.p)
      && s.b.pac == TimedPacman(s.request.was)
  }

  /** The cell's mutex was left locked by the portal exit. */
  ghost predicate KeptAt(s: Sys, c: int)
    requires Shaped(s)
  {
    KeptFits(s);
    Holds(s.b.width, s.b.height, KeptSpan(KeptBy(s.main)), c)
  }

  ghost function KeptCells(s: Sys): set<int>
    requires Shaped(s)
  {
    set c | 0 <= c < |s.b.cells| && KeptAt(s, c)
  }

  ghost predicate ViewInv(s: Sys) {
    && LockInv(s) && MainLocal(s) && ClaimsApart(s)
    && (forall g: nat :: g < |s.pc| ==> Local(s, g))
    && GhostsPlaced(View(s), KeptCells(s))
    && (KeptBy(s.main) == Nothing ==> Agree(View(s)))
  }

  // ----- reading the view

  lemma ViewOfClaimed(s: Sys, g: nat, c: int)
    requires Shaped(s) && ClaimsApart(s) && 0 <= c < |s.b.cells| && Claims(s, g, c)
    ensures ViewContent(s, c) == if Ends(s, g, c) then 'M' else ' '
  {
    if h: nat :| Ends(s, h, c) && h != g {
      assert Claims(s, h, c) && Touches(s, g, c);
    }
  }

  lemma ViewOfUnclaimed(s: Sys, c: int)
    requires Shaped(s) && 0 <= c < |s.b.cells| && forall g: nat :: !Claims(s, g, c)
    ensures ViewContent(s, c) == s.b.cells[c].content
  {
    if g: nat :| Ends(s, g, c) {
      assert Claims(s, g, c);
    }
  }

  lemma ViewSame(s: Sys, t: Sys, c: int)
    requires Shaped(s) && Shaped(t) && 0 <= c < |s.b.cells| == |t.b.cells|
    requires t.b.cells[c].content == s.b.cells[c].content
    requires forall g: nat :: Ends(t, g, c) == Ends(s, g, c) && Claims(t, g, c) == Claims(s, g, c)
    ensures ViewContent(t, c) == ViewContent(s, c)
  {
  }

  /** With no move in flight the view is the board. */
  lemma QuietView(s: Sys)
    requires Shaped(s) && forall g :: 0 <= g < |s.pc| ==> !InFlight(s.pc[g])
    ensures View(s) == s.b.(pac := ViewPacman(s)) && !Dying(s)
  {
    forall c | 0 <= c < |s.b.cells| ensures ViewContent(s, c) == s.b.cells[c].content {
      ViewOfUnclaimed(s, c);
    }
    assert View(s).cells == s.b.cells;
    assert View(s).ghosts == s.b.ghosts;
  }

  // ----- who holds what is claimed

  /** All the cells from the start of the plan on are the ghost's while it looks, and until a charge gives them back. */
  predicate HoldsAll(pc: Pc) {
    pc.Look? || pc.Kill1? || pc.Kill2? || (pc.Unlocking? && pc.k == 0)
    || ((pc.Clear? || pc.SetPos? || pc.Mark?) && !pc.p.charged)
  }

  lemma SpanOfPlan(width: int, height: int, p: Plan, m: nat)
    requires PlanIn(width, height, p) && m <= p.reach
    ensures Holds(width, height, Span(p, 0, p.reach + 1), AheadIndex(width, height, p, m))
  {
    var k := if p.d == 'W' || p.d == 'A' then p.reach - m else m;
    assert LockIndex(width, height, p, k) == AheadIndex(width, height, p, m);
  }

  lemma OwnsPlan(s: Sys, g: nat, m: nat)
    requires LockInv(s) && g < |s.pc| && HoldsAll(s.pc[g]) && m <= s.pc[g].p.reach
    ensures OwnedBy(s, CellOf(s, s.pc[g].p, m), GhostThread(g))
  {
    SpanOfPlan(s.b.width, s.b.height, s.pc[g].p, m);
    assert HeldSpan(s.pc[g]) == Span(s.pc[g].p, 0, s.pc[g].p.reach + 1);
  }

  /** Mutexes of different threads are different. */
  lemma OwnedOnce(s: Sys, c: int, t: Thread, u: Thread)
    requires OwnedBy(s, c, t) && OwnedBy(s, c, u)
    ensures t == u
  {
  }

  /** Nobody else's mutex is kept. */
  lemma OwnedNotKept(s: Sys, g: nat, c: int)
    requires LockInv(s) && OwnedBy(s, c, GhostThread(g))
    ensures !KeptAt(s, c)
  {
    KeptFits(s);
    if KeptAt(s, c) {
      assert Holds(s.b.width, s.b.height, MainSpan(s.main), c);
      OwnedOnce(s, c, GhostThread(g), MainThread);
    }
  }

  /** Distinct cells of a plan have distinct indices. */
  lemma CellsDistinct(s: Sys, p: Plan, i: nat, j: nat)
    requires Shaped(s) && PlanIn(s.b.width, s.b.height, p) && i < j <= p.reach
    ensures CellOf(s, p, i) != CellOf(s, p, j)
  {
    var w, h := s.b.width, s.b.height;
    if p.d == 'W' || p.d == 'A' {
      LocksAscend(w, h, p, p.reach - j, p.reach - i);
    } else {
      LocksAscend(w, h, p, i, j);
    }
  }

  // ----- steps that leave the view alone

  lemma SameView(s: Sys, t: Sys)
    requires Shaped(s) && Shaped(t) && |t.pc| == |s.pc|
    requires t.b.width == s.b.width && t.b.height == s.b.height && |t.b.cells| == |s.b.cells|
    requires forall c :: 0 <= c < |s.b.cells| ==>
               && t.b.cells[c].(content := ' ') == s.b.cells[c].(content := ' ')
               && ViewContent(t, c) == ViewContent(s, c)
    requires forall g :: 0 <= g < |s.pc| ==> ViewGhost(t, g) == ViewGhost(s, g)
    requires ViewPacman(t) == ViewPacman(s)
    ensures View(t) == View(s)
  {
    assert View(t).cells == View(s).cells;
    assert View(t).ghosts == View(s).ghosts;
  }

  /** What the other ghosts claim and touch is their own business. */
  lemma OthersSame(s: Sys, t: Sys, h: nat, c: int)
    requires Shaped(s) && Shaped(t) && h < |s.pc| == |t.pc| && t.pc[h] == s.pc[h]
    requires t.b.width == s.b.width && t.b.height == s.b.height && t.b.ghosts[h] == s.b.ghosts[h]
    ensures Ends(t, h, c) == Ends(s, h, c) && Claims(t, h, c) == Claims(s, h, c)
    ensures Touches(t, h, c) == Touches(s, h, c)
  {
    if s.pc[h].Look? {
      assert forall m :: 0 <= m < s.pc[h].j ==> CellOf(t, s.pc[h].p, m) == CellOf(s, s.pc[h].p, m);
    }
  }

  lemma DyingSame(s: Sys, t: Sys)
    requires |t.pc| == |s.pc| && forall h :: 0 <= h < |s.pc| ==> t.pc[h].Kill1? == s.pc[h].Kill1?
    ensures Dying(t) == Dying(s)
  {
  }

  lemma OtherRecord(s: Sys, g: nat, rnd: nat, h: nat)
    requires Shaped(s) && Enabled(s, GhostDoes(g, rnd)) && h != g && h < |s.pc|
    ensures var t := GhostNext(s, g, rnd);
            && t.pc[h] == s.pc[h] && t.b.ghosts[h] == s.b.ghosts[h] && t.calls[h] == s.calls[h]
            && t.main == s.main && t.request == s.request
            && t.b.pac.x == s.b.pac.x && t.b.pac.y == s.b.pac.y
  {
    hide PcAfter;
  }
}
