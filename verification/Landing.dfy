/**
  A ghost's atomic call, told the way its thread goes about it: the private part of the call, the
  plan, the cell where the plan ends, and what is left when it has ended there.
 */
module Landing {
  import opened Maze
  import opened Agreement
  import opened Threads

  /** The content of the cell m steps along the plan. */
  function Ahead(v: State, p: Plan, m: int): char
    requires WellFormed(v) && PlanIn(v.width, v.height, p) && 0 <= m <= p.reach
  {
    v.cells[AheadIndex(v.width, v.height, p, m)].content
  }

  /** The plan ends j cells ahead: one step into a cell that can be entered, or as far as a charge gets. */
  ghost predicate StopsAt(v: State, p: Plan, j: nat)
    requires WellFormed(v) && PlanIn(v.width, v.height, p) && j <= p.reach
  {
    && (forall m :: 1 <= m < j ==> Ahead(v, p, m) !in {'W', 'M', 'P'})
    && (j > 0 ==> Ahead(v, p, j) !in {'W', 'M'})
    && if !p.charged then j == 1
       else
         || (j > 0 && Ahead(v, p, j) == 'P')
         || ((j > 0 ==> Ahead(v, p, j) != 'P') && (j == p.reach || Ahead(v, p, j + 1) in {'W', 'M'}))
  }

  /** The pacman is found where the plan ends. */
  predicate Kills(v: State, p: Plan, j: nat)
    requires WellFormed(v) && PlanIn(v.width, v.height, p) && j <= p.reach
  {
    j > 0 && Ahead(v, p, j) == 'P' && v.pac.alive && Pos(v.pac.x, v.pac.y) == Along(p.start, p.d, j)
  }

  /** The level when ghost g has ended its plan j cells ahead. */
  function Landed(v: State, g: int, rnd: nat, p: Plan, j: nat): State
    requires WellFormed(v) && 0 <= g < |v.ghosts| && PlanIn(v.width, v.height, p) && j <= p.reach
  {
    var to := Along(p.start, p.d, j);
    var start, end := AheadIndex(v.width, v.height, p, 0), AheadIndex(v.width, v.height, p, j);
    SetContent(SetContent(v, start, ' '), end, 'M').(
      pac := v.pac.(alive := v.pac.alive && !Kills(v, p, j)),
      ghosts := v.ghosts[g := Timed(v.ghosts[g], rnd).(x := to.x, y := to.y)])
  }

  // ----- one step

  lemma StepLands(v: State, g: int, d: char, p: Plan)
    requires WellFormed(v) && 0 <= g < |v.ghosts| && PlanIn(v.width, v.height, p)
    requires p == Plan(Pos(v.ghosts[g].x, v.ghosts[g].y), d, 1, false) && Ahead(v, p, 1) !in {'W', 'M'}
    ensures var r, to := GhostStep(v, g, d).s, Along(p.start, d, 1);
            && |r.cells| == |v.cells| && r.width == v.width && r.height == v.height
            && r.ghosts == v.ghosts[g := v.ghosts[g].(x := to.x, y := to.y)]
            && r.pac == v.pac.(alive := v.pac.alive && !Kills(v, p, 1))
            && r.cells ==
               SetContent(SetContent(v, GhostIndex(v, g), ' '), AheadIndex(v.width, v.height, p, 1), 'M').cells
  {
    RelocateLands(v, g, p, 1);
  }

  /** Moving a ghost to the end of its plan, after a kill there or without one. */
  lemma RelocateLands(v: State, g: int, p: Plan, j: nat)
    requires WellFormed(v) && 0 <= g < |v.ghosts| && PlanIn(v.width, v.height, p) && j <= p.reach
    requires p.start == Pos(v.ghosts[g].x, v.ghosts[g].y)
    ensures var to := Along(p.start, p.d, j);
            var end := AheadIndex(v.width, v.height, p, j);
            && Relocate(v, g, to.x, to.y)
               == SetContent(SetContent(v, GhostIndex(v, g), ' '), end, 'M').(
                    ghosts := v.ghosts[g := v.ghosts[g].(x := to.x, y := to.y)])
            && (Pos(v.pac.x, v.pac.y) == to && v.pac.alive && (j > 0 || v.cells[end].content == 'P') ==>
                 Relocate(KillPacman(v), g, to.x, to.y)
                 == Relocate(v, g, to.x, to.y).(pac := v.pac.(alive := false)))
  {
    var to := Along(p.start, p.d, j);
    if Pos(v.pac.x, v.pac.y) == to {
      assert Relocate(KillPacman(v), g, to.x, to.y).cells == Relocate(v, g, to.x, to.y).cells;
    }
  }

  // ----- the slide

  /** From any cell of the way the slide ends where the plan ends. */
  lemma {:induction false} SlideAlong(v: State, p: Plan, i: nat, j: nat)
    requires WellFormed(v) && PlanIn(v.width, v.height, p) && p.charged && i <= j <= p.reach && StopsAt(v, p, j)
    requires p.reach == Room(v, p.start.x, p.start.y, p.d)
    requires i < j || j == 0 || Ahead(v, p, j) != 'P'
    ensures var from, to := Along(p.start, p.d, i), Along(p.start, p.d, j);
            SlideEnd(v, from.x, from.y, p.d) == Stop(to.x, to.y, j > 0 && Ahead(v, p, j) == 'P')
    decreases j - i
  {
    var from, next := Along(p.start, p.d, i), Along(p.start, p.d, i + 1);
    assert Room(v, from.x, from.y, p.d) == p.reach - i;
    if i < p.reach {
      assert next == Pos(StepX(from.x, p.d), StepY(from.y, p.d));
      assert At(v, next.x, next.y).content == Ahead(v, p, i + 1);
      if i + 1 < j || (i + 1 == j && Ahead(v, p, j) != 'P') {
        SlideAlong(v, p, i + 1, j);
      }
    }
  }

  /** The end of the slide, with the kill if there is one. */
  lemma SlideLands(u: State, g: int, p: Plan, j: nat)
    requires WellFormed(u) && 0 <= g < |u.ghosts| && PlanIn(u.width, u.height, p) && p.charged && j <= p.reach
    requires p.start == Pos(u.ghosts[g].x, u.ghosts[g].y) && StopsAt(u, p, j)
    ensures var to, hit := Along(p.start, p.d, j), j > 0 && Ahead(u, p, j) == 'P';
            var f := if hit then FindAndKill(u, to.x, to.y) else Result(u, ValidMove);
            var r := Relocate(f.s, g, to.x, to.y);
            && |r.cells| == |u.cells| && r.width == u.width && r.height == u.height
            && r.ghosts == u.ghosts[g := u.ghosts[g].(x := to.x, y := to.y)]
            && r.pac == u.pac.(alive := u.pac.alive && !Kills(u, p, j))
            && r.cells ==
               SetContent(SetContent(u, GhostIndex(u, g), ' '), AheadIndex(u.width, u.height, p, j), 'M').cells
  {
    hide Relocate;
    RelocateLands(u, g, p, j);
  }

  lemma ChargeIsSlide(v: State, g: int, p: Plan, j: nat)
    requires WellFormed(v) && 0 <= g < |v.ghosts| && PlanIn(v.width, v.height, p) && p.charged && j <= p.reach
    requires p.start == Pos(v.ghosts[g].x, v.ghosts[g].y) && p.reach == Room(v, p.start.x, p.start.y, p.d)
    requires StopsAt(SetGhost(v, g, v.ghosts[g].(charged := false)), p, j)
    ensures var u := SetGhost(v, g, v.ghosts[g].(charged := false));
            var to, hit := Along(p.start, p.d, j), j > 0 && Ahead(u, p, j) == 'P';
            var f := if hit then FindAndKill(u, to.x, to.y) else Result(u, ValidMove);
            GhostCharge(v, g, p.d).s == Relocate(f.s, g, to.x, to.y)
  {
    hide Relocate, FindAndKill;
    SlideAlong(SetGhost(v, g, v.ghosts[g].(charged := false)), p, 0, j);
  }

  lemma ChargeLands(v: State, g: int, p: Plan, j: nat)
    requires WellFormed(v) && 0 <= g < |v.ghosts| && PlanIn(v.width, v.height, p) && p.charged && j <= p.reach
    requires p.start == Pos(v.ghosts[g].x, v.ghosts[g].y) && p.reach == Room(v, p.start.x, p.start.y, p.d)
    requires StopsAt(v, p, j)
    ensures var r, to := GhostCharge(v, g, p.d).s, Along(p.start, p.d, j);
            && |r.cells| == |v.cells| && r.width == v.width && r.height == v.height
            && r.ghosts == v.ghosts[g := v.ghosts[g].(x := to.x, y := to.y, charged := false)]
            && r.pac == v.pac.(alive := v.pac.alive && !Kills(v, p, j))
            && r.cells ==
               SetContent(SetContent(v, GhostIndex(v, g), ' '), AheadIndex(v.width, v.height, p, j), 'M').cells
  {
    hide GhostCharge, Relocate, FindAndKill, Along;
    var u := SetGhost(v, g, v.ghosts[g].(charged := false));
    var to := Along(p.start, p.d, j);
    assert forall m :: 0 <= m <= p.reach ==> Ahead(u, p, m) == Ahead(v, p, m);
    assert StopsAt(u, p, j);
    ChargeIsSlide(v, g, p, j);
    SlideLands(u, g, p, j);
    assert GhostIndex(u, g) == GhostIndex(v, g);
    assert u.ghosts[g := u.ghosts[g].(x := to.x, y := to.y)]
        == v.ghosts[g := v.ghosts[g].(x := to.x, y := to.y, charged := false)];
  }

  // ----- whole calls

  lemma PlanOfCall(v: State, g: int, rnd: nat)
    requires WellFormed(v) && 0 <= g < |v.ghosts| && Choose(v, v.ghosts[g], rnd).Move?
    ensures var p := Choose(v, v.ghosts[g], rnd).p;
            && PlanIn(v.width, v.height, p) && Moves(v.ghosts[g], rnd)
            && p.d == Resolve(v.ghosts[g].moves[Slot(v.ghosts[g])].command, rnd)
            && (p.charged ==> p.reach == Room(v, p.start.x, p.start.y, p.d))
            && AheadIndex(v.width, v.height, p, 0) == GhostIndex(v, g)
            && Timed(v.ghosts[g], rnd) == Ready(v.ghosts[g]).(charged := false)
  {
    ChosenIn(v, v.ghosts[g], rnd);
  }

  /** The call ends where its plan ends. */
  lemma CallLands(v: State, g: int, rnd: nat, p: Plan, j: nat)
    requires WellFormed(v) && 0 <= g < |v.ghosts| && Choose(v, v.ghosts[g], rnd) == Move(p)
    requires PlanIn(v.width, v.height, p) && j <= p.reach && StopsAt(v, p, j)
    ensures GhostCallOn(v, g, rnd).s == Landed(v, g, rnd, p, j)
  {
    hide GhostCallOn, GhostStep, GhostCharge, Choose;
    PlanOfCall(v, g, rnd);
    GhostCallMoves(v, g, rnd);
    var ready := SetGhost(v, g, Ready(v.ghosts[g]));
    var to := Along(p.start, p.d, j);
    assert forall m :: 0 <= m <= p.reach ==> Ahead(ready, p, m) == Ahead(v, p, m);
    assert GhostIndex(ready, g) == GhostIndex(v, g);
    assert ready.ghosts[g := Timed(v.ghosts[g], rnd).(x := to.x, y := to.y)]
        == v.ghosts[g := Timed(v.ghosts[g], rnd).(x := to.x, y := to.y)];
    if p.charged {
      ChargeLands(ready, g, p, j);
    } else {
      StepLands(ready, g, p.d, p);
    }
  }

  /** A single step into a wall or a ghost is refused. */
  lemma CallRefused(v: State, g: int, rnd: nat, p: Plan)
    requires WellFormed(v) && 0 <= g < |v.ghosts| && Choose(v, v.ghosts[g], rnd) == Move(p)
    requires PlanIn(v.width, v.height, p) && !p.charged && Ahead(v, p, 1) in {'W', 'M'}
    ensures GhostCallOn(v, g, rnd).s == SetGhost(v, g, Timed(v.ghosts[g], rnd))
  {
    hide GhostCallOn, Choose;
    PlanOfCall(v, g, rnd);
    GhostCallMoves(v, g, rnd);
    var ready := SetGhost(v, g, Ready(v.ghosts[g]));
    assert Ahead(ready, p, 1) == Ahead(v, p, 1);
    assert GhostStep(ready, g, p.d) == Result(ready, InvalidMove);
  }

  /** A call without a plan is done with its private part. */
  lemma CallRests(v: State, g: int, rnd: nat)
    requires WellFormed(v) && 0 <= g < |v.ghosts| && Choose(v, v.ghosts[g], rnd) == Rest
    ensures GhostCallOn(v, g, rnd).s == SetGhost(v, g, Timed(v.ghosts[g], rnd))
  {
    var gh := v.ghosts[g];
    if Moves(gh, rnd) {
      GhostCallMoves(v, g, rnd);
      RestingMove(v, g, rnd);
    } else {
      RestingTurn(v, g, rnd);
    }
  }

  /** Off the board, or charging with its nose at the edge. */
  lemma RestingMove(v: State, g: int, rnd: nat)
    requires WellFormed(v) && 0 <= g < |v.ghosts| && Choose(v, v.ghosts[g], rnd) == Rest && Moves(v.ghosts[g], rnd)
    ensures ReadyMove(v, g, Resolve(v.ghosts[g].moves[Slot(v.ghosts[g])].command, rnd)).s
            == SetGhost(v, g, Timed(v.ghosts[g], rnd))
  {
    var ready := SetGhost(v, g, Ready(v.ghosts[g]));
    assert ready.ghosts[g := Timed(v.ghosts[g], rnd)] == v.ghosts[g := Timed(v.ghosts[g], rnd)];
  }

  lemma RestingTurn(v: State, g: int, rnd: nat)
    requires WellFormed(v) && 0 <= g < |v.ghosts| && !Moves(v.ghosts[g], rnd)
    ensures GhostCallOn(v, g, rnd).s == SetGhost(v, g, Timed(v.ghosts[g], rnd))
  {
    var gh := v.ghosts[g];
    var k := Slot(gh);
    var cmd := gh.moves[k];
    assert gh.moves[k := cmd] == gh.moves;
    var t := GhostTurn(v, g, cmd, rnd);
    assert t.s == SetGhost(v, g, t.s.ghosts[g]);
    assert t.s.ghosts[g].(moves := gh.moves[k := t.cmd]) == Timed(gh, rnd);
  }

  // ----- where the ghosts are

  /** Apart, with every 'M' a ghost's, and every ghost on its 'M' except perhaps on a cell of K. */
  ghost predicate GhostsPlaced(v: State, K: set<int>) {
    && WellFormed(v) && GhostsApart(v) && MarksOwned(v)
    && forall g :: 0 <= g < |v.ghosts| ==> v.cells[GhostIndex(v, g)].content == 'M' || GhostIndex(v, g) in K
  }

  lemma TimingPlaces(v: State, g: int, gh: Ghost, K: set<int>)
    requires GhostsPlaced(v, K) && 0 <= g < |v.ghosts|
    requires gh.x == v.ghosts[g].x && gh.y == v.ghosts[g].y && |gh.moves| > 0 && gh.currentMove >= 0
    ensures GhostsPlaced(SetGhost(v, g, gh), K)
  {
    var t := SetGhost(v, g, gh);
    assert forall h :: 0 <= h < |v.ghosts| ==> GhostIndex(t, h) == GhostIndex(v, h);
    forall c | 0 <= c < |t.cells| && t.cells[c].content == 'M' ensures OwnedByGhost(t, c) {
      assert OwnedByGhost(v, c);
      var h :| 0 <= h < |v.ghosts| && GhostIndex(v, h) == c;
      assert GhostIndex(t, h) == c;
    }
  }

  lemma LandedIndices(v: State, g: int, rnd: nat, p: Plan, j: nat)
    requires WellFormed(v) && 0 <= g < |v.ghosts| && PlanIn(v.width, v.height, p) && j <= p.reach
    ensures var t := Landed(v, g, rnd, p, j);
            && WellFormed(t)
            && forall h :: 0 <= h < |v.ghosts| ==>
                 GhostIndex(t, h) == if h == g then AheadIndex(v.width, v.height, p, j) else GhostIndex(v, h)
  {
  }

  /** A plan that ends where it started, or on a cell that is nobody's and not in K, keeps the ghosts placed. */
  lemma LandingPlaces(v: State, g: int, rnd: nat, p: Plan, j: nat, K: set<int>)
    requires GhostsPlaced(v, K) && 0 <= g < |v.ghosts| && PlanIn(v.width, v.height, p) && j <= p.reach
    requires AheadIndex(v.width, v.height, p, 0) == GhostIndex(v, g)
    requires j == 0 || (Ahead(v, p, j) != 'M' && AheadIndex(v.width, v.height, p, j) !in K)
    ensures GhostsPlaced(Landed(v, g, rnd, p, j), K)
  {
    var t := Landed(v, g, rnd, p, j);
    var start, end := GhostIndex(v, g), AheadIndex(v.width, v.height, p, j);
    LandedIndices(v, g, rnd, p, j);
    forall h | 0 <= h < |v.ghosts| && h != g ensures GhostIndex(v, h) !in {start, end} {
      assert v.cells[GhostIndex(v, h)].content == 'M' || GhostIndex(v, h) in K;
    }
    forall c | 0 <= c < |t.cells| && t.cells[c].content == 'M' ensures OwnedByGhost(t, c) {
      if c == end {
        assert GhostIndex(t, g) == c;
      } else {
        assert OwnedByGhost(v, c);
        var h :| 0 <= h < |v.ghosts| && GhostIndex(v, h) == c;
        assert GhostIndex(t, h) == c;
      }
    }
  }

  lemma AgreeingIsPlaced(v: State, K: set<int>)
    requires Agree(v)
    ensures GhostsPlaced(v, K)
  {
  }

  /** The pacman's move, onto the portal or not, takes away an 'M' at most on the two cells it writes. */
  lemma PacmanPlaces(v: State, d: char, K: set<int>)
    requires Agree(v) && v.pac.alive && IsDirection(d)
    requires PacmanStep(v, d).out == ReachedPortal ==>
               Index(v.width, v.height, StepX(v.pac.x, d), StepY(v.pac.y, d)) in K
    ensures GhostsPlaced(PacmanStep(v, d).s, K)
  {
    var t := PacmanStep(v, d).s;
    if PacmanStep(v, d).out != ReachedPortal {
      PacmanStepKeepsAgree(v, d);
    } else {
      assert forall h :: 0 <= h < |v.ghosts| ==> GhostIndex(t, h) == GhostIndex(v, h);
      forall c | 0 <= c < |t.cells| && t.cells[c].content == 'M' ensures OwnedByGhost(t, c) {
        assert OwnedByGhost(v, c);
        var h :| 0 <= h < |v.ghosts| && GhostIndex(v, h) == c;
        assert GhostIndex(t, h) == c;
      }
    }
  }
}
