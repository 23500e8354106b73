/**
  What each call does, cell by cell and field by field: the pacman's call and a ghost's, for every
  command and everything that can lie ahead. The statements are about `Do` alone, so that they hold
  of the engine however its moves are put together.
 */
module Effects {
  import opened Maze

  /** The neighbour up, down, left or right. */
  function Neighbour(p: Pos, d: char): Pos
    requires IsDirection(d)
  {
    match d
    case 'W' => Pos(p.x, p.y - 1)
    case 'S' => Pos(p.x, p.y + 1)
    case 'A' => Pos(p.x - 1, p.y)
    case 'D' => Pos(p.x + 1, p.y)
  }

  function CellIndex(s: State, p: Pos): (i: int)
    requires IsValidPosition(s, p.x, p.y)
    ensures 0 <= i < s.width * s.height
  {
    Index(s.width, s.height, p.x, p.y)
  }

  // ----- the direction

  /** A random number gives each of the four directions, by its remainder. */
  lemma DirectionsDrawn(rnd: nat)
    ensures Resolve('R', rnd) ==
            if rnd % 4 == 0 then 'W' else if rnd % 4 == 1 then 'S' else if rnd % 4 == 2 then 'A' else 'D'
    ensures forall c :: c != 'R' ==> Resolve(c, rnd) == c
  {
  }

  // ----- the pacman

  /** A call that finds the pacman alive and done waiting, with a direction. */
  predicate PacmanGoes(s: State, cmd: Command, rnd: nat) {
    WellFormed(s) && s.pac.alive && s.pac.waiting <= 0 && Resolve(cmd.command, rnd) in {'W', 'S', 'A', 'D'}
  }

  function PacmanTarget(s: State, cmd: Command, rnd: nat): Pos
    requires PacmanGoes(s, cmd, rnd)
  {
    Neighbour(Pos(s.pac.x, s.pac.y), Resolve(cmd.command, rnd))
  }

  /** What every such call does to the pacman's timing. */
  function PacmanTimed(pac: Pacman): Pacman {
    Pacman(pac.x, pac.y, pac.alive, pac.points, pac.passo, pac.passo, pac.currentMove + 1)
  }

  /** A cell without a portal, a wall or a ghost: the pacman goes there and eats what there is. */
  lemma PacmanAdvances(s: State, cmd: Command, rnd: nat)
    requires PacmanGoes(s, cmd, rnd)
    requires var q := PacmanTarget(s, cmd, rnd);
             && IsValidPosition(s, q.x, q.y)
             && !s.cells[CellIndex(s, q)].hasPortal && s.cells[CellIndex(s, q)].content !in {'W', 'M'}
    ensures var q, r := PacmanTarget(s, cmd, rnd), Do(s, PacCall(cmd, rnd));
            var from, to := CellIndex(s, Pos(s.pac.x, s.pac.y)), CellIndex(s, q);
            && r.out == ValidMove && r.s.ghosts == s.ghosts && r.s.width == s.width && r.s.height == s.height
            && r.s.pac == PacmanTimed(s.pac).(
                            x := q.x, y := q.y, points := s.pac.points + if s.cells[to].hasDot then 1 else 0)
            && |r.s.cells| == |s.cells| && from != to
            && r.s.cells[to] == Cell('P', false, false)
            && r.s.cells[from] == Cell(' ', s.cells[from].hasDot, s.cells[from].hasPortal)
            && forall c :: 0 <= c < |s.cells| && c != from && c != to ==> r.s.cells[c] == s.cells[c]
  {
    var q := PacmanTarget(s, cmd, rnd);
    IndexInjective(s.width, s.height, s.pac.x, s.pac.y, q.x, q.y);
  }

  /** The edge of the board or a wall: nothing but timing. */
  lemma PacmanRefused(s: State, cmd: Command, rnd: nat)
    requires PacmanGoes(s, cmd, rnd)
    requires var q := PacmanTarget(s, cmd, rnd);
             IsValidPosition(s, q.x, q.y) ==>
               !s.cells[CellIndex(s, q)].hasPortal && s.cells[CellIndex(s, q)].content == 'W'
    ensures Do(s, PacCall(cmd, rnd)) == Result(s.(pac := PacmanTimed(s.pac)), InvalidMove)
  {
  }

  /** A ghost: the pacman dies where it is, and its cell is blanked. */
  lemma PacmanMeetsGhost(s: State, cmd: Command, rnd: nat)
    requires PacmanGoes(s, cmd, rnd)
    requires var q := PacmanTarget(s, cmd, rnd);
             && IsValidPosition(s, q.x, q.y)
             && !s.cells[CellIndex(s, q)].hasPortal && s.cells[CellIndex(s, q)].content == 'M'
    ensures var r, from := Do(s, PacCall(cmd, rnd)), CellIndex(s, Pos(s.pac.x, s.pac.y));
            && r.out == DeadPacman && r.s.ghosts == s.ghosts && r.s.width == s.width && r.s.height == s.height
            && r.s.pac == PacmanTimed(s.pac).(alive := false)
            && |r.s.cells| == |s.cells|
            && r.s.cells[from] == Cell(' ', s.cells[from].hasDot, s.cells[from].hasPortal)
            && forall c :: 0 <= c < |s.cells| && c != from ==> r.s.cells[c] == s.cells[c]
  {
  }

  /** A portal, whatever stands on it: two cells change, the pacman's coordinates, points and dots do not. */
  lemma PacmanTakesPortal(s: State, cmd: Command, rnd: nat)
    requires PacmanGoes(s, cmd, rnd)
    requires var q := PacmanTarget(s, cmd, rnd);
             IsValidPosition(s, q.x, q.y) && s.cells[CellIndex(s, q)].hasPortal
    ensures var q, r := PacmanTarget(s, cmd, rnd), Do(s, PacCall(cmd, rnd));
            var from, to := CellIndex(s, Pos(s.pac.x, s.pac.y)), CellIndex(s, q);
            && r.out == ReachedPortal && r.s.ghosts == s.ghosts && r.s.width == s.width && r.s.height == s.height
            && r.s.pac == PacmanTimed(s.pac)
            && |r.s.cells| == |s.cells| && from != to
            && r.s.cells[to] == Cell('P', s.cells[to].hasDot, true)
            && r.s.cells[from] == Cell(' ', s.cells[from].hasDot, s.cells[from].hasPortal)
            && forall c :: 0 <= c < |s.cells| && c != from && c != to ==> r.s.cells[c] == s.cells[c]
  {
    var q := PacmanTarget(s, cmd, rnd);
    IndexInjective(s.width, s.height, s.pac.x, s.pac.y, q.x, q.y);
  }

  /** Every other call of the pacman: dead, waiting, a 'T', or a letter that is no command. */
  lemma PacmanStays(s: State, cmd: Command, rnd: nat)
    requires WellFormed(s) && !PacmanGoes(s, cmd, rnd)
    ensures var pac, r := s.pac, Do(s, PacCall(cmd, rnd));
            if !pac.alive then r == Result(s, DeadPacman)
            else if pac.waiting > 0 then r == Result(s.(pac := pac.(waiting := pac.waiting - 1)), ValidMove)
            else if cmd.command == 'T' then
              r == Result(s.(pac := pac.(waiting := pac.passo,
                                         currentMove := pac.currentMove + if cmd.turnsLeft == 1 then 1 else 0)),
                          ValidMove)
            else r == Result(s.(pac := pac.(waiting := pac.passo)), InvalidMove)
  {
  }

  // ----- a ghost

  function GhostCommand(gh: Ghost): Command
    requires |gh.moves| > 0 && gh.currentMove >= 0
  {
    gh.moves[gh.currentMove % |gh.moves|]
  }

  function GhostLetter(gh: Ghost, rnd: nat): char
    requires |gh.moves| > 0 && gh.currentMove >= 0
  {
    Resolve(GhostCommand(gh).command, rnd)
  }

  /** The ghost's record after a call with a direction, wherever it gets to. */
  function GhostMoved(gh: Ghost, p: Pos): Ghost {
    Ghost(p.x, p.y, gh.passo, gh.passo, gh.currentMove + 1, false, gh.moves)
  }

  /** Ghost g's call finds it done waiting, with a direction. */
  predicate GhostGoes(s: State, g: int, rnd: nat) {
    && WellFormed(s) && 0 <= g < |s.ghosts| && s.ghosts[g].waiting <= 0
    && GhostLetter(s.ghosts[g], rnd) in {'W', 'S', 'A', 'D'}
  }

  function GhostTarget(s: State, g: int, rnd: nat): Pos
    requires GhostGoes(s, g, rnd)
  {
    Neighbour(Pos(s.ghosts[g].x, s.ghosts[g].y), GhostLetter(s.ghosts[g], rnd))
  }

  /** Every call without a direction changes the ghost's own record, and nothing else. */
  lemma GhostRests(s: State, g: int, rnd: nat)
    requires WellFormed(s) && 0 <= g < |s.ghosts| && !GhostGoes(s, g, rnd)
    ensures var gh, r := s.ghosts[g], Do(s, GhostCall(g, rnd));
            var k, cmd := gh.currentMove % |gh.moves|, GhostCommand(gh);
            && r.s == s.(ghosts := s.ghosts[g := r.s.ghosts[g]])
            && if gh.waiting > 0 then
                 r.out == ValidMove && r.s.ghosts[g] == gh.(waiting := gh.waiting - 1)
               else if cmd.command == 'C' then
                 && r.out == ValidMove
                 && r.s.ghosts[g] == gh.(waiting := gh.passo, currentMove := gh.currentMove + 1, charged := true)
               else if cmd.command == 'T' && cmd.turnsLeft == 1 then
                 && r.out == ValidMove
                 && r.s.ghosts[g] == gh.(waiting := gh.passo, currentMove := gh.currentMove + 1,
                                         moves := gh.moves[k := cmd.(turnsLeft := cmd.turns)])
               else if cmd.command == 'T' then
                 && r.out == ValidMove
                 && r.s.ghosts[g] == gh.(waiting := gh.passo,
                                         moves := gh.moves[k := cmd.(turnsLeft := cmd.turnsLeft - 1)])
               else r.out == InvalidMove && r.s.ghosts[g] == gh.(waiting := gh.passo)
  {
    var gh := s.ghosts[g];
    var k := gh.currentMove % |gh.moves|;
    assert gh.moves[k := gh.moves[k]] == gh.moves;
  }

  /** A ghost without a charge, at the edge of the board, at a wall or at another ghost: nothing but timing. */
  lemma GhostRefused(s: State, g: int, rnd: nat)
    requires GhostGoes(s, g, rnd) && !s.ghosts[g].charged
    requires var q := GhostTarget(s, g, rnd);
             IsValidPosition(s, q.x, q.y) ==> s.cells[CellIndex(s, q)].content in {'W', 'M'}
    ensures var gh := s.ghosts[g];
            Do(s, GhostCall(g, rnd))
            == Result(s.(ghosts := s.ghosts[g := GhostMoved(gh, Pos(gh.x, gh.y))]), InvalidMove)
  {
    GhostCallMoves(s, g, rnd);
  }

  /** Where a ghost's move ends, on a 'P' or not: what it leaves, what it takes, and whether the pacman dies of it. */
  ghost predicate GhostLands(s: State, g: int, q: Pos, found: bool, r: Result)
    requires WellFormed(s) && 0 <= g < |s.ghosts| && IsValidPosition(s, q.x, q.y)
  {
    var from, to := CellIndex(s, Pos(s.ghosts[g].x, s.ghosts[g].y)), CellIndex(s, q);
    var kill := found && s.pac.alive && s.pac.x == q.x && s.pac.y == q.y;
    && r.out == (if kill then DeadPacman else ValidMove)
    && r.s.pac == s.pac.(alive := s.pac.alive && !kill)
    && r.s.ghosts == s.ghosts[g := GhostMoved(s.ghosts[g], q)]
    && r.s.width == s.width && r.s.height == s.height && |r.s.cells| == |s.cells|
    && r.s.cells[to] == Cell('M', s.cells[to].hasDot, s.cells[to].hasPortal)
    && (from != to ==> r.s.cells[from] == Cell(' ', s.cells[from].hasDot, s.cells[from].hasPortal))
    && forall c :: 0 <= c < |s.cells| && c != from && c != to ==> r.s.cells[c] == s.cells[c]
  }

  /** Landing is what finding the pacman, or not, and relocating the readied ghost amount to. */
  lemma RelocatingLands(s: State, g: int, q: Pos, found: bool)
    requires WellFormed(s) && 0 <= g < |s.ghosts| && IsValidPosition(s, q.x, q.y)
    ensures var u := SetGhost(s, g, GhostMoved(s.ghosts[g], Pos(s.ghosts[g].x, s.ghosts[g].y)));
            var hit := if found then FindAndKill(u, q.x, q.y) else Result(u, ValidMove);
            WellFormed(u) && GhostLands(s, g, q, found, Result(Relocate(hit.s, g, q.x, q.y), hit.out))
  {
    var u := SetGhost(s, g, GhostMoved(s.ghosts[g], Pos(s.ghosts[g].x, s.ghosts[g].y)));
    assert u.ghosts[g := GhostMoved(s.ghosts[g], q)] == s.ghosts[g := GhostMoved(s.ghosts[g], q)];
  }

  lemma ReadiedStep(s: State, g: int, rnd: nat)
    requires GhostGoes(s, g, rnd) && !s.ghosts[g].charged
    ensures var u := SetGhost(s, g, GhostMoved(s.ghosts[g], Pos(s.ghosts[g].x, s.ghosts[g].y)));
            WellFormed(u) && Do(s, GhostCall(g, rnd)) == GhostStep(u, g, GhostLetter(s.ghosts[g], rnd))
  {
    GhostCallMoves(s, g, rnd);
  }

  /** A ghost without a charge goes onto any other cell. */
  lemma GhostAdvances(s: State, g: int, rnd: nat)
    requires GhostGoes(s, g, rnd) && !s.ghosts[g].charged
    requires var q := GhostTarget(s, g, rnd);
             IsValidPosition(s, q.x, q.y) && s.cells[CellIndex(s, q)].content !in {'W', 'M'}
    ensures var q := GhostTarget(s, g, rnd);
            GhostLands(s, g, q, s.cells[CellIndex(s, q)].content == 'P', Do(s, GhostCall(g, rnd)))
  {
    hide Do, Relocate, GhostLands, FindAndKill, Resolve;
    ReadiedStep(s, g, rnd);
    var q := GhostTarget(s, g, rnd);
    RelocatingLands(s, g, q, s.cells[CellIndex(s, q)].content == 'P');
  }

  /** The cell n steps ahead of p. */
  function Far(p: Pos, d: char, n: int): Pos
    requires IsDirection(d)
  {
    match d
    case 'W' => Pos(p.x, p.y - n)
    case 'S' => Pos(p.x, p.y + n)
    case 'A' => Pos(p.x - n, p.y)
    case 'D' => Pos(p.x + n, p.y)
  }

  predicate Clear(s: State, p: Pos) {
    && |s.cells| == s.width * s.height && IsValidPosition(s, p.x, p.y)
    && s.cells[CellIndex(s, p)].content !in {'W', 'M', 'P'}
  }

  predicate Blocked(s: State, p: Pos) {
    |s.cells| == s.width * s.height &&
    (IsValidPosition(s, p.x, p.y) ==> s.cells[CellIndex(s, p)].content in {'W', 'M'})
  }

  predicate ShowsPacman(s: State, p: Pos) {
    && |s.cells| == s.width * s.height && IsValidPosition(s, p.x, p.y) && s.cells[CellIndex(s, p)].content == 'P'
  }

  /** A slide ends n cells ahead: on the first 'P', or before the first wall, ghost or edge. */
  predicate SlidesTo(s: State, p: Pos, d: char, n: nat)
    requires IsDirection(d)
  {
    && (forall m :: 1 <= m < n ==> Clear(s, Far(p, d, m)))
    && if n > 0 && ShowsPacman(s, Far(p, d, n)) then true
       else (n > 0 ==> Clear(s, Far(p, d, n))) && Blocked(s, Far(p, d, n + 1))
  }

  lemma {:induction false} SlideEndsThere(s: State, x: int, y: int, d: char, n: nat)
    requires WellFormed(s) && IsValidPosition(s, x, y) && IsDirection(d) && SlidesTo(s, Pos(x, y), d, n)
    ensures var e, q := SlideEnd(s, x, y, d), Far(Pos(x, y), d, n);
            e == Stop(q.x, q.y, n > 0 && ShowsPacman(s, q))
    decreases n
  {
    var p, next := Pos(x, y), Far(Pos(x, y), d, 1);
    if n > 0 {
      assert Clear(s, next) || ShowsPacman(s, next);
      assert forall m :: Far(next, d, m) == Far(p, d, m + 1);
      if Clear(s, next) {
        SlideEndsThere(s, next.x, next.y, d, n - 1);
      } else {
        assert n == 1;
      }
    }
  }

  /** Every slide ends somewhere. */
  lemma {:induction false} SlideEnds(s: State, p: Pos, d: char) returns (n: nat)
    requires WellFormed(s) && IsValidPosition(s, p.x, p.y) && IsDirection(d)
    ensures SlidesTo(s, p, d, n)
    decreases Room(s, p.x, p.y, d)
  {
    var next := Far(p, d, 1);
    if Clear(s, next) {
      var rest := SlideEnds(s, next, d);
      n := rest + 1;
      assert forall m :: Far(next, d, m) == Far(p, d, m + 1);
      forall m | 1 <= m < n ensures Clear(s, Far(p, d, m)) {
        assert m > 1 ==> Clear(s, Far(next, d, m - 1));
      }
    } else if ShowsPacman(s, next) {
      n := 1;
    } else {
      n := 0;
    }
  }

  lemma ReadiedCharge(s: State, g: int, rnd: nat)
    requires GhostGoes(s, g, rnd) && s.ghosts[g].charged
    ensures var u := SetGhost(s, g, GhostMoved(s.ghosts[g], Pos(s.ghosts[g].x, s.ghosts[g].y)));
            && WellFormed(u)
            && var ready := SetGhost(s, g, Ready(s.ghosts[g]));
               && Do(s, GhostCall(g, rnd)) == GhostCharge(ready, g, GhostLetter(s.ghosts[g], rnd))
               && SetGhost(ready, g, u.ghosts[g]) == u
  {
    GhostCallMoves(s, g, rnd);
  }

  lemma SlidesAlike(s: State, u: State, p: Pos, d: char, n: nat)
    requires IsDirection(d) && u.cells == s.cells && u.width == s.width && u.height == s.height
    requires SlidesTo(s, p, d, n)
    ensures SlidesTo(u, p, d, n)
  {
    assert forall m :: Clear(u, Far(p, d, m)) == Clear(s, Far(p, d, m));
  }

  /** A charged ghost with the edge of the board before it loses its charge, and nothing else happens. */
  lemma ChargeRefused(s: State, g: int, rnd: nat)
    requires GhostGoes(s, g, rnd) && s.ghosts[g].charged
    requires var q := GhostTarget(s, g, rnd); !IsValidPosition(s, q.x, q.y)
    ensures var gh := s.ghosts[g];
            Do(s, GhostCall(g, rnd))
            == Result(s.(ghosts := s.ghosts[g := GhostMoved(gh, Pos(gh.x, gh.y))]), InvalidMove)
  {
    hide Do, Resolve;
    ReadiedCharge(s, g, rnd);
  }

  /** Any other charged ghost lands where its slide ends. */
  lemma ChargeLands(s: State, g: int, rnd: nat, n: nat)
    requires GhostGoes(s, g, rnd) && s.ghosts[g].charged
    requires var q := GhostTarget(s, g, rnd); IsValidPosition(s, q.x, q.y)
    requires SlidesTo(s, Pos(s.ghosts[g].x, s.ghosts[g].y), GhostLetter(s.ghosts[g], rnd), n)
    ensures var q := Far(Pos(s.ghosts[g].x, s.ghosts[g].y), GhostLetter(s.ghosts[g], rnd), n);
            && IsValidPosition(s, q.x, q.y)
            && GhostLands(s, g, q, n > 0 && ShowsPacman(s, q), Do(s, GhostCall(g, rnd)))
  {
    hide Do, Resolve, Relocate, GhostLands, FindAndKill, SlidesTo, SlideEnd;
    var gh, d := s.ghosts[g], GhostLetter(s.ghosts[g], rnd);
    var p := Pos(gh.x, gh.y);
    var u := SetGhost(s, g, GhostMoved(gh, p));
    ReadiedCharge(s, g, rnd);
    SlidesAlike(s, u, p, d, n);
    SlideEndsThere(u, gh.x, gh.y, d, n);
    RelocatingLands(s, g, Far(p, d, n), n > 0 && ShowsPacman(s, Far(p, d, n)));
  }
}
