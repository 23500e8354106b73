/**
  Where the agents can get to, and how fast. Every position an agent reaches is joined to its
  start by a walk over open cells; for the pacman and for ghosts that never charge, that walk has
  at most one step per active call, and the number of active calls is known exactly from `passo`.
 */
module Walks {
  import opened Maze
  import opened Agreement
  import opened Fate

  predicate Adjacent(p: Pos, q: Pos) {
    || (p.x == q.x && (p.y == q.y + 1 || q.y == p.y + 1))
    || (p.y == q.y && (p.x == q.x + 1 || q.x == p.x + 1))
  }

  predicate Open(s: State, p: Pos)
    requires WellFormed(s)
  {
    IsValidPosition(s, p.x, p.y) && At(s, p.x, p.y).content != 'W'
  }

  /** Four-neighbour steps, each into an open cell. */
  ghost predicate Walk(s: State, path: seq<Pos>)
    requires WellFormed(s)
  {
    |path| > 0 && forall i :: 0 < i < |path| ==> Adjacent(path[i - 1], path[i]) && Open(s, path[i])
  }

  ghost predicate WalkBetween(s: State, path: seq<Pos>, p: Pos, q: Pos, n: nat)
    requires WellFormed(s)
  {
    Walk(s, path) && path[0] == p && path[|path| - 1] == q && |path| <= n + 1
  }

  /** A walk of at most n steps leads from p to q. */
  ghost predicate Joined(s: State, p: Pos, q: Pos, n: nat)
    requires WellFormed(s)
  {
    exists path :: WalkBetween(s, path, p, q, n)
  }

  function GhostPos(s: State, g: int): Pos
    requires 0 <= g < |s.ghosts|
  {
    Pos(s.ghosts[g].x, s.ghosts[g].y)
  }

  function PacPos(s: State): Pos {
    Pos(s.pac.x, s.pac.y)
  }

  lemma JoinedHere(s: State, p: Pos, n: nat)
    requires WellFormed(s)
    ensures Joined(s, p, p, n)
  {
    assert WalkBetween(s, [p], p, p, n);
  }

  lemma JoinedNext(s: State, p: Pos, q: Pos)
    requires WellFormed(s) && Adjacent(p, q) && Open(s, q)
    ensures Joined(s, p, q, 1)
  {
    assert WalkBetween(s, [p, q], p, q, 1);
  }

  /** Walks compose, also across two states of the same maze. */
  lemma JoinedTransitive(s: State, t: State, p: Pos, q: Pos, r: Pos, m: nat, n: nat)
    requires WellFormed(s) && WellFormed(t) && SameMaze(s, t)
    requires Joined(s, p, q, m) && Joined(t, q, r, n)
    ensures Joined(s, p, r, m + n)
  {
    var a :| WalkBetween(s, a, p, q, m);
    var b :| WalkBetween(t, b, q, r, n);
    var path := a + b[1..];
    forall i | 0 < i < |path| ensures Adjacent(path[i - 1], path[i]) && Open(s, path[i]) {
      if i >= |a| {
        var j := i - |a| + 1;
        assert path[i] == b[j] && path[i - 1] == b[j - 1];
        assert Open(t, b[j]);
      }
    }
    assert WalkBetween(s, path, p, r, m + n);
  }

  /** A walk is at least as long as the Manhattan distance it covers. */
  lemma JoinedBoundsDistance(s: State, p: Pos, q: Pos, n: nat)
    requires WellFormed(s) && Joined(s, p, q, n)
    ensures Distance(p, q) <= n
  {
    var path :| WalkBetween(s, path, p, q, n);
    WalkBoundsDistance(s, path);
  }

  function Distance(p: Pos, q: Pos): nat {
    (if p.x < q.x then q.x - p.x else p.x - q.x) + (if p.y < q.y then q.y - p.y else p.y - q.y)
  }

  lemma {:induction false} WalkBoundsDistance(s: State, path: seq<Pos>)
    requires WellFormed(s) && Walk(s, path)
    ensures Distance(path[0], path[|path| - 1]) < |path|
  {
    if |path| > 1 {
      WalkBoundsDistance(s, path[..|path| - 1]);
      assert Adjacent(path[|path| - 2], path[|path| - 1]);
    }
  }

  // ----- single moves

  lemma GhostStepJoins(s: State, g: int, d: char)
    requires WellFormed(s) && 0 <= g < |s.ghosts| && IsDirection(d)
    ensures Joined(s, GhostPos(s, g), GhostPos(GhostStep(s, g, d).s, g), 1)
  {
    var p, q := GhostPos(s, g), GhostPos(GhostStep(s, g, d).s, g);
    if p == q {
      JoinedHere(s, p, 1);
    } else {
      JoinedNext(s, p, q);
    }
  }

  lemma {:induction false} SlideJoins(s: State, x: int, y: int, d: char)
    requires WellFormed(s) && IsValidPosition(s, x, y) && IsDirection(d)
    ensures var e := SlideEnd(s, x, y, d);
            0 <= Room(s, x, y, d) && Joined(s, Pos(x, y), Pos(e.x, e.y), Room(s, x, y, d))
    decreases Room(s, x, y, d)
  {
    var e, room := SlideEnd(s, x, y, d), Room(s, x, y, d);
    if e.x == x && e.y == y {
      JoinedHere(s, Pos(x, y), room);
    } else {
      var nx, ny := StepX(x, d), StepY(y, d);
      JoinedNext(s, Pos(x, y), Pos(nx, ny));
      if At(s, nx, ny).content == 'P' {
        JoinedHere(s, Pos(nx, ny), room - 1);
      } else {
        SlideJoins(s, nx, ny, d);
      }
      JoinedTransitive(s, s, Pos(x, y), Pos(nx, ny), Pos(e.x, e.y), 1, room - 1);
    }
  }

  lemma ReadyStepJoins(s: State, g: int, d: char)
    requires WellFormed(s) && 0 <= g < |s.ghosts| && IsDirection(d) && !s.ghosts[g].charged
    ensures Joined(s, GhostPos(s, g), GhostPos(ReadyMove(s, g, d).s, g), 1)
  {
    var ready := SetGhost(s, g, Ready(s.ghosts[g]));
    GhostStepJoins(ready, g, d);
    JoinedInSameCells(ready, s, GhostPos(s, g), GhostPos(ReadyMove(s, g, d).s, g), 1);
  }

  lemma ReadyChargeJoins(s: State, g: int, d: char)
    requires WellFormed(s) && 0 <= g < |s.ghosts| && IsDirection(d) && s.ghosts[g].charged
    ensures 0 <= Room(s, s.ghosts[g].x, s.ghosts[g].y, d)
    ensures Joined(s, GhostPos(s, g), GhostPos(ReadyMove(s, g, d).s, g), Room(s, s.ghosts[g].x, s.ghosts[g].y, d))
  {
    var x, y := s.ghosts[g].x, s.ghosts[g].y;
    var ready := SetGhost(s, g, Ready(s.ghosts[g]));
    var u := SetGhost(ready, g, ready.ghosts[g].(charged := false));
    SlideJoins(u, x, y, d);
    JoinedInSameCells(u, s, GhostPos(s, g), GhostPos(ReadyMove(s, g, d).s, g), Room(s, x, y, d));
  }

  lemma GhostCallJoins(s: State, g: int, rnd: nat) returns (n: nat)
    requires WellFormed(s) && 0 <= g < |s.ghosts|
    ensures Joined(s, GhostPos(s, g), GhostPos(GhostCallOn(s, g, rnd).s, g), n)
    ensures s.ghosts[g].waiting > 0 ==> n == 0
    ensures !s.ghosts[g].charged ==> n <= 1
  {
    var gh := s.ghosts[g];
    if Moves(gh, rnd) {
      var d := Resolve(gh.moves[Slot(gh)].command, rnd);
      GhostCallMoves(s, g, rnd);
      n := 1;
      if gh.charged {
        ReadyChargeJoins(s, g, d);
        n := Room(s, gh.x, gh.y, d);
      } else {
        ReadyStepJoins(s, g, d);
      }
    } else {
      GhostCallWaits(s, g, rnd);
      n := 0;
      JoinedHere(s, GhostPos(s, g), n);
    }
  }

  lemma JoinedInSameCells(s: State, t: State, p: Pos, q: Pos, n: nat)
    requires WellFormed(s) && WellFormed(t) && Joined(s, p, q, n)
    requires s.width == t.width && s.height == t.height && s.cells == t.cells
    ensures Joined(t, p, q, n)
  {
    var path :| WalkBetween(s, path, p, q, n);
    assert forall i :: 0 < i < |path| ==> Open(s, path[i]) ==> Open(t, path[i]);
    assert WalkBetween(t, path, p, q, n);
  }

  lemma OthersStay(s: State, a: Action, g: int)
    requires WellFormed(s) && Legal(s, a) && 0 <= g < |s.ghosts|
    requires a.GhostCall? ==> a.g != g
    ensures Do(s, a).s.ghosts[g] == s.ghosts[g]
  {
    if a.GhostCall? {
      GhostCallCases(s, a.g, a.rnd);
    }
  }

  lemma PacmanCallJoins(s: State, cmd: Command, rnd: nat)
    requires WellFormed(s)
    ensures Joined(s, PacPos(s), PacPos(PacmanTurn(s, cmd, rnd).s),
                   if s.pac.alive && s.pac.waiting <= 0 then 1 else 0)
  {
    var p, q := PacPos(s), PacPos(PacmanTurn(s, cmd, rnd).s);
    if p == q {
      JoinedHere(s, p, if s.pac.alive && s.pac.waiting <= 0 then 1 else 0);
    } else {
      JoinedNext(s, p, q);
    }
  }

  // ----- the walls stay

  /** No agent in play stands on a wall, and no portal is walled up. */
  ghost predicate Grounded(s: State) {
    && WellFormed(s)
    && (forall g :: 0 <= g < |s.ghosts| ==> s.cells[GhostIndex(s, g)].content != 'W')
    && (s.pac.alive ==> s.cells[PacIndex(s)].content != 'W')
    && (forall c :: 0 <= c < |s.cells| && s.cells[c].hasPortal ==> s.cells[c].content != 'W')
  }

  lemma AgreeingIsGrounded(s: State)
    requires Agree(s) && forall c :: 0 <= c < |s.cells| && s.cells[c].hasPortal ==> s.cells[c].content != 'W'
    ensures Grounded(s)
  {
  }

  /** The same walls and portals, and no agent has moved onto a wall. */
  ghost predicate StaysGrounded(s: State, t: State) {
    Grounded(t) && SameMaze(s, t)
  }

  lemma KillStaysGrounded(s: State)
    requires Grounded(s) && s.pac.alive
    ensures StaysGrounded(s, KillPacman(s))
  {
    var t := KillPacman(s);
    assert forall g :: 0 <= g < |s.ghosts| ==> GhostIndex(t, g) == GhostIndex(s, g);
  }

  lemma RelocateStaysGrounded(s: State, g: int, x: int, y: int)
    requires Grounded(s) && 0 <= g < |s.ghosts| && IsValidPosition(s, x, y) && At(s, x, y).content != 'W'
    ensures StaysGrounded(s, Relocate(s, g, x, y))
  {
    var t := Relocate(s, g, x, y);
    assert forall h :: 0 <= h < |s.ghosts| ==>
             GhostIndex(t, h) == if h == g then Index(s.width, s.height, x, y) else GhostIndex(s, h);
    assert PacIndex(t) == PacIndex(s);
  }

  lemma SetTimingStaysGrounded(s: State, g: int, gh: Ghost)
    requires Grounded(s) && 0 <= g < |s.ghosts|
    requires gh.x == s.ghosts[g].x && gh.y == s.ghosts[g].y && |gh.moves| > 0 && gh.currentMove >= 0
    ensures StaysGrounded(s, SetGhost(s, g, gh))
  {
    var t := SetGhost(s, g, gh);
    assert forall h :: 0 <= h < |s.ghosts| ==> GhostIndex(t, h) == GhostIndex(s, h);
  }

  lemma GhostStepStaysGrounded(s: State, g: int, d: char)
    requires Grounded(s) && 0 <= g < |s.ghosts|
    ensures StaysGrounded(s, GhostStep(s, g, d).s)
  {
    var nx, ny := StepX(s.ghosts[g].x, d), StepY(s.ghosts[g].y, d);
    if IsValidPosition(s, nx, ny) && At(s, nx, ny).content !in {'W', 'M'} {
      if At(s, nx, ny).content == 'P' && FindAndKill(s, nx, ny).out == DeadPacman {
        KillStaysGrounded(s);
        RelocateStaysGrounded(KillPacman(s), g, nx, ny);
      } else {
        RelocateStaysGrounded(s, g, nx, ny);
      }
    }
  }

  lemma GhostChargeStaysGrounded(s: State, g: int, d: char)
    requires Grounded(s) && 0 <= g < |s.ghosts| && IsDirection(d)
    ensures StaysGrounded(s, GhostCharge(s, g, d).s)
  {
    var x, y := s.ghosts[g].x, s.ghosts[g].y;
    var u := SetGhost(s, g, s.ghosts[g].(charged := false));
    SetTimingStaysGrounded(s, g, u.ghosts[g]);
    if Room(u, x, y, d) != 0 {
      var e := SlideEnd(u, x, y, d);
      SlideEndIsFree(u, x, y, d);
      assert At(u, x, y).content != 'W' by {
        assert GhostIndex(u, g) == Index(u.width, u.height, x, y);
      }
      if e.hit && FindAndKill(u, e.x, e.y).out == DeadPacman {
        KillStaysGrounded(u);
        RelocateStaysGrounded(KillPacman(u), g, e.x, e.y);
      } else {
        RelocateStaysGrounded(u, g, e.x, e.y);
      }
    }
  }

  lemma GhostCallStaysGrounded(s: State, g: int, rnd: nat)
    requires Grounded(s) && 0 <= g < |s.ghosts|
    ensures StaysGrounded(s, GhostCallOn(s, g, rnd).s)
  {
    var gh := s.ghosts[g];
    if Moves(gh, rnd) {
      var d := Resolve(gh.moves[Slot(gh)].command, rnd);
      GhostCallMoves(s, g, rnd);
      SetTimingStaysGrounded(s, g, Ready(gh));
      GhostStepStaysGrounded(SetGhost(s, g, Ready(gh)), g, d);
      GhostChargeStaysGrounded(SetGhost(s, g, Ready(gh)), g, d);
    } else {
      GhostCallWaits(s, g, rnd);
      SetTimingStaysGrounded(s, g, GhostCallOn(s, g, rnd).s.ghosts[g]);
    }
  }

  lemma SetPacmanStaysGrounded(s: State, pac: Pacman)
    requires Grounded(s) && pac.x == s.pac.x && pac.y == s.pac.y && pac.alive == s.pac.alive
    ensures StaysGrounded(s, s.(pac := pac))
  {
    var t := s.(pac := pac);
    assert forall g :: 0 <= g < |s.ghosts| ==> GhostIndex(t, g) == GhostIndex(s, g);
  }

  lemma PacmanStepStaysGrounded(s: State, d: char)
    requires Grounded(s) && s.pac.alive
    ensures StaysGrounded(s, PacmanStep(s, d).s)
  {
    var t := PacmanStep(s, d).s;
    assert forall g :: 0 <= g < |s.ghosts| ==> GhostIndex(t, g) == GhostIndex(s, g);
  }

  lemma PacmanCallStaysGrounded(s: State, cmd: Command, rnd: nat)
    requires Grounded(s)
    ensures StaysGrounded(s, PacmanTurn(s, cmd, rnd).s)
  {
    var d := Resolve(cmd.command, rnd);
    if s.pac.alive && s.pac.waiting <= 0 && IsDirection(d) {
      var ready := s.(pac := s.pac.(waiting := s.pac.passo, currentMove := s.pac.currentMove + 1));
      SetPacmanStaysGrounded(s, ready.pac);
      PacmanStepStaysGrounded(ready, d);
    } else {
      SetPacmanStaysGrounded(s, PacmanTurn(s, cmd, rnd).s.pac);
    }
  }

  /** Every call keeps the walls where they are and the agents off them, the portal included. */
  lemma DoStaysGrounded(s: State, a: Action)
    requires Grounded(s) && Legal(s, a)
    ensures StaysGrounded(s, Do(s, a).s)
  {
    match a
    case PacCall(cmd, rnd) => PacmanCallStaysGrounded(s, cmd, rnd);
    case GhostCall(g, rnd) => GhostCallStaysGrounded(s, g, rnd);
  }

  lemma {:induction false} RunStaysGrounded(s: State, acts: seq<Action>)
    requires Grounded(s) && LegalRun(s, acts)
    ensures StaysGrounded(s, Run(s, acts))
    decreases |acts|
  {
    if acts != [] {
      DoStaysGrounded(s, acts[0]);
      RunStaysGrounded(Do(s, acts[0]).s, acts[1..]);
    }
  }

  // ----- reachability over runs

  /** Every ghost, charging or not, ends joined to its start. */
  lemma {:induction false} GhostStaysJoined(s: State, acts: seq<Action>, g: int)
    requires Grounded(s) && LegalRun(s, acts) && 0 <= g < |s.ghosts|
    ensures exists n: nat :: Joined(s, GhostPos(s, g), GhostPos(Run(s, acts), g), n)
    decreases |acts|
  {
    if acts == [] {
      JoinedHere(s, GhostPos(s, g), 0);
      assert Joined(s, GhostPos(s, g), GhostPos(Run(s, acts), g), 0);
    } else {
      var t := Do(s, acts[0]).s;
      DoStaysGrounded(s, acts[0]);
      GhostStaysJoined(t, acts[1..], g);
      var n: nat :| Joined(t, GhostPos(t, g), GhostPos(Run(s, acts), g), n);
      var m := 0;
      if acts[0] == GhostCall(g, acts[0].rnd) {
        m := GhostCallJoins(s, g, acts[0].rnd);
      } else {
        OthersStay(s, acts[0], g);
        JoinedHere(s, GhostPos(s, g), 0);
      }
      JoinedTransitive(s, t, GhostPos(s, g), GhostPos(t, g), GhostPos(Run(s, acts), g), m, n);
    }
  }

  // ----- counting active calls

  /** Active calls among k calls of an agent that still has w calls to wait. */
  function Active(k: nat, w: nat, passo: nat): (n: nat)
    requires w <= passo
    ensures n <= k
  {
    if k == 0 then 0 else if w > 0 then Active(k - 1, w - 1, passo) else 1 + Active(k - 1, passo, passo)
  }

  /** The active calls among k calls, when the first w of them are spent waiting. */
  function Limit(k: nat, w: int, passo: int): int
    requires 0 <= w <= passo
  {
    if k <= w then 0 else (k - w - 1) / (passo + 1) + 1
  }

  lemma {:induction false} ActiveExactly(k: nat, w: nat, passo: nat)
    requires w <= passo
    ensures Active(k, w, passo) == Limit(k, w, passo)
  {
    if k == 0 {
    } else if w > 0 {
      ActiveExactly(k - 1, w - 1, passo);
    } else {
      ActiveExactly(k - 1, passo, passo);
      if k - 1 > passo {
        DivStep(k - 1, passo + 1);
      } else {
        SmallDiv(k - 1, passo + 1);
      }
    }
  }

  lemma SmallDiv(a: nat, b: nat)
    requires a < b
    ensures a / b == 0
  {
  }

  lemma DivStep(a: int, b: int)
    requires 0 < b <= a
    ensures a / b == (a - b) / b + 1
  {
    assert a == b * (a / b) + a % b;
    assert a - b == b * (a / b - 1) + a % b;
    DivUnique(a - b, b, a / b - 1, a % b);
  }

  lemma DivUnique(a: int, b: int, q: int, r: int)
    requires 0 <= r < b && a == b * q + r
    ensures a / b == q
  {
    QuotientsAgree(b, q, r, a / b, a % b);
  }

  lemma QuotientsAgree(b: int, q: int, r: int, q': int, r': int)
    requires 0 <= r < b && 0 <= r' < b && b * q + r == b * q' + r'
    ensures q == q'
  {
    GapTimes(b, q, q');
    GapTimes(b, q', q);
  }

  lemma GapTimes(b: int, q: int, q': int)
    requires b > 0
    ensures q > q' ==> b * q >= b * q' + b
  {
    if q > q' {
      assert b * q >= b * (q' + 1) == b * q' + b;
    }
  }

  lemma {:induction false} ActiveMonotone(k: nat, w: nat, passo: nat)
    requires w <= passo
    ensures Active(k, w, passo) <= Active(k + 1, w, passo)
  {
    if k > 0 {
      if w > 0 {
        ActiveMonotone(k - 1, w - 1, passo);
      } else {
        ActiveMonotone(k - 1, passo, passo);
      }
    }
  }

  /** One call more, or one call of somebody else. */
  lemma ActiveStep(call: bool, k: nat, w: nat, w': nat, passo: nat)
    requires w <= passo && w' == if !call then w else if w > 0 then w - 1 else passo
    ensures Active(k + if call then 1 else 0, w, passo)
            == Active(k, w', passo) + if call && w == 0 then 1 else 0
  {
  }

  function PacCalls(acts: seq<Action>): nat {
    if acts == [] then 0 else (if acts[0].PacCall? then 1 else 0) + PacCalls(acts[1..])
  }

  function GhostCalls(acts: seq<Action>, g: int): nat {
    if acts == [] then 0 else (if acts[0].GhostCall? && acts[0].g == g then 1 else 0) + GhostCalls(acts[1..], g)
  }

  /** The calls of a run at which the pacman is alive and done waiting. */
  function PacActive(s: State, acts: seq<Action>): nat
    requires WellFormed(s) && LegalRun(s, acts)
    decreases |acts|
  {
    if acts == [] then 0
    else (if acts[0].PacCall? && s.pac.alive && s.pac.waiting <= 0 then 1 else 0)
         + PacActive(Do(s, acts[0]).s, acts[1..])
  }

  /** The calls of a run at which ghost g is done waiting. */
  function GhostActive(s: State, acts: seq<Action>, g: int): nat
    requires WellFormed(s) && LegalRun(s, acts) && 0 <= g < |s.ghosts|
    decreases |acts|
  {
    if acts == [] then 0
    else (if acts[0].GhostCall? && acts[0].g == g && s.ghosts[g].waiting <= 0 then 1 else 0)
         + GhostActive(Do(s, acts[0]).s, acts[1..], g)
  }

  /** One call's share of the pacman's active calls, and what it leaves of the waiting. */
  lemma PacCallTiming(s: State, a: Action)
    requires WellFormed(s) && Legal(s, a)
    ensures var pac := Do(s, a).s.pac;
            && pac.passo == s.pac.passo && (pac.alive ==> s.pac.alive)
            && pac.waiting == if a.GhostCall? || !s.pac.alive then s.pac.waiting
                              else if s.pac.waiting > 0 then s.pac.waiting - 1 else s.pac.passo
  {
    match a
    case GhostCall(g, rnd) => GhostCallOnlyKills(s, g, rnd);
    case PacCall(cmd, rnd) => PacmanTiming(s, cmd, rnd);
  }

  /** A live pacman's active calls are exactly as many as `passo` allows; a death only lowers the number. */
  lemma {:induction false} PacActiveExactly(s: State, acts: seq<Action>)
    requires WellFormed(s) && LegalRun(s, acts) && 0 <= s.pac.waiting <= s.pac.passo
    ensures PacActive(s, acts) <= Active(PacCalls(acts), s.pac.waiting, s.pac.passo)
    ensures Run(s, acts).pac.alive ==>
              s.pac.alive && PacActive(s, acts) == Active(PacCalls(acts), s.pac.waiting, s.pac.passo)
    decreases |acts|
  {
    hide Do;
    if acts != [] {
      var a, t, n := acts[0], Do(s, acts[0]).s, PacCalls(acts[1..]);
      PacCallTiming(s, a);
      PacActiveExactly(t, acts[1..]);
      if s.pac.alive {
        ActiveStep(a.PacCall?, n, s.pac.waiting, t.pac.waiting, s.pac.passo);
      } else if a.PacCall? {
        ActiveMonotone(n, s.pac.waiting, s.pac.passo);
      }
    }
  }

  lemma PacmanTiming(s: State, cmd: Command, rnd: nat)
    requires WellFormed(s)
    ensures var pac := PacmanTurn(s, cmd, rnd).s.pac;
            && pac.passo == s.pac.passo && (pac.alive ==> s.pac.alive)
            && pac.waiting == if !s.pac.alive then s.pac.waiting
                              else if s.pac.waiting > 0 then s.pac.waiting - 1 else s.pac.passo
  {
  }

  lemma GhostTiming(s: State, g: int, rnd: nat)
    requires WellFormed(s) && 0 <= g < |s.ghosts|
    ensures var gh, gh' := s.ghosts[g], GhostCallOn(s, g, rnd).s.ghosts[g];
            gh'.passo == gh.passo && gh'.waiting == if gh.waiting > 0 then gh.waiting - 1 else gh.passo
  {
    GhostCallCases(s, g, rnd);
  }

  lemma GhostCallTiming(s: State, a: Action, g: int)
    requires WellFormed(s) && Legal(s, a) && 0 <= g < |s.ghosts|
    ensures var gh, gh' := s.ghosts[g], Do(s, a).s.ghosts[g];
            && gh'.passo == gh.passo
            && gh'.waiting == if a != GhostCall(g, a.rnd) then gh.waiting
                              else if gh.waiting > 0 then gh.waiting - 1 else gh.passo
  {
    if a == GhostCall(g, a.rnd) {
      GhostTiming(s, g, a.rnd);
    } else {
      OthersStay(s, a, g);
    }
  }

  /** A ghost's active calls are exactly as many as its `passo` allows. */
  lemma {:induction false} GhostActiveExactly(s: State, acts: seq<Action>, g: int)
    requires WellFormed(s) && LegalRun(s, acts) && 0 <= g < |s.ghosts|
    requires 0 <= s.ghosts[g].waiting <= s.ghosts[g].passo
    ensures GhostActive(s, acts, g) == Active(GhostCalls(acts, g), s.ghosts[g].waiting, s.ghosts[g].passo)
    decreases |acts|
  {
    hide Do;
    if acts != [] {
      var a, t, n := acts[0], Do(s, acts[0]).s, GhostCalls(acts[1..], g);
      GhostCallTiming(s, a, g);
      GhostActiveExactly(t, acts[1..], g);
      ActiveStep(a == GhostCall(g, a.rnd), n, s.ghosts[g].waiting, t.ghosts[g].waiting, s.ghosts[g].passo);
    }
  }

  /** The pacman is joined to its start by a walk with at most one step per active call. */
  lemma {:induction false} PacmanStaysJoined(s: State, acts: seq<Action>)
    requires Grounded(s) && LegalRun(s, acts)
    ensures Joined(s, PacPos(s), PacPos(Run(s, acts)), PacActive(s, acts))
    decreases |acts|
  {
    if acts == [] {
      JoinedHere(s, PacPos(s), 0);
    } else {
      var t := Do(s, acts[0]).s;
      DoStaysGrounded(s, acts[0]);
      PacmanStaysJoined(t, acts[1..]);
      var m := if acts[0].PacCall? && s.pac.alive && s.pac.waiting <= 0 then 1 else 0;
      if acts[0].PacCall? {
        PacmanCallJoins(s, acts[0].cmd, acts[0].rnd);
      } else {
        GhostCallOnlyKills(s, acts[0].g, acts[0].rnd);
        JoinedHere(s, PacPos(s), 0);
      }
      JoinedTransitive(s, t, PacPos(s), PacPos(t), PacPos(Run(s, acts)), m, PacActive(t, acts[1..]));
    }
  }

  predicate NeverCharges(gh: Ghost) {
    !gh.charged && forall k :: 0 <= k < |gh.moves| ==> gh.moves[k].command != 'C'
  }

  lemma StillNeverCharges(s: State, g: int, rnd: nat)
    requires WellFormed(s) && 0 <= g < |s.ghosts| && NeverCharges(s.ghosts[g])
    ensures NeverCharges(GhostCallOn(s, g, rnd).s.ghosts[g])
  {
    var gh := s.ghosts[g];
    GhostCallCases(s, g, rnd);
    assert gh.moves[Slot(gh)].command != 'C';
  }

  lemma SlowCall(s: State, a: Action, g: int)
    requires WellFormed(s) && Legal(s, a) && 0 <= g < |s.ghosts| && NeverCharges(s.ghosts[g])
    ensures NeverCharges(Do(s, a).s.ghosts[g])
    ensures Joined(s, GhostPos(s, g), GhostPos(Do(s, a).s, g),
                   if a.GhostCall? && a.g == g && s.ghosts[g].waiting <= 0 then 1 else 0)
  {
    if a.GhostCall? && a.g == g {
      StillNeverCharges(s, g, a.rnd);
      var n := GhostCallJoins(s, g, a.rnd);
      JoinedMore(s, GhostPos(s, g), GhostPos(Do(s, a).s, g), n, if s.ghosts[g].waiting <= 0 then 1 else 0);
    } else {
      OthersStay(s, a, g);
      JoinedHere(s, GhostPos(s, g), 0);
    }
  }

  /** A ghost without charges is joined to its start by a walk with at most one step per active call. */
  lemma {:induction false} GhostWalksSlowly(s: State, acts: seq<Action>, g: int)
    requires Grounded(s) && LegalRun(s, acts)
    requires 0 <= g < |s.ghosts| && NeverCharges(s.ghosts[g])
    ensures Joined(s, GhostPos(s, g), GhostPos(Run(s, acts), g), GhostActive(s, acts, g))
    decreases |acts|
  {
    hide Do;
    if acts == [] {
      JoinedHere(s, GhostPos(s, g), 0);
    } else {
      var t := Do(s, acts[0]).s;
      DoStaysGrounded(s, acts[0]);
      SlowCall(s, acts[0], g);
      GhostWalksSlowly(t, acts[1..], g);
      var m := if acts[0].GhostCall? && acts[0].g == g && s.ghosts[g].waiting <= 0 then 1 else 0;
      JoinedTransitive(s, t, GhostPos(s, g), GhostPos(t, g), GhostPos(Run(s, acts), g),
                       m, GhostActive(t, acts[1..], g));
    }
  }

  lemma JoinedMore(s: State, p: Pos, q: Pos, m: nat, n: nat)
    requires WellFormed(s) && Joined(s, p, q, m) && m <= n
    ensures Joined(s, p, q, n)
  {
    var path :| WalkBetween(s, path, p, q, m);
    assert WalkBetween(s, path, p, q, n);
  }

  // ----- the speed limit

  lemma PacActiveLimit(s: State, acts: seq<Action>)
    requires WellFormed(s) && LegalRun(s, acts) && 0 <= s.pac.waiting <= s.pac.passo
    ensures PacActive(s, acts) <= Limit(PacCalls(acts), s.pac.waiting, s.pac.passo)
  {
    PacActiveExactly(s, acts);
    ActiveExactly(PacCalls(acts), s.pac.waiting, s.pac.passo);
  }

  lemma GhostActiveLimit(s: State, acts: seq<Action>, g: int)
    requires WellFormed(s) && LegalRun(s, acts) && 0 <= g < |s.ghosts|
    requires 0 <= s.ghosts[g].waiting <= s.ghosts[g].passo
    ensures GhostActive(s, acts, g) == Limit(GhostCalls(acts, g), s.ghosts[g].waiting, s.ghosts[g].passo)
  {
    GhostActiveExactly(s, acts, g);
    ActiveExactly(GhostCalls(acts, g), s.ghosts[g].waiting, s.ghosts[g].passo);
  }

  lemma PacCallDistance(s: State, a: Action)
    requires WellFormed(s) && Legal(s, a)
    ensures Distance(PacPos(s), PacPos(Do(s, a).s))
            <= if a.PacCall? && s.pac.alive && s.pac.waiting <= 0 then 1 else 0
  {
    match a
    case PacCall(cmd, rnd) => PacmanCallJoins(s, cmd, rnd);
      JoinedBoundsDistance(s, PacPos(s), PacPos(Do(s, a).s), if s.pac.alive && s.pac.waiting <= 0 then 1 else 0);
    case GhostCall(g, rnd) => GhostCallOnlyKills(s, g, rnd);
  }

  /** On any level and over any run, the pacman covers at most one cell per active call. */
  lemma {:induction false} PacmanCovers(s: State, acts: seq<Action>)
    requires WellFormed(s) && LegalRun(s, acts)
    ensures Distance(PacPos(s), PacPos(Run(s, acts))) <= PacActive(s, acts)
    decreases |acts|
  {
    hide Do;
    if acts != [] {
      PacCallDistance(s, acts[0]);
      PacmanCovers(Do(s, acts[0]).s, acts[1..]);
    }
  }

  lemma PacmanSpeedLimit(s: State, acts: seq<Action>)
    requires WellFormed(s) && LegalRun(s, acts)
    requires 0 <= s.pac.waiting <= s.pac.passo
    ensures Distance(PacPos(s), PacPos(Run(s, acts))) <= Limit(PacCalls(acts), s.pac.waiting, s.pac.passo)
  {
    PacActiveLimit(s, acts);
    PacmanCovers(s, acts);
  }

  /** On any level and over any run, a ghost without charges covers at most one cell per active call. */
  lemma {:induction false} GhostCovers(s: State, acts: seq<Action>, g: int)
    requires WellFormed(s) && LegalRun(s, acts) && 0 <= g < |s.ghosts| && NeverCharges(s.ghosts[g])
    ensures Distance(GhostPos(s, g), GhostPos(Run(s, acts), g)) <= GhostActive(s, acts, g)
    decreases |acts|
  {
    hide Do;
    if acts != [] {
      var t := Do(s, acts[0]).s;
      SlowCall(s, acts[0], g);
      JoinedBoundsDistance(s, GhostPos(s, g), GhostPos(t, g),
                           if acts[0].GhostCall? && acts[0].g == g && s.ghosts[g].waiting <= 0 then 1 else 0);
      GhostCovers(t, acts[1..], g);
    }
  }

  lemma GhostSpeedLimit(s: State, acts: seq<Action>, g: int)
    requires WellFormed(s) && LegalRun(s, acts)
    requires 0 <= g < |s.ghosts| && NeverCharges(s.ghosts[g])
    requires 0 <= s.ghosts[g].waiting <= s.ghosts[g].passo
    ensures Distance(GhostPos(s, g), GhostPos(Run(s, acts), g))
            <= Limit(GhostCalls(acts, g), s.ghosts[g].waiting, s.ghosts[g].passo)
  {
    GhostActiveLimit(s, acts, g);
    GhostCovers(s, acts, g);
  }
}
