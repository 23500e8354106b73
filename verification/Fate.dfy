/**
  What a run of atomic calls can do to the score and to the pacman: dots are conserved, and
  death happens once and freezes the pacman.
 */
module Fate {
  import opened Maze
  import opened Agreement

  // ----- dots

  /** How many cells still carry a dot. */
  function Dots(cells: seq<Cell>): nat {
    if cells == [] then 0 else (if cells[0].hasDot then 1 else 0) + Dots(cells[1..])
  }

  lemma {:induction false} DotsUpdate(cells: seq<Cell>, i: int, c: Cell)
    requires 0 <= i < |cells|
    ensures Dots(cells[i := c]) ==
            Dots(cells) - (if cells[i].hasDot then 1 else 0) + (if c.hasDot then 1 else 0)
  {
    if i == 0 {
      assert cells[i := c][1..] == cells[1..];
    } else {
      assert cells[i := c][1..] == cells[1..][i - 1 := c];
      DotsUpdate(cells[1..], i - 1, c);
    }
  }

  lemma {:induction false} DotsSame(cells: seq<Cell>, cells': seq<Cell>)
    requires |cells| == |cells'|
    requires forall c :: 0 <= c < |cells| ==> cells[c].hasDot == cells'[c].hasDot
    ensures Dots(cells) == Dots(cells')
  {
    if cells != [] {
      DotsSame(cells[1..], cells'[1..]);
    }
  }

  /** All a ghost's move does outside the contents of cells: perhaps end the pacman's life, and then say so. */
  ghost predicate OnlyKills(s: State, r: Result) {
    && |r.s.cells| == |s.cells|
    && (forall c :: 0 <= c < |s.cells| ==> r.s.cells[c].hasDot == s.cells[c].hasDot)
    && r.out != ReachedPortal
    && (r.out == DeadPacman ==> s.pac.alive)
    && r.s.pac == if r.out == DeadPacman then s.pac.(alive := false) else s.pac
  }

  lemma GhostStepOnlyKills(s: State, g: int, d: char)
    requires WellFormed(s) && 0 <= g < |s.ghosts|
    ensures OnlyKills(s, GhostStep(s, g, d))
  {
  }

  lemma GhostChargeOnlyKills(s: State, g: int, d: char)
    requires WellFormed(s) && 0 <= g < |s.ghosts| && IsDirection(d)
    ensures OnlyKills(s, GhostCharge(s, g, d))
  {
  }

  lemma GhostCallOnlyKills(s: State, g: int, rnd: nat)
    requires WellFormed(s) && 0 <= g < |s.ghosts|
    ensures OnlyKills(s, GhostCallOn(s, g, rnd))
  {
    var gh := s.ghosts[g];
    GhostCallCases(s, g, rnd);
    if Moves(gh, rnd) {
      var d := Resolve(gh.moves[Slot(gh)].command, rnd);
      if gh.charged {
        GhostChargeOnlyKills(SetGhost(s, g, Ready(gh)), g, d);
      } else {
        GhostStepOnlyKills(SetGhost(s, g, Ready(gh)), g, d);
      }
    }
  }

  lemma PacmanStepConservesDots(s: State, d: char)
    requires WellFormed(s)
    ensures var t := PacmanStep(s, d).s; t.pac.points + Dots(t.cells) == s.pac.points + Dots(s.cells)
    ensures PacmanStep(s, d).s.pac.points >= s.pac.points
  {
    var r := PacmanStep(s, d);
    var nx, ny := StepX(s.pac.x, d), StepY(s.pac.y, d);
    if r.out == ValidMove {
      var i := Index(s.width, s.height, nx, ny);
      var eaten := s.cells[i := s.cells[i].(hasDot := false)];
      DotsUpdate(s.cells, i, s.cells[i].(hasDot := false));
      DotsSame(eaten, r.s.cells);
    } else {
      DotsSame(s.cells, r.s.cells);
    }
  }

  lemma DoConservesDots(s: State, a: Action)
    requires WellFormed(s) && Legal(s, a)
    ensures var t := Do(s, a).s; t.pac.points + Dots(t.cells) == s.pac.points + Dots(s.cells)
    ensures Do(s, a).s.pac.points >= s.pac.points
  {
    match a
    case GhostCall(g, rnd) =>
      GhostCallOnlyKills(s, g, rnd);
      DotsSame(s.cells, Do(s, a).s.cells);
    case PacCall(cmd, rnd) =>
      if s.pac.alive && s.pac.waiting <= 0 && IsDirection(Resolve(cmd.command, rnd)) {
        var ready := s.(pac := s.pac.(waiting := s.pac.passo, currentMove := s.pac.currentMove + 1));
        PacmanStepConservesDots(ready, Resolve(cmd.command, rnd));
      }
  }

  /** Points plus remaining dots never change, and points never decrease; the portal makes no exception. */
  lemma {:induction false} RunConservesDots(s: State, acts: seq<Action>)
    requires WellFormed(s) && LegalRun(s, acts)
    ensures var t := Run(s, acts); t.pac.points + Dots(t.cells) == s.pac.points + Dots(s.cells)
    ensures Run(s, acts).pac.points >= s.pac.points
    decreases |acts|
  {
    if acts != [] {
      DoConservesDots(s, acts[0]);
      RunConservesDots(Do(s, acts[0]).s, acts[1..]);
    }
  }

  // ----- death

  /** The ghost calls of a run that report a death. */
  function Deaths(s: State, acts: seq<Action>): nat
    requires WellFormed(s) && LegalRun(s, acts)
    decreases |acts|
  {
    if acts == [] then 0
    else
      var r := Do(s, acts[0]);
      (if acts[0].GhostCall? && r.out == DeadPacman then 1 else 0) + Deaths(r.s, acts[1..])
  }

  lemma DeadStaysDead(s: State, a: Action)
    requires WellFormed(s) && Legal(s, a) && !s.pac.alive
    ensures var r := Do(s, a);
            && r.s.pac == s.pac && |r.s.cells| == |s.cells| && r.out != ReachedPortal
            && (forall c :: 0 <= c < |s.cells| ==> r.s.cells[c].hasDot == s.cells[c].hasDot)
            && (a.PacCall? ==> r == Result(s, DeadPacman))
            && (a.GhostCall? ==> r.out != DeadPacman)
  {
    if a.GhostCall? {
      GhostCallOnlyKills(s, a.g, a.rnd);
    }
  }

  /** On any level: after a death every run reports no further death and leaves the pacman's record and every dot. */
  lemma {:induction false} DeathFreezes(s: State, acts: seq<Action>)
    requires WellFormed(s) && LegalRun(s, acts) && !s.pac.alive
    ensures var t := Run(s, acts);
            && t.pac == s.pac && Deaths(s, acts) == 0 && |t.cells| == |s.cells|
            && (forall c :: 0 <= c < |s.cells| ==> t.cells[c].hasDot == s.cells[c].hasDot)
    decreases |acts|
  {
    hide Do;
    if acts != [] {
      DeadStaysDead(s, acts[0]);
      DeathFreezes(Do(s, acts[0]).s, acts[1..]);
    }
  }

  /** On a level that agrees with its agents no run after a death shows a 'P' either. */
  lemma {:induction false} DeathIsFinal(s: State, acts: seq<Action>)
    requires Agree(s) && LegalRun(s, acts) && !s.pac.alive
    ensures var t := Run(s, acts);
            && Agree(t) && t.pac == s.pac && Deaths(s, acts) == 0 && |t.cells| == |s.cells|
            && (forall c :: 0 <= c < |s.cells| ==>
                 t.cells[c].hasDot == s.cells[c].hasDot && t.cells[c].content != 'P')
    decreases |acts|
  {
    hide Do;
    if acts != [] {
      DeadStaysDead(s, acts[0]);
      DoKeepsAgree(s, acts[0]);
      DeathIsFinal(Do(s, acts[0]).s, acts[1..]);
    }
  }

  /** A call that kills was made on a live pacman, and no call brings it back. */
  lemma CallKillsOnce(s: State, a: Action)
    requires WellFormed(s) && Legal(s, a)
    ensures Do(s, a).s.pac.alive ==> s.pac.alive
    ensures a.GhostCall? && Do(s, a).out == DeadPacman ==> s.pac.alive && !Do(s, a).s.pac.alive
  {
    if a.GhostCall? {
      GhostCallOnlyKills(s, a.g, a.rnd);
    }
  }

  /** Over any run of any level at most one ghost call reports a death, and it is the pacman's. */
  lemma {:induction false} DeathHappensOnce(s: State, acts: seq<Action>)
    requires WellFormed(s) && LegalRun(s, acts)
    ensures Deaths(s, acts) <= 1
    ensures Deaths(s, acts) == 1 ==> s.pac.alive && !Run(s, acts).pac.alive
    ensures Run(s, acts).pac.alive ==> s.pac.alive
    decreases |acts|
  {
    hide Do;
    if acts != [] {
      var t := Do(s, acts[0]).s;
      CallKillsOnce(s, acts[0]);
      DeathHappensOnce(t, acts[1..]);
      if !t.pac.alive {
        DeathFreezes(t, acts[1..]);
      }
    }
  }
}
