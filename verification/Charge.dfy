/**
  A charge equals iterated ordinary steps. `Iterated` repeats the uncharged one-cell move until a
  step is refused or kills; the charged slide ends in the same place, kills in the same cases, and
  leaves the same level exactly when the cells it passes over are blank, as they are in play.
 */
module Charge {
  import opened Maze
  import opened Agreement

  /** Repeat the ordinary move of ghost g until it is refused or kills. */
  function Iterated(s: State, g: int, d: char): (r: Result)
    requires WellFormed(s) && 0 <= g < |s.ghosts| && IsDirection(d)
    ensures WellFormed(r.s)
    decreases Room(s, s.ghosts[g].x, s.ghosts[g].y, d)
  {
    var r := GhostStep(s, g, d);
    if r.out == InvalidMove then Result(s, ValidMove)
    else if r.out == DeadPacman then r
    else
      StepUsesRoom(s, g, d);
      Iterated(r.s, g, d)
  }

  lemma StepUsesRoom(s: State, g: int, d: char)
    requires WellFormed(s) && 0 <= g < |s.ghosts| && IsDirection(d)
    requires GhostStep(s, g, d).out == ValidMove
    ensures var t := GhostStep(s, g, d).s;
            && g < |t.ghosts| && t.height == s.height && t.width == s.width
            && t.ghosts[g] == s.ghosts[g].(x := StepX(s.ghosts[g].x, d), y := StepY(s.ghosts[g].y, d))
            && 0 <= Room(t, t.ghosts[g].x, t.ghosts[g].y, d) == Room(s, s.ghosts[g].x, s.ghosts[g].y, d) - 1
  {
  }

  /** What the slide does to the level, wherever it stops. */
  function SlideResult(s: State, g: int, d: char): Result
    requires WellFormed(s) && 0 <= g < |s.ghosts| && IsDirection(d)
  {
    var e := SlideEnd(s, s.ghosts[g].x, s.ghosts[g].y, d);
    var hit := if e.hit then FindAndKill(s, e.x, e.y) else Result(s, ValidMove);
    Result(Relocate(hit.s, g, e.x, e.y), hit.out)
  }

  /** Moving on and then to (x,y) is moving to (x,y): the cell passed through is left blank again. */
  lemma RelocateTwice(s: State, g: int, mx: int, my: int, x: int, y: int)
    requires WellFormed(s) && 0 <= g < |s.ghosts|
    requires IsValidPosition(s, mx, my) && IsValidPosition(s, x, y)
    requires At(s, mx, my).content == ' '
    ensures Relocate(Relocate(s, g, mx, my), g, x, y) == Relocate(s, g, x, y)
  {
    var m := Relocate(s, g, mx, my);
    var a, b := Relocate(m, g, x, y), Relocate(s, g, x, y);
    assert GhostIndex(m, g) == Index(s.width, s.height, mx, my);
    forall c | 0 <= c < |s.cells| ensures a.cells[c] == b.cells[c] {
    }
    assert a.cells == b.cells;
    assert a.ghosts == b.ghosts;
  }

  /** A kill further on commutes with a step that does not touch the pacman. */
  lemma KillCommutes(s: State, g: int, mx: int, my: int)
    requires WellFormed(s) && 0 <= g < |s.ghosts| && IsValidPosition(s, mx, my)
    requires PacIndex(s) != GhostIndex(s, g) && PacIndex(s) != Index(s.width, s.height, mx, my)
    ensures KillPacman(Relocate(s, g, mx, my)) == Relocate(KillPacman(s), g, mx, my)
  {
    var a, b := KillPacman(Relocate(s, g, mx, my)), Relocate(KillPacman(s), g, mx, my);
    forall c | 0 <= c < |s.cells| ensures a.cells[c] == b.cells[c] {
    }
    assert a.cells == b.cells;
  }

  /** The slide leaves the cells it passes over as they are; a step blanks the cell it leaves. */
  predicate PathBlank(s: State, x: int, y: int, d: char)
    requires WellFormed(s) && IsValidPosition(s, x, y) && IsDirection(d)
    decreases Room(s, x, y, d)
  {
    Room(s, x, y, d) == 0
    || var nx, ny := StepX(x, d), StepY(y, d);
       || At(s, nx, ny).content in {'W', 'M', 'P'}
       || ((At(s, nx, ny).content == ' ' || SlideEnd(s, nx, ny, d) == Stop(nx, ny, false)) && PathBlank(s, nx, ny, d))
  }

  /** The rest of the slide sees the same cells before and after the first step. */
  lemma SlideAheadUnchanged(s: State, t: State, x: int, y: int, d: char)
    requires WellFormed(s) && WellFormed(t) && t.width == s.width && t.height == s.height
    requires IsValidPosition(s, x, y) && IsDirection(d)
    requires forall x', y' :: IsValidPosition(s, x', y') && Room(s, x', y', d) < Room(s, x, y, d)
               ==> At(t, x', y').content == At(s, x', y').content
    ensures SlideEnd(t, x, y, d) == SlideEnd(s, x, y, d) && PathBlank(t, x, y, d) == PathBlank(s, x, y, d)
    decreases Room(s, x, y, d)
  {
    if Room(s, x, y, d) != 0 {
      var nx, ny := StepX(x, d), StepY(y, d);
      assert At(t, nx, ny).content == At(s, nx, ny).content;
      if At(s, nx, ny).content !in {'W', 'M', 'P'} {
        SlideAheadUnchanged(s, t, nx, ny, d);
      }
    }
  }

  /** Every cell of a level of the game is blank, a wall, a ghost or the pacman. */
  ghost predicate PlainContents(s: State) {
    forall c :: 0 <= c < |s.cells| ==> s.cells[c].content in {' ', 'W', 'M', 'P'}
  }

  lemma PlainStays(s: State, g: int, d: char)
    requires WellFormed(s) && PlainContents(s) && 0 <= g < |s.ghosts|
    ensures PlainContents(GhostStep(s, g, d).s)
  {
  }

  lemma {:induction false} PlainPathBlank(s: State, x: int, y: int, d: char)
    requires WellFormed(s) && IsValidPosition(s, x, y) && IsDirection(d) && PlainContents(s)
    ensures PathBlank(s, x, y, d)
    decreases Room(s, x, y, d)
  {
    if Room(s, x, y, d) != 0 && At(s, StepX(x, d), StepY(y, d)).content == ' ' {
      PlainPathBlank(s, StepX(x, d), StepY(y, d), d);
    }
  }

  /** The cell ahead of ghost g can be entered without a kill. */
  predicate FreeAhead(s: State, g: int, d: char)
    requires WellFormed(s) && 0 <= g < |s.ghosts| && IsDirection(d)
  {
    Room(s, s.ghosts[g].x, s.ghosts[g].y, d) != 0
    && At(s, StepX(s.ghosts[g].x, d), StepY(s.ghosts[g].y, d)).content !in {'W', 'M', 'P'}
  }

  /** After one ordinary step the slide goes on to where it was going anyway. */
  lemma SlideEndAfterStep(s: State, g: int, d: char)
    requires Agree(s) && 0 <= g < |s.ghosts| && IsDirection(d) && FreeAhead(s, g, d)
    ensures var nx, ny := StepX(s.ghosts[g].x, d), StepY(s.ghosts[g].y, d);
            var t := GhostStep(s, g, d).s;
            && t == Relocate(s, g, nx, ny) && t.pac == s.pac
            && SlideEnd(t, nx, ny, d) == SlideEnd(s, nx, ny, d) && PathBlank(t, nx, ny, d) == PathBlank(s, nx, ny, d)
  {
    var x, y := s.ghosts[g].x, s.ghosts[g].y;
    var nx, ny := StepX(x, d), StepY(y, d);
    var t := GhostStep(s, g, d).s;
    forall x', y' | IsValidPosition(s, x', y') && Room(s, x', y', d) < Room(s, nx, ny, d)
      ensures At(t, x', y').content == At(s, x', y').content
    {
      IndexInjective(s.width, s.height, x', y', nx, ny);
      IndexInjective(s.width, s.height, x', y', x, y);
    }
    SlideAheadUnchanged(s, t, nx, ny, d);
  }

  /** The agents end the same whatever the cell stepped into held. */
  lemma AgentsAfterStep(s: State, g: int, d: char)
    requires Agree(s) && 0 <= g < |s.ghosts| && IsDirection(d) && FreeAhead(s, g, d)
    ensures SlideResult(s, g, d).out == SlideResult(GhostStep(s, g, d).s, g, d).out
    ensures SlideResult(s, g, d).s.(cells := []) == SlideResult(GhostStep(s, g, d).s, g, d).s.(cells := [])
  {
    SlideEndAfterStep(s, g, d);
    var t := GhostStep(s, g, d).s;
    assert SlideResult(s, g, d).s.ghosts == SlideResult(t, g, d).s.ghosts;
  }

  lemma SlideAfterBlankStep(s: State, g: int, d: char)
    requires Agree(s) && 0 <= g < |s.ghosts| && IsDirection(d) && FreeAhead(s, g, d)
    requires At(s, StepX(s.ghosts[g].x, d), StepY(s.ghosts[g].y, d)).content == ' '
    ensures SlideResult(s, g, d) == SlideResult(GhostStep(s, g, d).s, g, d)
  {
    var nx, ny := StepX(s.ghosts[g].x, d), StepY(s.ghosts[g].y, d);
    var t := GhostStep(s, g, d).s;
    GhostStepKeepsAgree(s, g, d);
    SlideEndAfterStep(s, g, d);
    SlideEndIsFree(s, nx, ny, d);
    SlideEndIsFree(t, nx, ny, d);
    var e := SlideEnd(s, nx, ny, d);
    if e.hit {
      FindingPKills(t, e.x, e.y);
      FindingPKills(s, e.x, e.y);
      KillCommutes(s, g, nx, ny);
      RelocateTwice(KillPacman(s), g, nx, ny, e.x, e.y);
    } else {
      RelocateTwice(s, g, nx, ny, e.x, e.y);
    }
  }

  /** Behind the ghost a blank cell stays blank. */
  lemma {:induction false} BlankBehind(s: State, g: int, d: char, x: int, y: int)
    requires WellFormed(s) && 0 <= g < |s.ghosts| && IsDirection(d)
    requires IsValidPosition(s, x, y) && At(s, x, y).content == ' '
    requires Room(s, x, y, d) > Room(s, s.ghosts[g].x, s.ghosts[g].y, d)
    ensures var t := Iterated(s, g, d).s; t.width == s.width && t.height == s.height && At(t, x, y).content == ' '
    decreases Room(s, s.ghosts[g].x, s.ghosts[g].y, d)
  {
    hide GhostStep;
    var r := GhostStep(s, g, d);
    BlankAfterStep(s, g, d, x, y);
    if r.out == ValidMove {
      StepUsesRoom(s, g, d);
      BlankBehind(r.s, g, d, x, y);
    }
  }

  lemma BlankAfterStep(s: State, g: int, d: char, x: int, y: int)
    requires WellFormed(s) && 0 <= g < |s.ghosts| && IsDirection(d) && IsValidPosition(s, x, y)
    requires At(s, x, y).content == ' ' || (x == s.ghosts[g].x && y == s.ghosts[g].y)
    requires Room(s, x, y, d) >= Room(s, s.ghosts[g].x, s.ghosts[g].y, d)
    ensures var r := GhostStep(s, g, d);
            && r.s.width == s.width && r.s.height == s.height && r.out in {ValidMove, InvalidMove, DeadPacman}
            && (r.out != InvalidMove ==> At(r.s, x, y).content == ' ')
            && (r.out == InvalidMove ==> r.s == s)
  {
    var nx, ny := StepX(s.ghosts[g].x, d), StepY(s.ghosts[g].y, d);
    if IsValidPosition(s, nx, ny) {
      IndexInjective(s.width, s.height, x, y, nx, ny);
    }
  }

  /** What the slide passes over it leaves; what the steps pass over they blank. */
  lemma PassedCellDiffers(s: State, g: int, d: char)
    requires Agree(s) && 0 <= g < |s.ghosts| && IsDirection(d) && FreeAhead(s, g, d)
    requires var nx, ny := StepX(s.ghosts[g].x, d), StepY(s.ghosts[g].y, d);
             At(s, nx, ny).content != ' ' && SlideEnd(s, nx, ny, d) != Stop(nx, ny, false)
    ensures SlideResult(s, g, d).s != Iterated(GhostStep(s, g, d).s, g, d).s
  {
    hide GhostStep, SlideResult, Iterated;
    var nx, ny := StepX(s.ghosts[g].x, d), StepY(s.ghosts[g].y, d);
    SlideEndAfterStep(s, g, d);
    SlideKeepsPassed(s, g, d);
    StepsBlankPassed(Relocate(s, g, nx, ny), g, d);
  }

  lemma StepsBlankPassed(t: State, g: int, d: char)
    requires WellFormed(t) && 0 <= g < |t.ghosts| && IsDirection(d)
    requires SlideEnd(t, t.ghosts[g].x, t.ghosts[g].y, d) != Stop(t.ghosts[g].x, t.ghosts[g].y, false)
    ensures var u := Iterated(t, g, d).s;
            u.width == t.width && u.height == t.height && At(u, t.ghosts[g].x, t.ghosts[g].y).content == ' '
  {
    hide GhostStep;
    var x, y := t.ghosts[g].x, t.ghosts[g].y;
    var r := GhostStep(t, g, d);
    GoesOn(t, g, d);
    BlankAfterStep(t, g, d, x, y);
    if r.out == ValidMove {
      StepUsesRoom(t, g, d);
      BlankBehind(r.s, g, d, x, y);
    }
  }

  lemma GoesOn(t: State, g: int, d: char)
    requires WellFormed(t) && 0 <= g < |t.ghosts| && IsDirection(d)
    requires SlideEnd(t, t.ghosts[g].x, t.ghosts[g].y, d) != Stop(t.ghosts[g].x, t.ghosts[g].y, false)
    ensures GhostStep(t, g, d).out != InvalidMove
  {
  }

  lemma SlideKeepsPassed(s: State, g: int, d: char)
    requires Agree(s) && 0 <= g < |s.ghosts| && IsDirection(d) && FreeAhead(s, g, d)
    requires var nx, ny := StepX(s.ghosts[g].x, d), StepY(s.ghosts[g].y, d);
             SlideEnd(s, nx, ny, d) != Stop(nx, ny, false)
    ensures var nx, ny := StepX(s.ghosts[g].x, d), StepY(s.ghosts[g].y, d);
            var t := SlideResult(s, g, d).s;
            t.width == s.width && t.height == s.height && At(t, nx, ny).content == At(s, nx, ny).content
  {
    hide Relocate;
    var x, y := s.ghosts[g].x, s.ghosts[g].y;
    var nx, ny := StepX(x, d), StepY(y, d);
    var e := SlideEnd(s, nx, ny, d);
    assert e == SlideEnd(s, x, y, d);
    SlideEndBeyond(s, nx, ny, d);
    IndexInjective(s.width, s.height, nx, ny, e.x, e.y);
    IndexInjective(s.width, s.height, nx, ny, x, y);
    SlideEndIsFree(s, nx, ny, d);
    if e.hit {
      FindingPKills(s, e.x, e.y);
      RelocateKeepsOthers(KillPacman(s), g, e.x, e.y, nx, ny);
    } else {
      RelocateKeepsOthers(s, g, e.x, e.y, nx, ny);
    }
  }

  lemma RelocateKeepsOthers(s: State, g: int, x: int, y: int, cx: int, cy: int)
    requires WellFormed(s) && 0 <= g < |s.ghosts| && IsValidPosition(s, x, y) && IsValidPosition(s, cx, cy)
    requires Index(s.width, s.height, cx, cy) !in {Index(s.width, s.height, x, y), GhostIndex(s, g)}
    ensures var t := Relocate(s, g, x, y); t.width == s.width && t.height == s.height && At(t, cx, cy) == At(s, cx, cy)
  {
  }

  lemma SlideEndBeyond(s: State, x: int, y: int, d: char)
    requires WellFormed(s) && IsValidPosition(s, x, y) && IsDirection(d)
    ensures var e := SlideEnd(s, x, y, d);
            && Room(s, e.x, e.y, d) <= Room(s, x, y, d)
            && (e != Stop(x, y, false) ==> Room(s, e.x, e.y, d) < Room(s, x, y, d))
    decreases Room(s, x, y, d)
  {
    if Room(s, x, y, d) != 0 && At(s, StepX(x, d), StepY(y, d)).content !in {'W', 'M', 'P'} {
      SlideEndBeyond(s, StepX(x, d), StepY(y, d), d);
    }
  }

  lemma RelocateHere(s: State, g: int)
    requires Agree(s) && 0 <= g < |s.ghosts|
    ensures Relocate(s, g, s.ghosts[g].x, s.ghosts[g].y) == s
  {
    var t := Relocate(s, g, s.ghosts[g].x, s.ghosts[g].y);
    assert s.cells[GhostIndex(s, g)].content == 'M';
    assert t.cells == s.cells;
    assert t.ghosts == s.ghosts;
  }

  /** Blocked at once, both stay; meeting the pacman at once, both take its cell. */
  lemma StoppedAtOnce(s: State, g: int, d: char)
    requires Agree(s) && 0 <= g < |s.ghosts| && IsDirection(d)
    requires Room(s, s.ghosts[g].x, s.ghosts[g].y, d) == 0
             || At(s, StepX(s.ghosts[g].x, d), StepY(s.ghosts[g].y, d)).content in {'W', 'M', 'P'}
    ensures SlideResult(s, g, d) == Iterated(s, g, d)
  {
    var x, y := s.ghosts[g].x, s.ghosts[g].y;
    var nx, ny := StepX(x, d), StepY(y, d);
    if Room(s, x, y, d) != 0 && At(s, nx, ny).content == 'P' {
      FindingPKills(s, nx, ny);
    } else {
      assert SlideEnd(s, x, y, d) == Stop(x, y, false);
      RelocateHere(s, g);
    }
  }

  /** Blocked by the next cell but one, the step has made the slide's whole way. */
  lemma StoppedAfterOne(s: State, g: int, d: char)
    requires Agree(s) && 0 <= g < |s.ghosts| && IsDirection(d) && FreeAhead(s, g, d)
    requires var nx, ny := StepX(s.ghosts[g].x, d), StepY(s.ghosts[g].y, d);
             SlideEnd(s, nx, ny, d) == Stop(nx, ny, false)
    ensures SlideResult(s, g, d) == SlideResult(GhostStep(s, g, d).s, g, d)
  {
    GhostStepKeepsAgree(s, g, d);
    SlideEndAfterStep(s, g, d);
    RelocateHere(GhostStep(s, g, d).s, g);
  }

  lemma FirstStep(s: State, g: int, d: char)
    requires WellFormed(s) && 0 <= g < |s.ghosts| && IsDirection(d) && FreeAhead(s, g, d)
    ensures GhostStep(s, g, d).out == ValidMove && |GhostStep(s, g, d).s.ghosts| == |s.ghosts|
    ensures Iterated(s, g, d) == Iterated(GhostStep(s, g, d).s, g, d)
  {
  }

  lemma {:induction false} SlideIsIterated(s: State, g: int, d: char)
    requires Agree(s) && 0 <= g < |s.ghosts| && IsDirection(d)
    ensures SlideResult(s, g, d).out == Iterated(s, g, d).out
    ensures SlideResult(s, g, d).s.(cells := []) == Iterated(s, g, d).s.(cells := [])
    ensures SlideResult(s, g, d).s == Iterated(s, g, d).s <==> PathBlank(s, s.ghosts[g].x, s.ghosts[g].y, d)
    decreases Room(s, s.ghosts[g].x, s.ghosts[g].y, d)
  {
    hide GhostStep, SlideResult, Iterated;
    if !FreeAhead(s, g, d) {
      StoppedAtOnce(s, g, d);
    } else {
      var nx, ny := StepX(s.ghosts[g].x, d), StepY(s.ghosts[g].y, d);
      FirstStep(s, g, d);
      StepUsesRoom(s, g, d);
      GhostStepKeepsAgree(s, g, d);
      SlideEndAfterStep(s, g, d);
      SlideIsIterated(GhostStep(s, g, d).s, g, d);
      AgentsAfterStep(s, g, d);
      if SlideEnd(s, nx, ny, d) == Stop(nx, ny, false) {
        StoppedAfterOne(s, g, d);
      } else if At(s, nx, ny).content == ' ' {
        SlideAfterBlankStep(s, g, d);
      } else {
        PassedCellDiffers(s, g, d);
      }
    }
  }

  /**
    The charge against the iteration of ordinary steps: the same ghosts and pacman, a death exactly
    when the iteration kills, a refusal exactly at the edge of the board, and the same cells exactly
    when every cell passed over is blank.
   */
  lemma ChargeIsIteratedSteps(s: State, g: int, d: char)
    requires Agree(s) && 0 <= g < |s.ghosts| && IsDirection(d)
    ensures var u := SetGhost(s, g, s.ghosts[g].(charged := false));
            var c, i := GhostCharge(s, g, d), Iterated(u, g, d);
            && c.s.ghosts == i.s.ghosts && c.s.pac == i.s.pac
            && (c.out == DeadPacman <==> i.out == DeadPacman)
            && (c.out == InvalidMove <==> Room(s, s.ghosts[g].x, s.ghosts[g].y, d) == 0)
            && (c.s == i.s <==> PathBlank(s, s.ghosts[g].x, s.ghosts[g].y, d))
  {
    var u := SetGhost(s, g, s.ghosts[g].(charged := false));
    SetTimingKeepsAgree(s, g, u.ghosts[g]);
    SlideIsIterated(u, g, d);
    RelocateHere(u, g);
    SlideAheadUnchanged(s, u, s.ghosts[g].x, s.ghosts[g].y, d);
  }

  lemma ChargeKeepsPlain(s: State, g: int, d: char)
    requires WellFormed(s) && PlainContents(s) && 0 <= g < |s.ghosts| && IsDirection(d)
    ensures PlainContents(GhostCharge(s, g, d).s)
  {
  }

  lemma GhostCallKeepsPlain(s: State, g: int, rnd: nat)
    requires WellFormed(s) && PlainContents(s) && 0 <= g < |s.ghosts|
    ensures PlainContents(GhostCallOn(s, g, rnd).s)
  {
    var gh := s.ghosts[g];
    var d := Resolve(gh.moves[Slot(gh)].command, rnd);
    GhostCallCases(s, g, rnd);
    if Moves(gh, rnd) {
      var ready := SetGhost(s, g, Ready(gh));
      if gh.charged {
        ChargeKeepsPlain(ready, g, d);
      } else {
        PlainStays(ready, g, d);
      }
    }
  }

  lemma PacmanStepKeepsPlain(s: State, d: char)
    requires WellFormed(s) && PlainContents(s)
    ensures PlainContents(PacmanStep(s, d).s)
  {
  }

  lemma DoKeepsPlain(s: State, a: Action)
    requires WellFormed(s) && Legal(s, a) && PlainContents(s)
    ensures PlainContents(Do(s, a).s)
  {
    match a
    case GhostCall(g, rnd) => GhostCallKeepsPlain(s, g, rnd);
    case PacCall(cmd, rnd) =>
      if s.pac.alive && s.pac.waiting <= 0 && IsDirection(Resolve(cmd.command, rnd)) {
        var ready := s.(pac := s.pac.(waiting := s.pac.passo, currentMove := s.pac.currentMove + 1));
        PacmanStepKeepsPlain(ready, Resolve(cmd.command, rnd));
      }
  }

  lemma {:induction false} RunKeepsPlain(s: State, acts: seq<Action>)
    requires WellFormed(s) && LegalRun(s, acts) && PlainContents(s)
    ensures PlainContents(Run(s, acts))
    decreases |acts|
  {
    if acts != [] {
      DoKeepsPlain(s, acts[0]);
      RunKeepsPlain(Do(s, acts[0]).s, acts[1..]);
    }
  }

  /** The refinement holds wherever play can lead, for every ghost and direction. */
  lemma ChargeIsIteratedStepsInPlay(s: State, acts: seq<Action>, g: int, d: char)
    requires Agree(s) && PlainContents(s) && LegalRun(s, acts) && NoPortal(s, acts)
    requires 0 <= g < |s.ghosts| && IsDirection(d)
    ensures var t := Run(s, acts);
            var u := SetGhost(t, g, t.ghosts[g].(charged := false));
            && GhostCharge(t, g, d).s == Iterated(u, g, d).s
            && (GhostCharge(t, g, d).out == DeadPacman <==> Iterated(u, g, d).out == DeadPacman)
  {
    RunKeepsAgree(s, acts);
    RunKeepsPlain(s, acts);
    ChargeIsIteratedSteps(Run(s, acts), g, d);
    var t := Run(s, acts);
    PlainPathBlank(t, t.ghosts[g].x, t.ghosts[g].y, d);
  }
}
