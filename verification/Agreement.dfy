/**
  The grid and the agents agree: 'M' cells are exactly the pairwise distinct ghost positions and
  the only 'P' is the live pacman's. Every atomic move that does not reach the portal keeps this,
  and keeps every wall and portal where it was.
 */
module Agreement {
  import opened Maze

  ghost predicate GhostsApart(s: State)
    requires WellFormed(s)
  {
    forall g, h :: 0 <= g < h < |s.ghosts| ==> GhostIndex(s, g) != GhostIndex(s, h)
  }

  ghost predicate GhostsMarked(s: State)
    requires WellFormed(s)
  {
    forall g :: 0 <= g < |s.ghosts| ==> s.cells[GhostIndex(s, g)].content == 'M'
  }

  ghost predicate OwnedByGhost(s: State, c: int)
    requires WellFormed(s)
  {
    exists g :: 0 <= g < |s.ghosts| && GhostIndex(s, g) == c
  }

  ghost predicate MarksOwned(s: State)
    requires WellFormed(s)
  {
    forall c :: 0 <= c < |s.cells| && s.cells[c].content == 'M' ==> OwnedByGhost(s, c)
  }

  ghost predicate PacmanMarked(s: State)
    requires WellFormed(s)
  {
    && (s.pac.alive ==> s.cells[PacIndex(s)].content == 'P')
    && (forall c :: 0 <= c < |s.cells| && s.cells[c].content == 'P' ==> s.pac.alive && c == PacIndex(s))
  }

  ghost predicate Agree(s: State) {
    WellFormed(s) && GhostsApart(s) && GhostsMarked(s) && MarksOwned(s) && PacmanMarked(s)
  }

  /** Same dimensions, same walls, same portals. */
  ghost predicate SameMaze(s: State, t: State) {
    && t.width == s.width && t.height == s.height && |t.cells| == |s.cells| && |t.ghosts| == |s.ghosts|
    && forall c :: 0 <= c < |s.cells| ==>
         && (t.cells[c].content == 'W' <==> s.cells[c].content == 'W')
         && t.cells[c].hasPortal == s.cells[c].hasPortal
  }

  // ----- the single moves

  /** Finding a 'P' always leads to a kill, and the kill empties that cell. */
  lemma FindingPKills(s: State, x: int, y: int)
    requires Agree(s) && IsValidPosition(s, x, y) && At(s, x, y).content == 'P'
    ensures FindAndKill(s, x, y) == Result(KillPacman(s), DeadPacman)
    ensures PacIndex(s) == Index(s.width, s.height, x, y)
  {
    IndexInjective(s.width, s.height, x, y, s.pac.x, s.pac.y);
  }

  lemma KillKeepsAgree(s: State)
    requires Agree(s) && s.pac.alive
    ensures Agree(KillPacman(s)) && SameMaze(s, KillPacman(s))
  {
    var t := KillPacman(s);
    forall c | 0 <= c < |t.cells| && t.cells[c].content == 'M' ensures OwnedByGhost(t, c) {
      assert OwnedByGhost(s, c);
      var g :| 0 <= g < |s.ghosts| && GhostIndex(s, g) == c;
      assert GhostIndex(t, g) == c;
    }
    forall g | 0 <= g < |t.ghosts| ensures t.cells[GhostIndex(t, g)].content == 'M' {
      assert GhostIndex(t, g) == GhostIndex(s, g);
    }
    forall g, h | 0 <= g < h < |t.ghosts| ensures GhostIndex(t, g) != GhostIndex(t, h) {
      assert GhostIndex(s, g) != GhostIndex(s, h);
    }
  }

  /** Where ghost g may be moved: its own cell, or any cell that is neither wall, ghost nor pacman. */
  ghost predicate MayMoveTo(s: State, g: int, x: int, y: int) {
    && Agree(s) && 0 <= g < |s.ghosts| && IsValidPosition(s, x, y)
    && (At(s, x, y).content !in {'W', 'M', 'P'} || Index(s.width, s.height, x, y) == GhostIndex(s, g))
  }

  lemma RelocatedGhosts(s: State, g: int, x: int, y: int)
    requires MayMoveTo(s, g, x, y)
    ensures var t := Relocate(s, g, x, y);
            && PacIndex(t) == PacIndex(s)
            && forall h :: 0 <= h < |s.ghosts| ==>
                 GhostIndex(t, h) == if h == g then Index(s.width, s.height, x, y) else GhostIndex(s, h)
  {
  }

  lemma RelocateKeepsMarks(s: State, g: int, x: int, y: int)
    requires MayMoveTo(s, g, x, y)
    ensures var t := Relocate(s, g, x, y); GhostsApart(t) && GhostsMarked(t) && MarksOwned(t)
  {
    var t := Relocate(s, g, x, y);
    var i := Index(s.width, s.height, x, y);
    RelocatedGhosts(s, g, x, y);
    forall h | 0 <= h < |s.ghosts| && h != g ensures GhostIndex(s, h) !in {i, GhostIndex(s, g)} {
      assert s.cells[GhostIndex(s, h)].content == 'M';
    }
    forall c | 0 <= c < |t.cells| && t.cells[c].content == 'M' ensures OwnedByGhost(t, c) {
      if c == i {
        assert GhostIndex(t, g) == c;
      } else {
        assert OwnedByGhost(s, c);
        var h :| 0 <= h < |s.ghosts| && GhostIndex(s, h) == c;
        assert GhostIndex(t, h) == c;
      }
    }
  }

  lemma RelocateKeepsAgree(s: State, g: int, x: int, y: int)
    requires MayMoveTo(s, g, x, y)
    ensures Agree(Relocate(s, g, x, y)) && SameMaze(s, Relocate(s, g, x, y))
  {
    RelocatedGhosts(s, g, x, y);
    RelocateKeepsMarks(s, g, x, y);
    assert s.cells[GhostIndex(s, g)].content == 'M';
  }

  lemma GhostStepKeepsAgree(s: State, g: int, d: char)
    requires Agree(s) && 0 <= g < |s.ghosts|
    ensures Agree(GhostStep(s, g, d).s) && SameMaze(s, GhostStep(s, g, d).s)
  {
    var nx, ny := StepX(s.ghosts[g].x, d), StepY(s.ghosts[g].y, d);
    if IsValidPosition(s, nx, ny) && At(s, nx, ny).content !in {'W', 'M'} {
      if At(s, nx, ny).content == 'P' {
        FindingPKills(s, nx, ny);
        KillKeepsAgree(s);
        RelocateKeepsAgree(KillPacman(s), g, nx, ny);
      } else {
        RelocateKeepsAgree(s, g, nx, ny);
      }
    }
  }

  /** A slide ends where it started, on a free cell, or on the 'P' it hit. */
  lemma SlideEndIsFree(s: State, x: int, y: int, d: char)
    requires WellFormed(s) && IsValidPosition(s, x, y) && IsDirection(d)
    ensures var e := SlideEnd(s, x, y, d);
            if e.hit then At(s, e.x, e.y).content == 'P'
            else (e.x == x && e.y == y) || At(s, e.x, e.y).content !in {'W', 'M', 'P'}
    decreases Room(s, x, y, d)
  {
    if Room(s, x, y, d) != 0 {
      var nx, ny := StepX(x, d), StepY(y, d);
      if At(s, nx, ny).content !in {'W', 'M', 'P'} {
        SlideEndIsFree(s, nx, ny, d);
      }
    }
  }

  lemma SetTimingKeepsAgree(s: State, g: int, gh: Ghost)
    requires Agree(s) && 0 <= g < |s.ghosts|
    requires gh.x == s.ghosts[g].x && gh.y == s.ghosts[g].y && |gh.moves| > 0 && gh.currentMove >= 0
    ensures Agree(SetGhost(s, g, gh)) && SameMaze(s, SetGhost(s, g, gh))
  {
    var t := SetGhost(s, g, gh);
    assert forall h :: 0 <= h < |s.ghosts| ==> GhostIndex(t, h) == GhostIndex(s, h);
    forall c | 0 <= c < |t.cells| && t.cells[c].content == 'M' ensures OwnedByGhost(t, c) {
      assert OwnedByGhost(s, c);
      var h :| 0 <= h < |s.ghosts| && GhostIndex(s, h) == c;
      assert GhostIndex(t, h) == c;
    }
    assert PacIndex(t) == PacIndex(s);
  }

  lemma GhostChargeKeepsAgree(s: State, g: int, d: char)
    requires Agree(s) && 0 <= g < |s.ghosts| && IsDirection(d)
    ensures Agree(GhostCharge(s, g, d).s) && SameMaze(s, GhostCharge(s, g, d).s)
  {
    var u := SetGhost(s, g, s.ghosts[g].(charged := false));
    SetTimingKeepsAgree(s, g, u.ghosts[g]);
    var x, y := s.ghosts[g].x, s.ghosts[g].y;
    if Room(u, x, y, d) != 0 {
      var e := SlideEnd(u, x, y, d);
      SlideEndIsFree(u, x, y, d);
      if e.hit {
        FindingPKills(u, e.x, e.y);
        KillKeepsAgree(u);
        RelocateKeepsAgree(KillPacman(u), g, e.x, e.y);
      } else {
        RelocateKeepsAgree(u, g, e.x, e.y);
      }
    }
  }

  lemma GhostCallKeepsAgree(s: State, g: int, rnd: nat)
    requires Agree(s) && 0 <= g < |s.ghosts|
    ensures Agree(GhostCallOn(s, g, rnd).s) && SameMaze(s, GhostCallOn(s, g, rnd).s)
  {
    var gh := s.ghosts[g];
    GhostCallCases(s, g, rnd);
    if Moves(gh, rnd) {
      var d := Resolve(gh.moves[Slot(gh)].command, rnd);
      SetTimingKeepsAgree(s, g, Ready(gh));
      if gh.charged {
        GhostChargeKeepsAgree(SetGhost(s, g, Ready(gh)), g, d);
      } else {
        GhostStepKeepsAgree(SetGhost(s, g, Ready(gh)), g, d);
      }
    } else {
      SetTimingKeepsAgree(s, g, GhostCallOn(s, g, rnd).s.ghosts[g]);
    }
  }

  /** The pacman's record may change in anything but its coordinates and its life. */
  lemma SetPacmanKeepsAgree(s: State, pac: Pacman)
    requires Agree(s) && pac.x == s.pac.x && pac.y == s.pac.y && pac.alive == s.pac.alive
    ensures Agree(s.(pac := pac)) && SameMaze(s, s.(pac := pac))
  {
    var t := s.(pac := pac);
    assert forall h :: 0 <= h < |s.ghosts| ==> GhostIndex(t, h) == GhostIndex(s, h);
    forall c | 0 <= c < |t.cells| && t.cells[c].content == 'M' ensures OwnedByGhost(t, c) {
      assert OwnedByGhost(s, c);
      var h :| 0 <= h < |s.ghosts| && GhostIndex(s, h) == c;
      assert GhostIndex(t, h) == c;
    }
  }

  lemma PacmanStepKeepsAgree(s: State, d: char)
    requires Agree(s) && s.pac.alive
    ensures PacmanStep(s, d).out != ReachedPortal ==> Agree(PacmanStep(s, d).s)
    ensures SameMaze(s, PacmanStep(s, d).s) || PacmanStep(s, d).out == ReachedPortal
  {
    var nx, ny := StepX(s.pac.x, d), StepY(s.pac.y, d);
    var t := PacmanStep(s, d).s;
    if IsValidPosition(s, nx, ny) && !At(s, nx, ny).hasPortal && At(s, nx, ny).content != 'W' {
      if At(s, nx, ny).content == 'M' {
        KillKeepsAgree(s);
      } else {
        assert forall h :: 0 <= h < |s.ghosts| ==> GhostIndex(t, h) == GhostIndex(s, h);
        forall c | 0 <= c < |t.cells| && t.cells[c].content == 'M' ensures OwnedByGhost(t, c) {
          assert OwnedByGhost(s, c);
          var h :| 0 <= h < |s.ghosts| && GhostIndex(s, h) == c;
          assert GhostIndex(t, h) == c;
        }
      }
    }
  }

  lemma PacmanTurnKeepsAgree(s: State, cmd: Command, rnd: nat)
    requires Agree(s) && PacmanTurn(s, cmd, rnd).out != ReachedPortal
    ensures Agree(PacmanTurn(s, cmd, rnd).s) && SameMaze(s, PacmanTurn(s, cmd, rnd).s)
  {
    var t := PacmanTurn(s, cmd, rnd);
    var d := Resolve(cmd.command, rnd);
    if s.pac.alive && s.pac.waiting <= 0 && IsDirection(d) {
      var ready := s.(pac := s.pac.(waiting := s.pac.passo, currentMove := s.pac.currentMove + 1));
      SetPacmanKeepsAgree(s, ready.pac);
      PacmanStepKeepsAgree(ready, d);
    } else {
      SetPacmanKeepsAgree(s, t.s.pac);
    }
  }

  lemma DoKeepsAgree(s: State, a: Action)
    requires Agree(s) && Legal(s, a) && Do(s, a).out != ReachedPortal
    ensures Agree(Do(s, a).s) && SameMaze(s, Do(s, a).s)
  {
    match a
    case PacCall(cmd, rnd) => PacmanTurnKeepsAgree(s, cmd, rnd);
    case GhostCall(g, rnd) => GhostCallKeepsAgree(s, g, rnd);
  }

  /** Reaching the portal leaves a 'P' where the pacman's coordinates are not. */
  lemma PortalBreaksAgree(s: State, d: char)
    requires WellFormed(s) && IsDirection(d) && PacmanStep(s, d).out == ReachedPortal
    ensures !Agree(PacmanStep(s, d).s)
  {
    var nx, ny := StepX(s.pac.x, d), StepY(s.pac.y, d);
    var t := PacmanStep(s, d).s;
    var i := Index(s.width, s.height, nx, ny);
    if Agree(t) {
      assert t.cells[i].content == 'P';
      IndexInjective(s.width, s.height, nx, ny, s.pac.x, s.pac.y);
      assert false;
    }
  }

  /** The call sends a live pacman that is done waiting onto a portal cell. */
  predicate StepsOntoPortal(s: State, a: Action)
    requires WellFormed(s)
  {
    && a.PacCall? && s.pac.alive && s.pac.waiting <= 0 && IsDirection(Resolve(a.cmd.command, a.rnd))
    && var nx, ny := StepX(s.pac.x, Resolve(a.cmd.command, a.rnd)), StepY(s.pac.y, Resolve(a.cmd.command, a.rnd));
       IsValidPosition(s, nx, ny) && At(s, nx, ny).hasPortal
  }

  /** The portal is reached exactly by such a call, whatever else stands on the portal's cell. */
  lemma PortalExactly(s: State, a: Action)
    requires WellFormed(s) && Legal(s, a)
    ensures Do(s, a).out == ReachedPortal <==> StepsOntoPortal(s, a)
  {
    if a.GhostCall? {
      GhostCallCases(s, a.g, a.rnd);
    }
  }

  /** Agreement survives a call exactly when the call does not send the pacman onto the portal. */
  lemma AgreeSurvivesExactly(s: State, a: Action)
    requires Agree(s) && Legal(s, a)
    ensures Agree(Do(s, a).s) <==> !StepsOntoPortal(s, a)
    ensures !StepsOntoPortal(s, a) ==> SameMaze(s, Do(s, a).s)
  {
    PortalExactly(s, a);
    if !StepsOntoPortal(s, a) {
      DoKeepsAgree(s, a);
    } else {
      var d := Resolve(a.cmd.command, a.rnd);
      PortalBreaksAgree(s.(pac := s.pac.(waiting := s.pac.passo, currentMove := s.pac.currentMove + 1)), d);
    }
  }

  // ----- whole runs

  lemma {:induction false} RunKeepsAgree(s: State, acts: seq<Action>)
    requires Agree(s) && LegalRun(s, acts) && NoPortal(s, acts)
    ensures Agree(Run(s, acts)) && SameMaze(s, Run(s, acts))
    decreases |acts|
  {
    if acts != [] {
      DoKeepsAgree(s, acts[0]);
      RunKeepsAgree(Do(s, acts[0]).s, acts[1..]);
    }
  }

  /** The level agrees with its agents before the run and after each of its calls. */
  ghost predicate AgreesThroughout(s: State, acts: seq<Action>)
    requires WellFormed(s) && LegalRun(s, acts)
    decreases |acts|
  {
    Agree(s) && (acts == [] || AgreesThroughout(Do(s, acts[0]).s, acts[1..]))
  }

  /** A run from an agreeing level keeps agreement throughout exactly when it never reaches the portal. */
  lemma {:induction false} RunAgreesExactly(s: State, acts: seq<Action>)
    requires Agree(s) && LegalRun(s, acts)
    ensures AgreesThroughout(s, acts) <==> NoPortal(s, acts)
    decreases |acts|
  {
    hide Do;
    if acts != [] {
      PortalExactly(s, acts[0]);
      AgreeSurvivesExactly(s, acts[0]);
      if Do(s, acts[0]).out != ReachedPortal {
        RunAgreesExactly(Do(s, acts[0]).s, acts[1..]);
      }
    }
  }
}
