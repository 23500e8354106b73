/**
  Step by step: a ghost's step either leaves the view alone, or is the point of effect of its call
  and performs exactly that call on the view.
 */
module ThreadEffect {
  import opened Maze
  import opened Agreement
  import opened Threads
  import opened ThreadLocks
  import opened Landing
  import opened ThreadView

  /**
    A ghost that reads a cell reads none that another ghost still stands on to leave it, or is about
    to take, unless it is an 'M' that will stay one.
   */
  ghost predicate Undisturbed(s: Sys, a: Step)
    requires Shaped(s)
  {
    a.GhostDoes? && a.g < |s.pc| && s.pc[a.g].Look? ==>
      var c := CellOf(s, s.pc[a.g].p, s.pc[a.g].j);
      forall h: nat :: h != a.g && Claims(s, h, c) ==> Ends(s, h, c) && s.b.cells[c].content == 'M'
  }

  // ----- who writes where

  /** A ghost writes only cells that it claims. */
  lemma WritesClaimed(s: Sys, g: nat, rnd: nat, c: int)
    requires Shaped(s) && g < |s.pc| && Local(s, g) && 0 <= c < |s.b.cells|
    ensures |BoardAfter(s, g, rnd).cells| == |s.b.cells|
    ensures BoardAfter(s, g, rnd).cells[c].(content := ' ') == s.b.cells[c].(content := ' ')
    ensures BoardAfter(s, g, rnd).cells[c] != s.b.cells[c] ==> Claims(s, g, c)
  {
  }

  // ----- steps that are neither a decision nor a write

  /** Such a step changes the view at most in the ghost's own record. */
  lemma IdleView(s: Sys, g: nat, rnd: nat)
    requires Shaped(s) && Enabled(s, GhostDoes(g, rnd))
    requires !Committed(s.pc[g]) && !Committed(PcAfter(s, g, rnd))
    ensures View(GhostNext(s, g, rnd)) == SetGhost(View(s), g, ViewGhost(GhostNext(s, g, rnd), g))
  {
    var t := GhostNext(s, g, rnd);
    assert t.b.cells == s.b.cells && t.b.pac == s.b.pac && t.main == s.main && t.request == s.request;
    forall c | 0 <= c < |s.b.cells| ensures ViewContent(t, c) == ViewContent(s, c) {
      IdleCells(s, g, rnd, c);
    }
    DyingSame(s, t);
    forall h | 0 <= h < |s.pc| && h != g ensures ViewGhost(t, h) == ViewGhost(s, h) {
      OtherRecord(s, g, rnd, h);
    }
    assert View(t).cells == View(s).cells;
    assert View(t).ghosts == View(s).ghosts[g := ViewGhost(t, g)];
  }

  lemma IdleCells(s: Sys, g: nat, rnd: nat, c: int)
    requires Shaped(s) && Enabled(s, GhostDoes(g, rnd)) && 0 <= c < |s.b.cells|
    requires !Committed(s.pc[g]) && !Committed(PcAfter(s, g, rnd))
    ensures ViewContent(GhostNext(s, g, rnd), c) == ViewContent(s, c)
  {
    var t := GhostNext(s, g, rnd);
    assert t.b.cells == s.b.cells;
    forall h: nat ensures Ends(t, h, c) == Ends(s, h, c) && Claims(t, h, c) == Claims(s, h, c) {
      if h < |s.pc| && h != g {
        OtherRecord(s, g, rnd, h);
        OthersSame(s, t, h, c);
      }
    }
    ViewSame(s, t, c);
  }

  /** Before it decides, the view shows the ghost as it was when its call began. */
  lemma IdleKeepsView(s: Sys, g: nat, rnd: nat)
    requires Shaped(s) && Enabled(s, GhostDoes(g, rnd)) && Local(s, g)
    requires !Committed(s.pc[g]) && !Committed(PcAfter(s, g, rnd))
    requires s.pc[g].Entered? ==> s.shutdown || Undecided(PcAfter(s, g, rnd))
    requires s.pc[g].Look? ==> PcAfter(s, g, rnd).Look?
    ensures View(GhostNext(s, g, rnd)) == View(s)
  {
    IdleView(s, g, rnd);
    IdleRecord(s, g, rnd);
    assert View(s).ghosts[g := ViewGhost(s, g)] == View(s).ghosts;
  }

  lemma IdleRecord(s: Sys, g: nat, rnd: nat)
    requires Shaped(s) && Enabled(s, GhostDoes(g, rnd)) && Local(s, g)
    requires !Committed(s.pc[g]) && !Committed(PcAfter(s, g, rnd))
    requires s.pc[g].Entered? ==> s.shutdown || Undecided(PcAfter(s, g, rnd))
    requires s.pc[g].Look? ==> PcAfter(s, g, rnd).Look?
    ensures ViewGhost(GhostNext(s, g, rnd), g) == ViewGhost(s, g)
  {
  }

  /** A call that moves nothing on the board takes effect at once. */
  lemma RestIsCall(s: Sys, g: nat, rnd: nat)
    requires Shaped(s) && Enabled(s, GhostDoes(g, rnd)) && WellFormed(View(s))
    requires s.pc[g].Entered? && !s.shutdown && Choose(s.b, s.b.ghosts[g], rnd) == Rest
    ensures View(GhostNext(s, g, rnd)) == GhostCallOn(View(s), g, rnd).s
  {
    IdleView(s, g, rnd);
    var t := GhostNext(s, g, rnd);
    assert ViewGhost(s, g) == s.b.ghosts[g] && ViewGhost(t, g) == Timed(s.b.ghosts[g], rnd);
    assert Choose(View(s), s.b.ghosts[g], rnd) == Choose(s.b, s.b.ghosts[g], rnd);
    CallRests(View(s), g, rnd);
  }

  // ----- writes

  /** Completing a committed move does not touch the view. */
  lemma WritingKeepsView(s: Sys, g: nat, rnd: nat)
    requires Shaped(s) && ClaimsApart(s) && Enabled(s, GhostDoes(g, rnd)) && Committed(s.pc[g])
    requires forall h: nat :: h < |s.pc| ==> Local(s, h)
    requires KillsAlone(s)
    ensures View(GhostNext(s, g, rnd)) == View(s)
  {
    var t := GhostNext(s, g, rnd);
    forall c | 0 <= c < |s.b.cells|
      ensures t.b.cells[c].(content := ' ') == s.b.cells[c].(content := ' ')
      ensures ViewContent(t, c) == ViewContent(s, c)
    {
      WritesClaimed(s, g, rnd, c);
      WrittenCell(s, g, rnd, c);
    }
    forall h | 0 <= h < |s.pc| ensures ViewGhost(t, h) == ViewGhost(s, h) {
      if h != g {
        OtherRecord(s, g, rnd, h);
      } else {
        WrittenRecord(s, g, rnd);
      }
    }
    WrittenPacman(s, g, rnd);
    SameView(s, t);
  }

  /** At most one ghost is killing the pacman. */
  ghost predicate KillsAlone(s: Sys) {
    forall g, h :: 0 <= g < |s.pc| && 0 <= h < |s.pc| && s.pc[g].Kill1? && s.pc[h].Kill1? ==> g == h
  }

  lemma WrittenRecord(s: Sys, g: nat, rnd: nat)
    requires Shaped(s) && Enabled(s, GhostDoes(g, rnd)) && Committed(s.pc[g]) && Local(s, g)
    ensures ViewGhost(GhostNext(s, g, rnd), g) == ViewGhost(s, g)
  {
  }

  lemma WrittenPacman(s: Sys, g: nat, rnd: nat)
    requires Shaped(s) && Enabled(s, GhostDoes(g, rnd)) && Committed(s.pc[g]) && KillsAlone(s)
    ensures ViewPacman(GhostNext(s, g, rnd)) == ViewPacman(s)
  {
    var t := GhostNext(s, g, rnd);
    assert t.main == s.main && t.request == s.request;
    if s.pc[g].Kill1? {
      assert Dying(s);
    } else {
      assert t.b.pac == s.b.pac && !t.pc[g].Kill1?;
      DyingSame(s, t);
    }
  }

  lemma WrittenCell(s: Sys, g: nat, rnd: nat, c: int)
    requires Shaped(s) && ClaimsApart(s) && Enabled(s, GhostDoes(g, rnd)) && Committed(s.pc[g]) && Local(s, g)
    requires 0 <= c < |s.b.cells|
    ensures ViewContent(GhostNext(s, g, rnd), c) == ViewContent(s, c)
  {
    var t := GhostNext(s, g, rnd);
    forall h: nat | h != g ensures Ends(t, h, c) == Ends(s, h, c) && Claims(t, h, c) == Claims(s, h, c) {
      if h < |s.pc| {
        OtherRecord(s, g, rnd, h);
        OthersSame(s, t, h, c);
      }
    }
    if Claims(t, g, c) {
      StillClaimed(s, g, rnd, c);
      NoOtherClaims(s, g, c);
    } else if Claims(s, g, c) {
      ViewOfClaimed(s, g, c);
      NoOtherClaims(s, g, c);
      ReleasedCell(s, g, rnd, c);
      ViewOfUnclaimed(t, c);
    } else {
      WritesClaimed(s, g, rnd, c);
      ViewSame(s, t, c);
    }
  }

  lemma NoOtherClaims(s: Sys, g: nat, c: int)
    requires Shaped(s) && ClaimsApart(s) && g < |s.pc| && Touches(s, g, c)
    ensures forall h: nat :: h != g ==> !Claims(s, h, c)
  {
  }

  lemma StillClaimed(s: Sys, g: nat, rnd: nat, c: int)
    requires Shaped(s) && Enabled(s, GhostDoes(g, rnd)) && Committed(s.pc[g]) && Claims(GhostNext(s, g, rnd), g, c)
    ensures Claims(s, g, c) && Ends(GhostNext(s, g, rnd), g, c) == Ends(s, g, c)
  {
  }

  /** When a claim is given up the cell is as the view has shown it. */
  lemma ReleasedCell(s: Sys, g: nat, rnd: nat, c: int)
    requires Shaped(s) && Enabled(s, GhostDoes(g, rnd)) && Committed(s.pc[g]) && Local(s, g)
    requires Claims(s, g, c) && !Claims(GhostNext(s, g, rnd), g, c) && 0 <= c < |s.b.cells|
    ensures GhostNext(s, g, rnd).b.cells[c].content == if Ends(s, g, c) then 'M' else ' '
  {
    assert s.pc[g].SetPos? || s.pc[g].Mark?;
  }

  // ----- the point of effect of a move

  /** A cell that nobody claims, or whose 'M' will stay, is as the view shows it. */
  lemma CellAsViewed(s: Sys, c: int)
    requires Shaped(s) && ClaimsApart(s) && 0 <= c < |s.b.cells|
    requires forall h: nat :: Claims(s, h, c) ==> Ends(s, h, c) && s.b.cells[c].content == 'M'
    ensures View(s).cells[c].content == s.b.cells[c].content
  {
    if h: nat :| Claims(s, h, c) {
      ViewOfClaimed(s, h, c);
    } else {
      ViewOfUnclaimed(s, c);
    }
  }

  /** The ghost, holding all mutexes of its move, sees in the view the cells it has read, and the one it reads. */
  lemma LookSeesView(s: Sys, g: nat, m: nat)
    requires ViewInv(s) && g < |s.pc| && s.pc[g].Look? && m <= s.pc[g].j
    requires Undisturbed(s, GhostDoes(g, 0))
    ensures var p, v := s.pc[g].p, View(s);
            v.cells[CellOf(s, p, m)].content == s.b.cells[CellOf(s, p, m)].content
  {
    hide View, Agree, GhostsPlaced, Local, OwnersRight, StopOrder, ReadersInFlight;
    var c := CellOf(s, s.pc[g].p, m);
    assert m < s.pc[g].j ==> Touches(s, g, c);
    CellAsViewed(s, c);
  }

  lemma LookStands(s: Sys, g: nat)
    requires ViewInv(s) && g < |s.pc| && s.pc[g].Look? && Undisturbed(s, GhostDoes(g, 0))
    ensures var p, v, call := s.pc[g].p, View(s), s.calls[g];
            && v.ghosts[g] == call.was && s.b.ghosts[g] == Timed(call.was, call.rnd)
            && Choose(v, call.was, call.rnd) == Move(p)
            && GhostIndex(v, g) == CellOf(s, p, 0) && !KeptAt(s, CellOf(s, p, 0))
            && s.b.cells[CellOf(s, p, 0)].content == 'M'
  {
    var p, v := s.pc[g].p, View(s);
    assert Local(s, g);
    assert v.ghosts[g] == ViewGhost(s, g) == s.calls[g].was;
    assert Choose(v, s.calls[g].was, s.calls[g].rnd) == Choose(s.b, s.calls[g].was, s.calls[g].rnd);
    OwnsPlan(s, g, 0);
    OwnedNotKept(s, g, CellOf(s, p, 0));
    LookSeesView(s, g, 0);
  }

  /** No other ghost is killing the pacman on a cell that this one holds, and the main thread is not at play. */
  lemma PacmanAhead(s: Sys, g: nat)
    requires ViewInv(s) && g < |s.pc| && s.pc[g].Look?
    ensures ViewPacman(s) == s.b.pac.(alive := s.b.pac.alive && !Dying(s))
    ensures Pos(s.b.pac.x, s.b.pac.y) == Along(s.pc[g].p.start, s.pc[g].p.d, s.pc[g].j) ==> !Dying(s)
  {
    assert g in s.readers;
    forall h: nat | h < |s.pc| && s.pc[h].Kill1?
      ensures Pos(s.b.pac.x, s.b.pac.y) != Along(s.pc[g].p.start, s.pc[g].p.d, s.pc[g].j)
    {
      assert Local(s, h);
      KillsElsewhere(s, g, h);
    }
  }

  lemma KillsElsewhere(s: Sys, g: nat, h: nat)
    requires LockInv(s) && g < |s.pc| && s.pc[g].Look? && h < |s.pc| && s.pc[h].Kill1? && Local(s, h)
    ensures Pos(s.b.pac.x, s.b.pac.y) != Along(s.pc[g].p.start, s.pc[g].p.d, s.pc[g].j)
  {
    OwnsPlan(s, g, s.pc[g].j);
    OwnsPlan(s, h, s.pc[h].j);
  }

  /** Where the decided plan ends, and whether it kills, is as the view has it. */
  lemma DecisionStops(s: Sys, g: nat, rnd: nat)
    requires ViewInv(s) && Enabled(s, GhostDoes(g, rnd)) && s.pc[g].Look? && Undisturbed(s, GhostDoes(g, rnd))
    requires Committed(PcAfter(s, g, rnd)) && WellFormed(View(s))
    ensures var p, e := s.pc[g].p, PcAfter(s, g, rnd).j;
            && PcAfter(s, g, rnd).p == p && e <= s.pc[g].j
            && StopsAt(View(s), p, e) && (Kills(View(s), p, e) <==> PcAfter(s, g, rnd).Kill1?)
  {
    var p, j, v := s.pc[g].p, s.pc[g].j, View(s);
    assert Local(s, g);
    forall m | 0 <= m <= j ensures Ahead(v, p, m) == s.b.cells[CellOf(s, p, m)].content {
      LookSeesView(s, g, m);
    }
    PacmanAhead(s, g);
    DecisionCases(s, g, rnd, v);
  }

  lemma DecisionCases(s: Sys, g: nat, rnd: nat, v: State)
    requires Shaped(s) && Enabled(s, GhostDoes(g, rnd)) && s.pc[g].Look? && Committed(PcAfter(s, g, rnd))
    requires FreeSoFar(s, s.pc[g].p, s.pc[g].j)
    requires WellFormed(v) && v.width == s.b.width && v.height == s.b.height
    requires forall m :: 0 <= m <= s.pc[g].j ==> Ahead(v, s.pc[g].p, m) == s.b.cells[CellOf(s, s.pc[g].p, m)].content
    requires v.pac.x == s.b.pac.x && v.pac.y == s.b.pac.y
    requires Pos(s.b.pac.x, s.b.pac.y) == Along(s.pc[g].p.start, s.pc[g].p.d, s.pc[g].j) ==>
               v.pac.alive == s.b.pac.alive
    ensures var p, e := s.pc[g].p, PcAfter(s, g, rnd).j;
            && PcAfter(s, g, rnd).p == p && e <= s.pc[g].j
            && StopsAt(v, p, e) && (Kills(v, p, e) <==> PcAfter(s, g, rnd).Kill1?)
  {
  }

  // ----- the claims after it

  /** A plan that does not end where it started ends on a cell without a ghost. */
  lemma DecisionEnd(s: Sys, g: nat, rnd: nat)
    requires Shaped(s) && Enabled(s, GhostDoes(g, rnd)) && s.pc[g].Look? && Committed(PcAfter(s, g, rnd))
    requires FreeSoFar(s, s.pc[g].p, s.pc[g].j)
    ensures var e := PcAfter(s, g, rnd).j;
            PcAfter(s, g, rnd).p == s.pc[g].p && (e > 0 ==> s.b.cells[CellOf(s, s.pc[g].p, e)].content != 'M')
  {
  }

  lemma LooksElsewhere(s: Sys, g: nat, i: nat, m: nat)
    requires LockInv(s) && g < |s.pc| && s.pc[g].Look? && i < |s.pc| && s.pc[i].Look? && i != g && m <= s.pc[g].j
    ensures !Touches(s, i, CellOf(s, s.pc[g].p, m))
  {
    OwnsPlan(s, g, m);
    forall n: nat | n < s.pc[i].j ensures CellOf(s, s.pc[i].p, n) != CellOf(s, s.pc[g].p, m) {
      OwnsPlan(s, i, n);
    }
  }

  /** Whatever a looking ghost may come to claim, no other ghost's move rests on it. */
  lemma PlanCellUntouched(s: Sys, g: nat, i: nat, m: nat)
    requires ViewInv(s) && g < |s.pc| && s.pc[g].Look? && Undisturbed(s, GhostDoes(g, 0)) && m <= s.pc[g].j
    requires m > 0 ==> s.b.cells[CellOf(s, s.pc[g].p, m)].content != 'M'
    requires i < |s.pc| && i != g
    ensures !Touches(s, i, CellOf(s, s.pc[g].p, m)) && !Claims(s, i, CellOf(s, s.pc[g].p, m))
  {
    hide Agree, OwnersRight, ReadersInFlight, StopOrder, GhostsPlaced;
    var c := CellOf(s, s.pc[g].p, m);
    assert m < s.pc[g].j ==> Touches(s, g, c);
    assert !Claims(s, i, c);
    if s.pc[i].Look? {
      LooksElsewhere(s, g, i, m);
    } else if !Committed(s.pc[i]) {
      StandsElsewhere(s, g, i, m);
    }
  }

  lemma ClaimIsOnPlan(s: Sys, g: nat, rnd: nat, c: int)
    requires Shaped(s) && Enabled(s, GhostDoes(g, rnd)) && s.pc[g].Look?
    requires Committed(PcAfter(s, g, rnd)) && Claims(GhostNext(s, g, rnd), g, c)
    ensures var p, e := s.pc[g].p, PcAfter(s, g, rnd).j;
            e <= s.pc[g].j && (c == CellOf(s, p, 0) || c == CellOf(s, p, e))
  {
  }

  lemma NewClaimUntouched(s: Sys, g: nat, rnd: nat, i: nat, c: int)
    requires ViewInv(s) && Enabled(s, GhostDoes(g, rnd)) && s.pc[g].Look? && Undisturbed(s, GhostDoes(g, rnd))
    requires Committed(PcAfter(s, g, rnd)) && Claims(GhostNext(s, g, rnd), g, c) && i < |s.pc| && i != g
    ensures !Touches(s, i, c) && !Claims(s, i, c)
  {
    assert Local(s, g);
    DecisionEnd(s, g, rnd);
    ClaimIsOnPlan(s, g, rnd, c);
    if c == CellOf(s, s.pc[g].p, 0) {
      PlanCellUntouched(s, g, i, 0);
    } else {
      PlanCellUntouched(s, g, i, PcAfter(s, g, rnd).j);
    }
  }

  /** A ghost that is not completing a move stands on none of the cells that another can move over. */
  lemma StandsElsewhere(s: Sys, g: nat, i: nat, m: nat)
    requires ViewInv(s) && g < |s.pc| && s.pc[g].Look? && Undisturbed(s, GhostDoes(g, 0)) && m <= s.pc[g].j
    requires m > 0 ==> s.b.cells[CellOf(s, s.pc[g].p, m)].content != 'M'
    requires i < |s.pc| && i != g && !Committed(s.pc[i])
    ensures GhostIndex(s.b, i) != CellOf(s, s.pc[g].p, m)
  {
    var v, c := View(s), CellOf(s, s.pc[g].p, m);
    LookStands(s, g);
    ViewPosition(s, i);
    assert GhostsApart(v) && GhostIndex(v, g) != GhostIndex(v, i);
    if GhostIndex(v, i) == c {
      OwnsPlan(s, g, m);
      OwnedNotKept(s, g, c);
      LookSeesView(s, g, m);
      assert false;
    }
  }

  lemma ViewPosition(s: Sys, i: nat)
    requires Shaped(s) && WellFormed(View(s)) && i < |s.pc| && Local(s, i) && !Committed(s.pc[i])
    ensures GhostIndex(View(s), i) == GhostIndex(s.b, i)
  {
    assert View(s).ghosts[i] == ViewGhost(s, i);
  }

  // ----- the view after it

  lemma DecisionStep(s: Sys, g: nat, rnd: nat)
    requires Shaped(s) && Enabled(s, GhostDoes(g, rnd)) && s.pc[g].Look?
    ensures GhostNext(s, g, rnd) == s.(pc := s.pc[g := PcAfter(s, g, rnd)]) && !PcAfter(s, g, rnd).Mark?
  {
  }

  lemma LandedCell(s: Sys, g: nat, rnd: nat, c: int)
    requires ViewInv(s) && Enabled(s, GhostDoes(g, rnd)) && s.pc[g].Look? && Undisturbed(s, GhostDoes(g, rnd))
    requires Committed(PcAfter(s, g, rnd)) && 0 <= c < |s.b.cells|
    ensures var p, e := s.pc[g].p, PcAfter(s, g, rnd).j;
            PcAfter(s, g, rnd).p == p &&
            ViewContent(GhostNext(s, g, rnd), c) ==
            if c == CellOf(s, p, e) then 'M' else if c == CellOf(s, p, 0) then ' ' else ViewContent(s, c)
  {
    hide PcAfter, BoardAfter, GhostNext, Agree, OwnersRight, ReadersInFlight, StopOrder, StopsAt, Kills;
    var t := GhostNext(s, g, rnd);
    DecisionStep(s, g, rnd);
    DecisionStops(s, g, rnd);
    forall h: nat | h != g ensures Ends(t, h, c) == Ends(s, h, c) && Claims(t, h, c) == Claims(s, h, c) {
      if h < |s.pc| {
        OthersSame(s, t, h, c);
      }
    }
    if Claims(t, g, c) {
      forall h: nat | h != g ensures !Claims(t, h, c) {
        if h < |s.pc| {
          NewClaimUntouched(s, g, rnd, h, c);
        }
      }
      assert Ends(t, g, c) <==> c == CellOf(s, s.pc[g].p, PcAfter(s, g, rnd).j);
    } else {
      ViewSame(s, t, c);
    }
  }

  lemma LandedGhosts(s: Sys, g: nat, pc: Pc)
    requires Shaped(s) && g < |s.pc| && s.pc[g].Look? && Committed(pc) && PcIn(s.b.width, s.b.height, pc)
    requires Called(s, g)
    ensures var t, to := s.(pc := s.pc[g := pc]), Along(pc.p.start, pc.p.d, pc.j);
            View(t).ghosts == View(s).ghosts[g := Timed(s.calls[g].was, s.calls[g].rnd).(x := to.x, y := to.y)]
  {
    var t := s.(pc := s.pc[g := pc]);
    forall h | 0 <= h < |s.pc| && h != g ensures ViewGhost(t, h) == ViewGhost(s, h) {
    }
  }

  lemma LandedPacman(s: Sys, g: nat, pc: Pc)
    requires g < |s.pc| && s.pc[g].Look?
    ensures var t := s.(pc := s.pc[g := pc]); Dying(t) <==> Dying(s) || pc.Kill1?
  {
    var t := s.(pc := s.pc[g := pc]);
    if Dying(s) {
      var h :| 0 <= h < |s.pc| && s.pc[h].Kill1?;
      assert t.pc[h].Kill1?;
    }
    if pc.Kill1? {
      assert t.pc[g].Kill1?;
    }
  }

  lemma LandedCells(s: Sys, g: nat, rnd: nat)
    requires ViewInv(s) && Enabled(s, GhostDoes(g, rnd)) && s.pc[g].Look? && Undisturbed(s, GhostDoes(g, rnd))
    requires Committed(PcAfter(s, g, rnd))
    ensures PcAfter(s, g, rnd).p == s.pc[g].p
    ensures View(GhostNext(s, g, rnd)).cells ==
            Landed(View(s), g, s.calls[g].rnd, s.pc[g].p, PcAfter(s, g, rnd).j).cells
  {
    hide PcAfter, BoardAfter, GhostNext, Agree, OwnersRight, ReadersInFlight, StopOrder, StopsAt, Kills, ViewContent;
    var t, v, p := GhostNext(s, g, rnd), View(s), s.pc[g].p;
    DecisionStops(s, g, rnd);
    DecisionStep(s, g, rnd);
    var r := Landed(v, g, s.calls[g].rnd, p, PcAfter(s, g, rnd).j);
    forall c | 0 <= c < |s.b.cells| ensures View(t).cells[c] == r.cells[c] {
      LandedCell(s, g, rnd, c);
    }
  }

  /** Deciding to go is one atomic call of the ghost, the kill included. */
  lemma DecisionIsCall(s: Sys, g: nat, rnd: nat)
    requires ViewInv(s) && Enabled(s, GhostDoes(g, rnd)) && s.pc[g].Look? && Undisturbed(s, GhostDoes(g, rnd))
    requires Committed(PcAfter(s, g, rnd))
    ensures var v, e, draw := View(s), PcAfter(s, g, rnd).j, s.calls[g].rnd;
            && PcAfter(s, g, rnd).p == s.pc[g].p
            && View(GhostNext(s, g, rnd)) == Landed(v, g, draw, s.pc[g].p, e) == GhostCallOn(v, g, draw).s
  {
    var p, e := s.pc[g].p, PcAfter(s, g, rnd).j;
    assert Local(s, g);
    LookStands(s, g);
    DecisionStops(s, g, rnd);
    DecisionStep(s, g, rnd);
    LandedCells(s, g, rnd);
    LandedGhosts(s, g, PcAfter(s, g, rnd));
    LandedPacman(s, g, PcAfter(s, g, rnd));
    PacmanAhead(s, g);
    CallLands(View(s), g, s.calls[g].rnd, p, e);
  }

  /** Refusing to go is the refused atomic call. */
  lemma RefusalIsCall(s: Sys, g: nat, rnd: nat)
    requires ViewInv(s) && Enabled(s, GhostDoes(g, rnd)) && s.pc[g].Look? && Undisturbed(s, GhostDoes(g, rnd))
    requires !Committed(PcAfter(s, g, rnd)) && !PcAfter(s, g, rnd).Look?
    ensures View(GhostNext(s, g, rnd)) == GhostCallOn(View(s), g, s.calls[g].rnd).s
  {
    var t, v, p := GhostNext(s, g, rnd), View(s), s.pc[g].p;
    LookStands(s, g);
    LookSeesView(s, g, s.pc[g].j);
    DecisionStep(s, g, rnd);
    IdleView(s, g, rnd);
    assert ViewGhost(t, g) == s.b.ghosts[g];
    CallRefused(v, g, s.calls[g].rnd, p);
  }
}
