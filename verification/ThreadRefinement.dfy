/**
  The refinement over whole executions. As long as no ghost reads a cell that another is leaving
  or about to take, every interleaving of the threads' steps shows, through the view, exactly a run
  of the atomic game in the order of the points of effect: charges, scripts and waiting included,
  and past the portal exit as well. Without charges that is so for every interleaving.
 */
module ThreadRefinement {
  import opened Maze
  import opened Agreement
  import opened Threads
  import opened ThreadLocks
  import opened ThreadProgress
  import opened Landing
  import opened ThreadView
  import opened ThreadEffect

  // ----- the local facts are kept

  /** What a program counter knows rests on its ghost, the cells it touches and where the pacman is. */
  lemma LocalFrame(s: Sys, t: Sys, i: nat)
    requires Shaped(s) && Shaped(t) && i < |s.pc| == |t.pc| && Local(s, i)
    requires t.pc[i] == s.pc[i] && t.calls[i] == s.calls[i] && t.b.ghosts[i] == s.b.ghosts[i]
    requires t.b.width == s.b.width && t.b.height == s.b.height && |t.b.cells| == |s.b.cells|
    requires t.b.pac.x == s.b.pac.x && t.b.pac.y == s.b.pac.y
    requires forall c :: 0 <= c < |s.b.cells| && Touches(s, i, c) ==> t.b.cells[c].content == s.b.cells[c].content
    ensures Local(t, i)
  {
    var pc := s.pc[i];
    if Undecided(pc) {
      assert Choose(t.b, s.calls[i].was, s.calls[i].rnd) == Choose(s.b, s.calls[i].was, s.calls[i].rnd);
    }
    if pc.Look? {
      forall m | 1 <= m < pc.j ensures t.b.cells[CellOf(t, pc.p, m)].content !in {'W', 'M', 'P'} {
        assert CellOf(t, pc.p, m) == CellOf(s, pc.p, m) && Touches(s, i, CellOf(s, pc.p, m));
      }
    }
    if Committed(pc) {
      assert CellOf(t, pc.p, 0) == CellOf(s, pc.p, 0) && CellOf(t, pc.p, pc.j) == CellOf(s, pc.p, pc.j);
      assert !pc.Mark? ==> Touches(s, i, CellOf(s, pc.p, 0));
      assert Touches(s, i, CellOf(s, pc.p, pc.j));
    }
  }

  lemma OthersKeepLocal(s: Sys, g: nat, rnd: nat, i: nat)
    requires Shaped(s) && ClaimsApart(s) && Enabled(s, GhostDoes(g, rnd)) && i < |s.pc| && i != g
    requires Local(s, g) && Local(s, i)
    ensures Local(GhostNext(s, g, rnd), i)
  {
    hide PcAfter, BoardAfter, OwnerAfter, Local;
    var t := GhostNext(s, g, rnd);
    OtherRecord(s, g, rnd, i);
    assert t.b == BoardAfter(s, g, rnd) && |t.pc| == |s.pc|;
    assert |t.b.cells| == |s.b.cells|;
    forall c | 0 <= c < |s.b.cells| && Touches(s, i, c) ensures t.b.cells[c].content == s.b.cells[c].content {
      WritesClaimed(s, g, rnd, c);
    }
    LocalFrame(s, t, i);
  }

  lemma OwnLocalBefore(s: Sys, g: nat, rnd: nat)
    requires Shaped(s) && Enabled(s, GhostDoes(g, rnd)) && Local(s, g)
    requires !Committed(s.pc[g]) && !s.pc[g].Look?
    ensures Local(GhostNext(s, g, rnd), g)
  {
    var t := GhostNext(s, g, rnd);
    if s.pc[g].Entered? && !s.shutdown {
      assert Choose(t.b, s.b.ghosts[g], rnd) == Choose(s.b, s.b.ghosts[g], rnd);
    } else {
      assert t.b == s.b && t.calls == s.calls;
    }
  }

  lemma OwnLocalLooking(s: Sys, g: nat, rnd: nat)
    requires ViewInv(s) && Enabled(s, GhostDoes(g, rnd)) && s.pc[g].Look? && Undisturbed(s, GhostDoes(g, rnd))
    ensures Local(GhostNext(s, g, rnd), g)
  {
    assert Local(s, g);
    LookStands(s, g);
    DecisionStep(s, g, rnd);
    AfterLook(s, g, rnd);
  }

  lemma AfterLook(s: Sys, g: nat, rnd: nat)
    requires Shaped(s) && Enabled(s, GhostDoes(g, rnd)) && s.pc[g].Look? && Local(s, g)
    requires s.b.cells[CellOf(s, s.pc[g].p, 0)].content == 'M'
    ensures Local(s.(pc := s.pc[g := PcAfter(s, g, rnd)]), g)
  {
    var t, p := s.(pc := s.pc[g := PcAfter(s, g, rnd)]), s.pc[g].p;
    forall m | 0 <= m <= p.reach ensures CellOf(t, p, m) == CellOf(s, p, m) {
    }
    assert GhostAt(s.b, g) == p.start;
    if Committed(t.pc[g]) {
      DecisionEnd(s, g, rnd);
      AfterDecision(s, g, rnd);
    } else if t.pc[g].Look? {
      assert FreeSoFar(t, p, t.pc[g].j);
    }
  }

  lemma AfterDecision(s: Sys, g: nat, rnd: nat)
    requires Shaped(s) && Enabled(s, GhostDoes(g, rnd)) && s.pc[g].Look? && Committed(PcAfter(s, g, rnd))
    requires FreeSoFar(s, s.pc[g].p, s.pc[g].j)
    ensures var pc, p := PcAfter(s, g, rnd), s.pc[g].p;
            && pc.p == p && (pc.Kill1? || pc.Clear? || pc.Unlocking?)
            && (pc.j > 0 ==> s.b.cells[CellOf(s, p, pc.j)].content !in {'W', 'M'})
            && (pc.Kill1? ==> Pos(s.b.pac.x, s.b.pac.y) == Along(p.start, p.d, pc.j))
  {
  }

  lemma OwnLocalWriting(s: Sys, g: nat, rnd: nat)
    requires Shaped(s) && Enabled(s, GhostDoes(g, rnd)) && Committed(s.pc[g]) && Local(s, g)
    ensures Local(GhostNext(s, g, rnd), g)
  {
    if s.pc[g].j > 0 {
      CellsDistinct(s, s.pc[g].p, 0, s.pc[g].j);
    }
  }

  lemma OwnLocal(s: Sys, g: nat, rnd: nat)
    requires ViewInv(s) && Enabled(s, GhostDoes(g, rnd)) && Undisturbed(s, GhostDoes(g, rnd))
    ensures Local(GhostNext(s, g, rnd), g)
  {
    assert Local(s, g);
    if Committed(s.pc[g]) {
      OwnLocalWriting(s, g, rnd);
    } else if s.pc[g].Look? {
      OwnLocalLooking(s, g, rnd);
    } else {
      OwnLocalBefore(s, g, rnd);
    }
  }

  // ----- the claims stay apart

  lemma ClaimsShrink(s: Sys, g: nat, rnd: nat, c: int)
    requires Shaped(s) && Enabled(s, GhostDoes(g, rnd)) && !s.pc[g].Look?
    requires Claims(GhostNext(s, g, rnd), g, c)
    ensures Claims(s, g, c)
  {
  }

  lemma TouchesGrow(s: Sys, g: nat, rnd: nat, c: int)
    requires Shaped(s) && Enabled(s, GhostDoes(g, rnd)) && Local(s, g) && Touches(GhostNext(s, g, rnd), g, c)
    ensures Touches(s, g, c)
            || (s.pc[g].Look? && c == CellOf(s, s.pc[g].p, s.pc[g].j) && s.b.cells[c].content != 'M')
  {
    var t := GhostNext(s, g, rnd);
    if s.pc[g].Look? {
      LookTouchesGrow(s, g, rnd, c);
    } else if s.pc[g].Locking? {
      if t.pc[g].Look? {
        assert CellOf(t, t.pc[g].p, 0) == CellOf(s, s.pc[g].p, 0) == GhostIndex(s.b, g);
      }
    } else if s.pc[g].Mark? {
      assert GhostIndex(t.b, g) == CellOf(s, s.pc[g].p, s.pc[g].j);
    } else if Committed(s.pc[g]) {
      assert Committed(t.pc[g]);
    } else {
      assert GhostIndex(t.b, g) == GhostIndex(s.b, g);
    }
  }

  lemma LookTouchesGrow(s: Sys, g: nat, rnd: nat, c: int)
    requires Shaped(s) && Enabled(s, GhostDoes(g, rnd)) && s.pc[g].Look? && Local(s, g)
    requires Touches(GhostNext(s, g, rnd), g, c)
    ensures Touches(s, g, c) || (c == CellOf(s, s.pc[g].p, s.pc[g].j) && s.b.cells[c].content != 'M')
  {
    hide PcAfter, BoardAfter, GhostNext;
    var t, p, j := GhostNext(s, g, rnd), s.pc[g].p, s.pc[g].j;
    DecisionStep(s, g, rnd);
    LookOutcome(s, g, rnd);
    assert forall m :: 0 <= m <= p.reach ==> CellOf(t, p, m) == CellOf(s, p, m);
    assert Touches(s, g, CellOf(s, p, 0));
    if Committed(t.pc[g]) {
      var e := t.pc[g].j;
      assert e < j ==> Touches(s, g, CellOf(s, p, e));
    } else if t.pc[g].Look? {
      var m :| 0 <= m < t.pc[g].j && CellOf(t, p, m) == c;
      assert m < j ==> Touches(s, g, CellOf(s, p, m));
    } else {
      assert c == GhostIndex(s.b, g) == CellOf(s, p, 0);
    }
  }

  lemma LookOutcome(s: Sys, g: nat, rnd: nat)
    requires Shaped(s) && Enabled(s, GhostDoes(g, rnd)) && s.pc[g].Look?
    ensures var pc, p, j := PcAfter(s, g, rnd), s.pc[g].p, s.pc[g].j;
            if Committed(pc) then pc.p == p && pc.j <= j && (pc.j == j ==> s.b.cells[CellOf(s, p, j)].content != 'M')
            else
              || (pc == Look(p, j + 1) && s.b.cells[CellOf(s, p, j)].content != 'M')
              || pc == Unlocking(p, 0, 0, false)
  {
  }

  lemma KeepsClaimsApart(s: Sys, g: nat, rnd: nat)
    requires ViewInv(s) && Enabled(s, GhostDoes(g, rnd)) && Undisturbed(s, GhostDoes(g, rnd))
    ensures ClaimsApart(GhostNext(s, g, rnd))
  {
    var t := GhostNext(s, g, rnd);
    assert Local(s, g);
    forall h: nat, i: nat, c | i < |s.pc| && h != i && Claims(t, h, c) ensures !Touches(t, i, c) {
      if h != g {
        OtherRecord(s, g, rnd, h);
        OthersSame(s, t, h, c);
      }
      if i != g {
        OtherRecord(s, g, rnd, i);
        OthersSame(s, t, i, c);
      }
      if h == g {
        ClaimUntouched(s, g, rnd, i, c);
      } else if i == g && Touches(t, g, c) {
        TouchesGrow(s, g, rnd, c);
        assert false;
      }
    }
  }

  lemma ClaimUntouched(s: Sys, g: nat, rnd: nat, i: nat, c: int)
    requires ViewInv(s) && Enabled(s, GhostDoes(g, rnd)) && Undisturbed(s, GhostDoes(g, rnd))
    requires i < |s.pc| && i != g && Claims(GhostNext(s, g, rnd), g, c)
    ensures !Touches(s, i, c)
  {
    if s.pc[g].Look? {
      NewClaimUntouched(s, g, rnd, i, c);
    } else {
      ClaimsShrink(s, g, rnd, c);
    }
  }

  // ----- the calls that an execution performs

  /** The call, if any, that the step performs on the view. */
  function CallOf(s: Sys, a: Step): (acts: seq<Action>)
    requires Shaped(s) && Enabled(s, a)
    ensures |acts| <= 1
  {
    match a
    case GhostDoes(g, rnd) =>
      if s.pc[g].Entered? && !s.shutdown && Choose(s.b, s.b.ghosts[g], rnd).Rest? then [GhostCall(g, rnd)]
      else if s.pc[g].Look? && !PcAfter(s, g, rnd).Look? then [GhostCall(g, s.calls[g].rnd)]
      else []
    case MainDoes(m) =>
      if s.main.Playing? && ChoosePacman(s.b, s.b.pac, s.main.d, s.main.rnd).Rest? then
        [PacCall(Command(s.main.d, 1, 0), s.main.rnd)]
      else if s.main.Moving? then [PacCall(Command(s.request.d, 1, 0), s.request.rnd)]
      else []
  }

  lemma CallIsLegal(s: Sys, a: Step)
    requires Shaped(s) && Enabled(s, a)
    ensures LegalRun(View(s), CallOf(s, a))
  {
  }

  lemma RunOne(v: State, act: Action)
    requires WellFormed(v) && Legal(v, act)
    ensures Run(v, [act]) == Do(v, act).s
  {
    assert [act][1..] == [];
    assert Run(Do(v, act).s, []) == Do(v, act).s;
  }

  lemma KillsAreAlone(s: Sys)
    requires LockInv(s) && forall g: nat :: g < |s.pc| ==> Local(s, g)
    ensures KillsAlone(s)
  {
    forall g: nat, h: nat | g < |s.pc| && h < |s.pc| && s.pc[g].Kill1? && s.pc[h].Kill1? ensures g == h {
      assert Local(s, g) && Local(s, h);
      OwnsPlan(s, g, s.pc[g].j);
      OwnsPlan(s, h, s.pc[h].j);
    }
  }

  lemma GhostRefines(s: Sys, g: nat, rnd: nat)
    requires ViewInv(s) && Enabled(s, GhostDoes(g, rnd)) && Undisturbed(s, GhostDoes(g, rnd))
    ensures var acts := CallOf(s, GhostDoes(g, rnd));
            LegalRun(View(s), acts) && View(GhostNext(s, g, rnd)) == Run(View(s), acts)
  {
    hide GhostNext, GhostCallOn, Agree, GhostsPlaced, OwnersRight, StopOrder, ReadersInFlight;
    var v, acts := View(s), CallOf(s, GhostDoes(g, rnd));
    CallIsLegal(s, GhostDoes(g, rnd));
    PlacedIsWellFormed(v, KeptCells(s));
    assert Local(s, g);
    if acts != [] {
      RunOne(v, acts[0]);
    }
    if Committed(s.pc[g]) {
      KillsAreAlone(s);
      WritingKeepsView(s, g, rnd);
    } else if s.pc[g].Look? && Committed(PcAfter(s, g, rnd)) {
      DecisionIsCall(s, g, rnd);
    } else if s.pc[g].Look? && !PcAfter(s, g, rnd).Look? {
      RefusalIsCall(s, g, rnd);
    } else if s.pc[g].Entered? && !s.shutdown && Choose(s.b, s.b.ghosts[g], rnd).Rest? {
      RestIsCall(s, g, rnd);
    } else {
      IdleKeepsView(s, g, rnd);
    }
  }

  lemma PlacedIsWellFormed(v: State, K: set<int>)
    requires GhostsPlaced(v, K)
    ensures WellFormed(v)
  {
  }

  // ----- the main thread

  lemma MainQuiet(s: Sys)
    requires LockInv(s) && MainWrites(s.main)
    ensures View(s) == s.b.(pac := ViewPacman(s)) && !Dying(s)
  {
    WriterExcludesGhosts(s);
    QuietView(s);
  }

  /** The main thread's other steps touch neither the board nor a ghost. */
  lemma MainKeepsView(s: Sys, m: MainChoice)
    requires LockInv(s) && Enabled(s, MainDoes(m)) && !s.main.Moving? && !s.main.Playing?
    ensures View(MainNext(s, m)) == View(s)
  {
    var t := MainNext(s, m);
    assert t.b == s.b && t.pc == s.pc && t.calls == s.calls && t.request == s.request;
    if s.main.MainLocking? {
      WriterExcludesGhosts(s);
      assert ViewPacman(t) == ViewPacman(s) == s.request.was;
    } else {
      DyingSame(s, t);
      assert ViewPacman(t) == ViewPacman(s);
    }
    forall c | 0 <= c < |s.b.cells| ensures ViewContent(t, c) == ViewContent(s, c) {
      forall h: nat ensures Ends(t, h, c) == Ends(s, h, c) && Claims(t, h, c) == Claims(s, h, c) {
        if h < |s.pc| {
          OthersSame(s, t, h, c);
        }
      }
      ViewSame(s, t, c);
    }
    SameView(s, t);
  }

  lemma PlayRefines(s: Sys)
    requires LockInv(s) && s.main.Playing?
    ensures var t := PlayNext(s, s.main.d, s.main.rnd);
            View(t) == if ChoosePacman(s.b, s.b.pac, s.main.d, s.main.rnd).Rest?
                       then PacmanTurn(s.b, Command(s.main.d, 1, 0), s.main.rnd).s
                       else s.b
    ensures View(s) == s.b
  {
    var t := PlayNext(s, s.main.d, s.main.rnd);
    MainQuiet(s);
    assert t.pc == s.pc;
    QuietView(t);
  }

  lemma MovingRefines(s: Sys, m: MainChoice)
    requires LockInv(s) && s.main.Moving? && MainLocal(s)
    ensures View(s) == s.b.(pac := s.request.was)
    ensures View(MainNext(s, m)) == PacmanStep(s.b, s.main.p.d).s
            == PacmanTurn(View(s), Command(s.request.d, 1, 0), s.request.rnd).s
    ensures PacmanStep(s.b, s.main.p.d).out == PacmanTurn(View(s), Command(s.request.d, 1, 0), s.request.rnd).out
  {
    var t := MainNext(s, m);
    MainQuiet(s);
    assert t.pc == s.pc;
    QuietView(t);
  }

  lemma MainRefines(s: Sys, m: MainChoice)
    requires ViewInv(s) && Enabled(s, MainDoes(m))
    ensures var acts := CallOf(s, MainDoes(m));
            LegalRun(View(s), acts) && View(MainNext(s, m)) == Run(View(s), acts)
  {
    hide PacmanStep, PacmanTurn, Agree, GhostsPlaced, OwnersRight, StopOrder, ReadersInFlight;
    var v, acts := View(s), CallOf(s, MainDoes(m));
    CallIsLegal(s, MainDoes(m));
    PlacedIsWellFormed(v, KeptCells(s));
    if acts != [] {
      RunOne(v, acts[0]);
    }
    if s.main.Playing? {
      PlayRefines(s);
    } else if s.main.Moving? {
      MovingRefines(s, m);
    } else {
      MainKeepsView(s, m);
    }
  }

  // ----- the invariant is kept

  lemma KeptSame(s: Sys, t: Sys)
    requires Shaped(s) && Shaped(t) && KeptBy(t.main) == KeptBy(s.main)
    requires t.b.width == s.b.width && t.b.height == s.b.height
    ensures KeptCells(t) == KeptCells(s)
  {
    assert |t.b.cells| == |s.b.cells|;
  }

  lemma GhostKeepsPlaced(s: Sys, g: nat, rnd: nat)
    requires ViewInv(s) && Enabled(s, GhostDoes(g, rnd)) && Undisturbed(s, GhostDoes(g, rnd))
    ensures GhostsPlaced(View(GhostNext(s, g, rnd)), KeptCells(GhostNext(s, g, rnd)))
  {
    hide Agree, OwnersRight, StopOrder, ReadersInFlight, GhostsPlaced, BoardAfter;
    var t, v, K := GhostNext(s, g, rnd), View(s), KeptCells(s);
    KeptSame(s, t);
    assert Local(s, g);
    PlacedIsWellFormed(v, K);
    if Committed(s.pc[g]) {
      KillsAreAlone(s);
      WritingKeepsView(s, g, rnd);
    } else if Committed(PcAfter(s, g, rnd)) {
      DecisionKeepsPlaced(s, g, rnd);
    } else {
      IdleView(s, g, rnd);
      SameSpot(s, g, rnd);
      TimingPlaces(v, g, ViewGhost(t, g), K);
    }
  }

  lemma SameSpot(s: Sys, g: nat, rnd: nat)
    requires Shaped(s) && Enabled(s, GhostDoes(g, rnd)) && Local(s, g)
    requires !Committed(s.pc[g]) && !Committed(PcAfter(s, g, rnd))
    ensures var gh, gh' := ViewGhost(s, g), ViewGhost(GhostNext(s, g, rnd), g);
            gh'.x == gh.x && gh'.y == gh.y && |gh'.moves| > 0 && gh'.currentMove >= 0
  {
  }

  lemma DecisionKeepsPlaced(s: Sys, g: nat, rnd: nat)
    requires ViewInv(s) && Enabled(s, GhostDoes(g, rnd)) && Undisturbed(s, GhostDoes(g, rnd))
    requires s.pc[g].Look? && Committed(PcAfter(s, g, rnd))
    ensures GhostsPlaced(View(GhostNext(s, g, rnd)), KeptCells(s))
  {
    hide Agree, OwnersRight, StopOrder, ReadersInFlight, GhostsPlaced, PcAfter, BoardAfter, Landed;
    var p, e, v := s.pc[g].p, PcAfter(s, g, rnd).j, View(s);
    PlacedIsWellFormed(v, KeptCells(s));
    DecisionIsCall(s, g, rnd);
    DecisionStops(s, g, rnd);
    LookStands(s, g);
    OwnsPlan(s, g, e);
    OwnedNotKept(s, g, CellOf(s, p, e));
    assert e > 0 ==> Ahead(v, p, e) != 'M';
    LandingPlaces(v, g, s.calls[g].rnd, p, e, KeptCells(s));
  }

  lemma GhostKeepsViewInv(s: Sys, g: nat, rnd: nat)
    requires ViewInv(s) && Enabled(s, GhostDoes(g, rnd)) && Undisturbed(s, GhostDoes(g, rnd))
    ensures ViewInv(GhostNext(s, g, rnd))
  {
    hide PcAfter, BoardAfter, Agree, OwnersRight, StopOrder, ReadersInFlight, GhostsPlaced, Local, ClaimsApart, View;
    var t := GhostNext(s, g, rnd);
    StepKeepsLockInv(s, GhostDoes(g, rnd));
    GhostKeepsMainLocal(s, g, rnd);
    KeepsClaimsApart(s, g, rnd);
    OwnLocal(s, g, rnd);
    forall i: nat | i < |s.pc| && i != g ensures Local(t, i) {
      OthersKeepLocal(s, g, rnd, i);
    }
    GhostKeepsPlaced(s, g, rnd);
    if KeptBy(s.main) == Nothing {
      GhostKeepsAgree(s, g, rnd);
    }
  }

  lemma GhostKeepsAgree(s: Sys, g: nat, rnd: nat)
    requires ViewInv(s) && Enabled(s, GhostDoes(g, rnd)) && Undisturbed(s, GhostDoes(g, rnd))
    requires KeptBy(s.main) == Nothing
    ensures Agree(View(GhostNext(s, g, rnd)))
  {
    hide PcAfter, BoardAfter, GhostNext, Agree, OwnersRight, StopOrder, ReadersInFlight, GhostsPlaced;
    hide GhostCallOn, View;
    var v, acts := View(s), CallOf(s, GhostDoes(g, rnd));
    GhostRefines(s, g, rnd);
    if acts != [] {
      AgreeIsWellFormed(v);
      RunOne(v, acts[0]);
      GhostCallKeepsAgree(v, g, acts[0].rnd);
    }
  }

  lemma AgreeIsWellFormed(v: State)
    requires Agree(v)
    ensures WellFormed(v)
  {
  }

  lemma GhostKeepsMainLocal(s: Sys, g: nat, rnd: nat)
    requires LockInv(s) && MainLocal(s) && Enabled(s, GhostDoes(g, rnd))
    ensures MainLocal(GhostNext(s, g, rnd))
  {
    if MainWrites(s.main) {
      WriterExcludesGhosts(s);
    } else {
      assert GhostNext(s, g, rnd).main == s.main;
    }
  }

  /** With no ghost in flight nothing is claimed and every local fact is about nothing. */
  lemma QuietFacts(t: Sys)
    requires Shaped(t) && forall g :: 0 <= g < |t.pc| ==> !InFlight(t.pc[g])
    ensures ClaimsApart(t) && forall g: nat :: g < |t.pc| ==> Local(t, g)
  {
  }

  lemma MainKeepsLocals(s: Sys, m: MainChoice)
    requires ViewInv(s) && Enabled(s, MainDoes(m))
    ensures var t := MainNext(s, m);
            MainLocal(t) && ClaimsApart(t) && forall g: nat :: g < |s.pc| ==> Local(t, g)
  {
    hide Agree, OwnersRight, StopOrder, GhostsPlaced, PacmanStep, PacmanTurn;
    var t := MainNext(s, m);
    MainFrame(s, m);
    MainKeepsRequest(s, m);
    if MainWrites(s.main) {
      WriterExcludesGhosts(s);
      QuietFacts(t);
    } else {
      assert t.b == s.b && t.calls == s.calls;
      forall g: nat | g < |s.pc| ensures Local(t, g) {
        LocalFrame(s, t, g);
      }
      forall h: nat, i: nat, c | i < |t.pc| && h != i && Claims(t, h, c) ensures !Touches(t, i, c) {
        OthersSame(s, t, h, c);
        OthersSame(s, t, i, c);
      }
    }
  }

  lemma MainKeepsRequest(s: Sys, m: MainChoice)
    requires Shaped(s) && Enabled(s, MainDoes(m)) && MainLocal(s)
    ensures MainLocal(MainNext(s, m))
  {
  }

  lemma PortalIsKept(s: Sys, m: MainChoice)
    requires LockInv(s) && s.main.Moving? && PacmanStep(s.b, s.main.p.d).out == ReachedPortal
    requires s.main.p.start == Pos(s.b.pac.x, s.b.pac.y)
    ensures Index(s.b.width, s.b.height, StepX(s.b.pac.x, s.main.p.d), StepY(s.b.pac.y, s.main.p.d))
            in KeptCells(MainNext(s, m))
  {
    var t, p := MainNext(s, m), s.main.p;
    var c := AheadIndex(s.b.width, s.b.height, p, 1);
    SpanOfPlan(s.b.width, s.b.height, p, 1);
    KeptFits(t);
    assert KeptAt(t, c);
  }

  lemma MainKeepsPlaced(s: Sys, m: MainChoice)
    requires ViewInv(s) && Enabled(s, MainDoes(m))
    ensures var t := MainNext(s, m);
            GhostsPlaced(View(t), KeptCells(t)) && (KeptBy(t.main) == Nothing ==> Agree(View(t)))
  {
    hide Agree, OwnersRight, StopOrder, ReadersInFlight, GhostsPlaced, PacmanStep, PacmanTurn, KeptCells;
    var t := MainNext(s, m);
    if s.main.Moving? {
      MovingKeepsPlaced(s, m);
    } else if s.main.Playing? {
      PlayRefines(s);
      PlayKeepsAgree(s);
      AgreeingIsPlaced(View(t), KeptCells(t));
    } else {
      MainKeepsView(s, m);
      KeptStaysWhileNotMoving(s, m);
      KeptSame(s, t);
    }
  }

  lemma KeptStaysWhileNotMoving(s: Sys, m: MainChoice)
    requires Shaped(s) && Enabled(s, MainDoes(m)) && !s.main.Moving? && !s.main.Playing?
    ensures var t := MainNext(s, m);
            KeptBy(t.main) == KeptBy(s.main) && t.b.width == s.b.width && t.b.height == s.b.height
  {
  }

  lemma PlayKeepsAgree(s: Sys)
    requires ViewInv(s) && s.main.Playing? && View(s) == s.b
    ensures Agree(s.b)
    ensures ChoosePacman(s.b, s.b.pac, s.main.d, s.main.rnd).Rest? ==>
              Agree(PacmanTurn(s.b, Command(s.main.d, 1, 0), s.main.rnd).s)
  {
    if ChoosePacman(s.b, s.b.pac, s.main.d, s.main.rnd).Rest? {
      RestingPlay(s.b, s.main.d, s.main.rnd);
      PacmanTurnKeepsAgree(s.b, Command(s.main.d, 1, 0), s.main.rnd);
    }
  }

  lemma RestingPlay(b: State, d: char, rnd: nat)
    requires WellFormed(b) && ChoosePacman(b, b.pac, d, rnd).Rest?
    ensures PacmanTurn(b, Command(d, 1, 0), rnd).out != ReachedPortal
  {
  }

  lemma MovingKeepsPlaced(s: Sys, m: MainChoice)
    requires ViewInv(s) && Enabled(s, MainDoes(m)) && s.main.Moving?
    ensures var t := MainNext(s, m);
            GhostsPlaced(View(t), KeptCells(t)) && (KeptBy(t.main) == Nothing ==> Agree(View(t)))
  {
    hide Agree, OwnersRight, StopOrder, ReadersInFlight, GhostsPlaced, PacmanStep, PacmanTurn, KeptCells;
    var t := MainNext(s, m);
    MovingRefines(s, m);
    SetPacmanKeepsAgree(View(s), s.b.pac);
    assert View(s).(pac := s.b.pac) == s.b;
    if PacmanStep(s.b, s.main.p.d).out == ReachedPortal {
      PortalIsKept(s, m);
    } else {
      PacmanStepKeepsAgree(s.b, s.main.p.d);
    }
    PacmanPlaces(s.b, s.main.p.d, KeptCells(t));
  }

  lemma MainKeepsViewInv(s: Sys, m: MainChoice)
    requires ViewInv(s) && Enabled(s, MainDoes(m))
    ensures ViewInv(MainNext(s, m))
  {
    hide MainNext, Agree, OwnersRight, StopOrder, ReadersInFlight, GhostsPlaced, Local, ClaimsApart, View, MainLocal;
    StepKeepsLockInv(s, MainDoes(m));
    MainKeepsLocals(s, m);
    MainFrame(s, m);
    MainKeepsPlaced(s, m);
  }

  lemma StepRefines(s: Sys, a: Step)
    requires ViewInv(s) && Enabled(s, a) && Undisturbed(s, a)
    ensures ViewInv(Next(s, a))
    ensures LegalRun(View(s), CallOf(s, a)) && View(Next(s, a)) == Run(View(s), CallOf(s, a))
  {
    hide GhostNext, MainNext, ViewInv, CallOf, Undisturbed, View;
    match a
    case GhostDoes(g, rnd) =>
      GhostKeepsViewInv(s, g, rnd);
      GhostRefines(s, g, rnd);
    case MainDoes(m) =>
      MainKeepsViewInv(s, m);
      MainRefines(s, m);
  }

  // ----- executions

  /** No ghost ever reads a cell that another is leaving or about to take. */
  ghost predicate Calm(s: Sys, steps: seq<Step>)
    requires Shaped(s) && CanRun(s, steps)
    decreases |steps|
  {
    steps == [] || (Undisturbed(s, steps[0]) && Calm(Next(s, steps[0]), steps[1..]))
  }

  /** The calls of an execution, in the order of their points of effect. */
  function Calls(s: Sys, steps: seq<Step>): seq<Action>
    requires Shaped(s) && CanRun(s, steps)
    decreases |steps|
  {
    if steps == [] then [] else CallOf(s, steps[0]) + Calls(Next(s, steps[0]), steps[1..])
  }

  lemma {:induction false} RunJoins(v: State, a: seq<Action>, b: seq<Action>)
    requires WellFormed(v) && LegalRun(v, a) && LegalRun(Run(v, a), b)
    ensures LegalRun(v, a + b) && Run(v, a + b) == Run(Run(v, a), b)
    decreases |a|
  {
    hide Do;
    assert forall i :: 0 <= i < |b| ==> Legal(v, b[i]) == Legal(Run(v, a), b[i]);
    if a == [] {
      assert a + b == b;
    } else {
      assert (a + b)[0] == a[0] && (a + b)[1..] == a[1..] + b;
      RunJoins(Do(v, a[0]).s, a[1..], b);
    }
  }

  /** Every calm interleaving is a run of the atomic game, charges and the portal exit included. */
  lemma {:induction false} ExecutionRefines(s: Sys, steps: seq<Step>)
    requires ViewInv(s) && CanRun(s, steps) && Calm(s, steps)
    ensures ViewInv(Execute(s, steps))
    ensures WellFormed(View(s)) && LegalRun(View(s), Calls(s, steps))
    ensures View(Execute(s, steps)) == Run(View(s), Calls(s, steps))
    decreases |steps|
  {
    hide Next, Enabled, View, CallOf, Undisturbed, Do, GhostsPlaced, Local, ClaimsApart, Agree;
    PlacedIsWellFormed(View(s), KeptCells(s));
    if steps != [] {
      var t := Next(s, steps[0]);
      StepRefines(s, steps[0]);
      ExecutionRefines(t, steps[1..]);
      RunJoins(View(s), CallOf(s, steps[0]), Calls(t, steps[1..]));
    }
  }

  lemma InitialViewInv(s: Sys)
    requires Initial(s) && Agree(s.b)
    ensures ViewInv(s) && View(s) == s.b
  {
    InitialLockInv(s);
    QuietView(s);
    QuietFacts(s);
    AgreeingIsPlaced(s.b, KeptCells(s));
  }

  /** From a loaded level to any moment with no move in flight, the board itself is that of an atomic run. */
  lemma QuietBoardIsRun(s: Sys, steps: seq<Step>)
    requires Initial(s) && Agree(s.b) && CanRun(s, steps) && Calm(s, steps) && Quiet(Execute(s, steps))
    ensures LegalRun(s.b, Calls(s, steps)) && Execute(s, steps).b == Run(s.b, Calls(s, steps))
  {
    InitialViewInv(s);
    ExecutionRefines(s, steps);
    QuietView(Execute(s, steps));
  }
}
