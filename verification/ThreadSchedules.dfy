/**
  What the threads of a level keep under every schedule, however charges race and past the portal
  exit: scripts tick by their ghost's own turns, one death at most, cells written under their mutex,
  walls and portals where they were, every agent joined to its start, and no agent faster than its
  turns and its `passo` allow, in the middle of moves too.
 */
module ThreadSchedules {
  import opened Maze
  import opened Agreement
  import opened Fate
  import opened Walks
  import opened Script
  import opened Threads
  import opened ThreadLocks
  import opened ThreadProgress
  import opened ThreadView
  import opened ThreadRefinement

  // ----- scripts

  /** Ghost g begins a turn: one call of its script. */
  predicate Begins(s: Sys, a: Step, g: nat) {
    a.GhostDoes? && a.g == g && g < |s.pc| && s.pc[g].Entered? && !s.shutdown
  }

  /** The turns ghost g begins in an execution. */
  function Turns(s: Sys, steps: seq<Step>, g: nat): nat
    requires Shaped(s) && CanRun(s, steps)
    decreases |steps|
  {
    if steps == [] then 0
    else (if Begins(s, steps[0], g) then 1 else 0) + Turns(Next(s, steps[0]), steps[1..], g)
  }

  lemma TimedTicks(gh: Ghost, rnd: nat)
    requires |gh.moves| > 0 && gh.currentMove >= 0
    ensures ClockOf(Timed(gh, rnd)) == Tick(ClockOf(gh))
  {
  }

  lemma StepTicks(s: Sys, a: Step, g: nat)
    requires Shaped(s) && Enabled(s, a) && g < |s.pc|
    ensures var c, c' := ClockOf(s.b.ghosts[g]), ClockOf(Next(s, a).b.ghosts[g]);
            c' == if Begins(s, a, g) then Tick(c) else c
  {
    hide Tick, Timed, PcAfter;
    match a
    case GhostDoes(h, rnd) =>
      if h != g {
        OtherRecord(s, h, rnd, g);
      } else if Begins(s, a, g) {
        TimedTicks(s.b.ghosts[g], rnd);
      }
    case MainDoes(m) =>
      MainKeepsGhosts(s, m);
  }

  lemma MainKeepsGhosts(s: Sys, m: MainChoice)
    requires Shaped(s) && Enabled(s, MainDoes(m))
    ensures MainNext(s, m).b.ghosts == s.b.ghosts && MainNext(s, m).pc == s.pc
  {
    hide PacmanStep, PacmanTurn, ChoosePacman;
  }

  /** A ghost's timing is moved by its own turns and by nothing else. */
  lemma {:induction false} ThreadTicks(s: Sys, steps: seq<Step>, g: nat)
    requires Shaped(s) && CanRun(s, steps) && g < |s.pc|
    ensures ClockOf(Execute(s, steps).b.ghosts[g]) == Ticks(Turns(s, steps, g), ClockOf(s.b.ghosts[g]))
    decreases |steps|
  {
    hide Next, Enabled, Tick, Begins;
    if steps != [] {
      StepTicks(s, steps[0], g);
      ThreadTicks(Next(s, steps[0]), steps[1..], g);
    }
  }

  /** So a script has its period, whatever the other threads do, from and to any point of a move. */
  lemma ThreadScriptHasPeriod(s: Sys, steps: seq<Step>, g: nat)
    requires Shaped(s) && CanRun(s, steps) && g < |s.pc|
    requires var c := ClockOf(s.b.ghosts[g]);
             && AllPlayable(c.moves) && Rewound(c.moves)
             && 0 <= c.waiting <= c.passo && c.currentMove % |c.moves| == 0
             && Turns(s, steps, g) == Period(c)
    ensures var gh, gh' := s.b.ghosts[g], Execute(s, steps).b.ghosts[g];
            && gh'.currentMove == gh.currentMove + |gh.moves|
            && gh'.moves == gh.moves && gh'.waiting == gh.waiting
  {
    ThreadTicks(s, steps, g);
    ScriptHasPeriod(ClockOf(s.b.ghosts[g]));
  }

  // ----- dots

  lemma StepConservesDots(s: Sys, a: Step)
    requires Shaped(s) && Enabled(s, a)
    ensures var b := Next(s, a).b; b.pac.points + Dots(b.cells) == s.b.pac.points + Dots(s.b.cells)
    ensures Next(s, a).b.pac.points >= s.b.pac.points
  {
    match a
    case GhostDoes(g, rnd) =>
      GhostKeepsDots(s, g, rnd);
      DotsSame(s.b.cells, BoardAfter(s, g, rnd).cells);
    case MainDoes(m) =>
      if s.main.Moving? {
        PacmanStepConservesDots(s.b, s.main.p.d);
      } else if s.main.Playing? {
        DoConservesDots(s.b, PacCall(Command(s.main.d, 1, 0), s.main.rnd));
      }
  }

  lemma GhostKeepsDots(s: Sys, g: nat, rnd: nat)
    requires Shaped(s) && g < |s.pc|
    ensures var b := BoardAfter(s, g, rnd);
            && |b.cells| == |s.b.cells| && b.pac.points == s.b.pac.points
            && forall c :: 0 <= c < |s.b.cells| ==> b.cells[c].hasDot == s.b.cells[c].hasDot
  {
  }

  /** Points plus dots on the board never change, and points never decrease. */
  lemma {:induction false} ThreadsConserveDots(s: Sys, steps: seq<Step>)
    requires Shaped(s) && CanRun(s, steps)
    ensures var b := Execute(s, steps).b; b.pac.points + Dots(b.cells) == s.b.pac.points + Dots(s.b.cells)
    ensures Execute(s, steps).b.pac.points >= s.b.pac.points
    decreases |steps|
  {
    hide Next, Enabled;
    if steps != [] {
      StepConservesDots(s, steps[0]);
      ThreadsConserveDots(Next(s, steps[0]), steps[1..]);
    }
  }

  // ----- who writes where

  /** A ghost about to kill has found the pacman on its plan, and the pacman has not moved since. */
  ghost predicate KillersFound(s: Sys) {
    forall g :: 0 <= g < |s.pc| && (s.pc[g].Kill1? || s.pc[g].Kill2?) ==>
      Pos(s.b.pac.x, s.b.pac.y) == Along(s.pc[g].p.start, s.pc[g].p.d, s.pc[g].j)
  }

  ghost predicate RaceInv(s: Sys) {
    LockInv(s) && MainLocal(s) && KillersFound(s)
  }

  lemma StepKeepsRaceInv(s: Sys, a: Step)
    requires RaceInv(s) && Enabled(s, a)
    ensures RaceInv(Next(s, a))
  {
    StepKeepsLockInv(s, a);
    match a
    case GhostDoes(g, rnd) =>
      GhostKeepsMainLocal(s, g, rnd);
      GhostKeepsKillers(s, g, rnd);
    case MainDoes(m) =>
      MainKeepsRequest(s, m);
      MainKeepsKillers(s, m);
  }

  lemma GhostKeepsKillers(s: Sys, g: nat, rnd: nat)
    requires Shaped(s) && KillersFound(s) && Enabled(s, GhostDoes(g, rnd))
    ensures KillersFound(GhostNext(s, g, rnd))
  {
  }

  lemma MainKeepsKillers(s: Sys, m: MainChoice)
    requires LockInv(s) && KillersFound(s) && Enabled(s, MainDoes(m))
    ensures KillersFound(MainNext(s, m))
  {
    MainKeepsGhosts(s, m);
    if MainWrites(s.main) {
      WriterExcludesGhosts(s);
    }
  }

  lemma {:induction false} RaceInvAlways(s: Sys, steps: seq<Step>)
    requires RaceInv(s) && CanRun(s, steps)
    ensures RaceInv(Execute(s, steps))
    decreases |steps|
  {
    hide Next, Enabled;
    if steps != [] {
      StepKeepsRaceInv(s, steps[0]);
      RaceInvAlways(Next(s, steps[0]), steps[1..]);
    }
  }

  lemma InitialRaceInv(s: Sys)
    requires Initial(s)
    ensures RaceInv(s)
  {
    InitialLockInv(s);
  }

  /** A charge writes after it has given its mutexes back; nobody else does. */
  predicate WritesUnlocked(s: Sys, a: Step) {
    a.GhostDoes? && a.g < |s.pc| && (s.pc[a.g].Clear? || s.pc[a.g].Mark?) && s.pc[a.g].p.charged
  }

  lemma GhostWritesOwned(s: Sys, g: nat, rnd: nat, c: int)
    requires RaceInv(s) && g < |s.pc| && 0 <= c < |s.b.cells| && !WritesUnlocked(s, GhostDoes(g, rnd))
    ensures |BoardAfter(s, g, rnd).cells| == |s.b.cells|
    ensures BoardAfter(s, g, rnd).cells[c] != s.b.cells[c] ==> OwnedBy(s, c, GhostThread(g))
  {
    if s.pc[g].Kill2? || s.pc[g].Clear? || s.pc[g].Mark? {
      OwnsPlan(s, g, 0);
      OwnsPlan(s, g, s.pc[g].j);
    }
  }

  lemma StepWritesTwoCells(b: State, d: char, c: int)
    requires WellFormed(b) && 0 <= c < |b.cells|
    ensures |PacmanStep(b, d).s.cells| == |b.cells|
    ensures PacmanStep(b, d).s.cells[c] != b.cells[c] ==>
              var nx, ny := StepX(b.pac.x, d), StepY(b.pac.y, d);
              c == PacIndex(b) || (IsValidPosition(b, nx, ny) && c == Index(b.width, b.height, nx, ny))
  {
  }

  lemma PacmanWritesOwned(s: Sys, c: int)
    requires LockInv(s) && MainLocal(s) && s.main.Moving? && 0 <= c < |s.b.cells|
    ensures |PacmanStep(s.b, s.main.p.d).s.cells| == |s.b.cells|
    ensures PacmanStep(s.b, s.main.p.d).s.cells[c] != s.b.cells[c] ==> OwnedBy(s, c, MainThread)
  {
    var w, h, p := s.b.width, s.b.height, s.main.p;
    StepWritesTwoCells(s.b, p.d, c);
    SpanOfPlan(w, h, p, 0);
    SpanOfPlan(w, h, p, 1);
    assert OwnedBy(s, c, MainThread) <==> Holds(w, h, Span(p, 0, 2), c);
  }

  lemma RestingPlayWritesNothing(b: State, d: char, rnd: nat)
    requires WellFormed(b) && ChoosePacman(b, b.pac, d, rnd).Rest?
    ensures PacmanTurn(b, Command(d, 1, 0), rnd).s.cells == b.cells
  {
  }

  lemma MainWritesOwned(s: Sys, m: MainChoice, c: int)
    requires LockInv(s) && MainLocal(s) && Enabled(s, MainDoes(m)) && 0 <= c < |s.b.cells|
    ensures |MainNext(s, m).b.cells| == |s.b.cells|
    ensures MainNext(s, m).b.cells[c] != s.b.cells[c] ==> OwnedBy(s, c, MainThread)
  {
    hide PacmanStep, PacmanTurn;
    if s.main.Moving? {
      PacmanWritesOwned(s, c);
    } else if s.main.Playing? && ChoosePacman(s.b, s.b.pac, s.main.d, s.main.rnd).Rest? {
      RestingPlayWritesNothing(s.b, s.main.d, s.main.rnd);
    }
  }

  /**
    Wherever an execution from a loaded level stands: except for the last writes of a charge, a
    cell is written only by the thread that holds its mutex.
   */
  lemma WritesUnderMutex(s: Sys, steps: seq<Step>, a: Step, c: int)
    requires Initial(s) && CanRun(s, steps)
    requires var t := Execute(s, steps); Enabled(t, a) && !WritesUnlocked(t, a) && 0 <= c < |t.b.cells|
    ensures var t := Execute(s, steps);
            && |Next(t, a).b.cells| == |t.b.cells|
            && (Next(t, a).b.cells[c] != t.b.cells[c] ==>
                 OwnedBy(t, c, if a.GhostDoes? then GhostThread(a.g) else MainThread))
  {
    InitialRaceInv(s);
    RaceInvAlways(s, steps);
    match a
    case GhostDoes(g, rnd) => GhostWritesOwned(Execute(s, steps), g, rnd, c);
    case MainDoes(m) => MainWritesOwned(Execute(s, steps), m, c);
  }

  // ----- one death

  /** The pacman is alive and no ghost has already found it. */
  ghost predicate Living(s: Sys) {
    s.b.pac.alive && !Dying(s)
  }

  /** The step that settles the pacman's death: a ghost finds it, or it walks into a ghost. */
  predicate Fatal(s: Sys, a: Step)
    requires Shaped(s) && Enabled(s, a)
  {
    match a
    case GhostDoes(g, rnd) => s.pc[g].Look? && PcAfter(s, g, rnd).Kill1?
    case MainDoes(m) => s.main.Moving? && PacmanStep(s.b, s.main.p.d).out == DeadPacman
  }

  function Killings(s: Sys, steps: seq<Step>): nat
    requires Shaped(s) && CanRun(s, steps)
    decreases |steps|
  {
    if steps == [] then 0
    else (if Fatal(s, steps[0]) then 1 else 0) + Killings(Next(s, steps[0]), steps[1..])
  }

  /** Two ghosts cannot find the pacman at once: its cell has one mutex. */
  lemma FinderIsFirst(s: Sys, g: nat, rnd: nat)
    requires RaceInv(s) && Enabled(s, GhostDoes(g, rnd)) && Fatal(s, GhostDoes(g, rnd))
    ensures Living(s)
  {
    if h :| 0 <= h < |s.pc| && s.pc[h].Kill1? {
      OwnsPlan(s, h, s.pc[h].j);
      OwnsPlan(s, g, s.pc[g].j);
    }
  }

  lemma GhostLives(s: Sys, g: nat, rnd: nat)
    requires RaceInv(s) && Enabled(s, GhostDoes(g, rnd))
    ensures Fatal(s, GhostDoes(g, rnd)) ==> Living(s)
    ensures Living(GhostNext(s, g, rnd)) <==> Living(s) && !Fatal(s, GhostDoes(g, rnd))
  {
    var t := GhostNext(s, g, rnd);
    if Fatal(s, GhostDoes(g, rnd)) {
      FinderIsFirst(s, g, rnd);
      assert t.pc[g].Kill1?;
    } else if s.pc[g].Kill1? {
      assert Dying(s);
    } else {
      DyingSame(s, t);
    }
  }

  lemma PacmanStepKills(b: State, d: char)
    requires WellFormed(b)
    ensures PacmanStep(b, d).s.pac.alive <==> b.pac.alive && PacmanStep(b, d).out != DeadPacman
  {
  }

  lemma RestingPlayKillsNobody(b: State, d: char, rnd: nat)
    requires WellFormed(b) && ChoosePacman(b, b.pac, d, rnd).Rest?
    ensures PacmanTurn(b, Command(d, 1, 0), rnd).s.pac.alive == b.pac.alive
  {
  }

  lemma MainLives(s: Sys, m: MainChoice)
    requires RaceInv(s) && Enabled(s, MainDoes(m))
    ensures Fatal(s, MainDoes(m)) ==> Living(s)
    ensures Living(MainNext(s, m)) <==> Living(s) && !Fatal(s, MainDoes(m))
  {
    hide PacmanStep, PacmanTurn;
    var t := MainNext(s, m);
    MainKeepsGhosts(s, m);
    DyingSame(s, t);
    if s.main.Moving? {
      WriterExcludesGhosts(s);
      PacmanStepKills(s.b, s.main.p.d);
    } else if s.main.Playing? && ChoosePacman(s.b, s.b.pac, s.main.d, s.main.rnd).Rest? {
      RestingPlayKillsNobody(s.b, s.main.d, s.main.rnd);
    }
  }

  lemma StepLives(s: Sys, a: Step)
    requires RaceInv(s) && Enabled(s, a)
    ensures Fatal(s, a) ==> Living(s)
    ensures Living(Next(s, a)) <==> Living(s) && !Fatal(s, a)
  {
    match a
    case GhostDoes(g, rnd) => GhostLives(s, g, rnd);
    case MainDoes(m) => MainLives(s, m);
  }

  lemma {:induction false} KillingsExactly(s: Sys, steps: seq<Step>)
    requires RaceInv(s) && CanRun(s, steps)
    ensures Living(Execute(s, steps)) ==> Living(s)
    ensures Killings(s, steps) == if Living(s) && !Living(Execute(s, steps)) then 1 else 0
    decreases |steps|
  {
    hide Next, Enabled, Living, Fatal;
    if steps != [] {
      StepLives(s, steps[0]);
      StepKeepsRaceInv(s, steps[0]);
      KillingsExactly(Next(s, steps[0]), steps[1..]);
    }
  }

  /** From a loaded level the pacman is killed once if it ends dead or found, and otherwise never. */
  lemma ThreadsKillOnce(s: Sys, steps: seq<Step>)
    requires Initial(s) && CanRun(s, steps)
    ensures Living(Execute(s, steps)) ==> s.b.pac.alive
    ensures Killings(s, steps) == if s.b.pac.alive && !Living(Execute(s, steps)) then 1 else 0
  {
    InitialRaceInv(s);
    KillingsExactly(s, steps);
  }

  // ----- how fast

  /** The turn has a move on the board still to make. */
  predicate Pending(pc: Pc) {
    || pc.Locking? || pc.Look? || pc.Kill1? || pc.Kill2? || pc.Clear? || pc.SetPos?
    || (pc.Unlocking? && pc.pending)
  }

  /** Until it stores its new coordinates the ghost stands where its plan starts, and then where the plan ends. */
  predicate Stands(s: Sys, g: nat)
    requires g < |s.pc| && |s.b.ghosts| == |s.pc|
  {
    var pc := s.pc[g];
    && (Pending(pc) ==> GhostAt(s.b, g) == pc.p.start)
    && (pc.Mark? ==> GhostAt(s.b, g) == Along(pc.p.start, pc.p.d, pc.j))
  }

  /** The turns in which ghost g is done waiting. */
  function ActiveTurns(s: Sys, steps: seq<Step>, g: nat): nat
    requires Shaped(s) && CanRun(s, steps) && g < |s.pc|
    decreases |steps|
  {
    if steps == [] then 0
    else (if Begins(s, steps[0], g) && s.b.ghosts[g].waiting <= 0 then 1 else 0)
         + ActiveTurns(Next(s, steps[0]), steps[1..], g)
  }

  lemma StepWaits(s: Sys, a: Step, g: nat)
    requires Shaped(s) && Enabled(s, a) && g < |s.pc|
    ensures var gh, gh' := s.b.ghosts[g], Next(s, a).b.ghosts[g];
            && gh'.passo == gh.passo
            && gh'.waiting == if !Begins(s, a, g) then gh.waiting
                              else if gh.waiting > 0 then gh.waiting - 1 else gh.passo
  {
    hide Next, Enabled, Begins;
    StepTicks(s, a, g);
    ActKeepsPasso(ClockOf(s.b.ghosts[g]));
  }

  lemma {:induction false} ActiveTurnsExactly(s: Sys, steps: seq<Step>, g: nat)
    requires Shaped(s) && CanRun(s, steps) && g < |s.pc|
    requires 0 <= s.b.ghosts[g].waiting <= s.b.ghosts[g].passo
    ensures ActiveTurns(s, steps, g) == Active(Turns(s, steps, g), s.b.ghosts[g].waiting, s.b.ghosts[g].passo)
    decreases |steps|
  {
    hide Next, Enabled, Begins;
    if steps != [] {
      var t := Next(s, steps[0]);
      StepWaits(s, steps[0], g);
      ActiveTurnsExactly(t, steps[1..], g);
      ActiveStep(Begins(s, steps[0], g), Turns(t, steps[1..], g), s.b.ghosts[g].waiting, t.b.ghosts[g].waiting,
                 s.b.ghosts[g].passo);
    }
  }

  predicate Plain(pc: Pc) {
    (pc.Locking? || pc.Look? || pc.Kill1? || pc.Kill2? || pc.Clear? || pc.SetPos? || pc.Mark? || pc.Unlocking?)
    ==> !pc.p.charged
  }

  /** Ghost g is not charging now and never will. */
  ghost predicate Steady(s: Sys, g: nat)
    requires Shaped(s) && g < |s.pc|
  {
    NeverCharges(s.b.ghosts[g]) && Plain(s.pc[g]) && Stands(s, g)
  }

  lemma TimedNeverCharges(gh: Ghost, rnd: nat)
    requires |gh.moves| > 0 && gh.currentMove >= 0 && NeverCharges(gh)
    ensures NeverCharges(Timed(gh, rnd))
  {
    assert gh.moves[Slot(gh)].command != 'C';
  }

  lemma OwnStepStands(s: Sys, g: nat, rnd: nat)
    requires Shaped(s) && Enabled(s, GhostDoes(g, rnd)) && Stands(s, g)
    ensures var t := GhostNext(s, g, rnd);
            && Stands(t, g)
            && (!s.pc[g].SetPos? ==> GhostAt(t.b, g) == GhostAt(s.b, g))
            && (s.pc[g].SetPos? ==> GhostAt(t.b, g) == Along(s.pc[g].p.start, s.pc[g].p.d, s.pc[g].j))
            && (Pending(t.pc[g]) ==> Pending(s.pc[g]) || (s.pc[g].Entered? && !s.shutdown))
  {
  }

  lemma StepStands(s: Sys, a: Step, g: nat)
    requires Shaped(s) && Enabled(s, a) && g < |s.pc| && Stands(s, g)
    ensures Stands(Next(s, a), g)
  {
    match a
    case GhostDoes(h, rnd) =>
      if h == g {
        OwnStepStands(s, g, rnd);
      } else {
        OtherRecord(s, h, rnd, g);
      }
    case MainDoes(m) =>
      MainKeepsGhosts(s, m);
  }

  lemma OwnStepKeepsSteady(s: Sys, g: nat, rnd: nat)
    requires Shaped(s) && Enabled(s, GhostDoes(g, rnd)) && Steady(s, g)
    ensures Steady(GhostNext(s, g, rnd), g)
    ensures s.pc[g].Entered? && s.b.ghosts[g].waiting > 0 ==> !Pending(GhostNext(s, g, rnd).pc[g])
  {
    OwnStepStands(s, g, rnd);
    if s.pc[g].Entered? && !s.shutdown {
      TimedNeverCharges(s.b.ghosts[g], rnd);
    }
  }

  function One(p: bool): nat {
    if p then 1 else 0
  }

  /** A ghost that never charges pays one active turn for each cell. */
  lemma StepCovers(s: Sys, a: Step, g: nat)
    requires Shaped(s) && Enabled(s, a) && g < |s.pc| && Steady(s, g)
    ensures Steady(Next(s, a), g)
    ensures Distance(GhostPos(s.b, g), GhostPos(Next(s, a).b, g)) + One(Pending(Next(s, a).pc[g]))
            <= One(Begins(s, a, g) && s.b.ghosts[g].waiting <= 0) + One(Pending(s.pc[g]))
  {
    match a
    case GhostDoes(h, rnd) =>
      if h == g {
        OwnStepKeepsSteady(s, g, rnd);
        OwnStepStands(s, g, rnd);
      } else {
        OtherRecord(s, h, rnd, g);
      }
    case MainDoes(m) =>
      MainKeepsGhosts(s, m);
  }

  lemma {:induction false} ThreadCovers(s: Sys, steps: seq<Step>, g: nat)
    requires Shaped(s) && CanRun(s, steps) && g < |s.pc| && Steady(s, g)
    ensures Distance(GhostPos(s.b, g), GhostPos(Execute(s, steps).b, g))
            <= ActiveTurns(s, steps, g) + One(Pending(s.pc[g]))
    decreases |steps|
  {
    hide Next, Enabled, Begins, Steady, Pending;
    if steps != [] {
      StepCovers(s, steps[0], g);
      ThreadCovers(Next(s, steps[0]), steps[1..], g);
    }
  }

  /**
    From a loaded level, whatever the others do, and in the middle of a move too: a ghost that never
    charges is never farther from its start than its turns and its `passo` allow.
   */
  lemma ThreadSpeedLimit(s: Sys, steps: seq<Step>, g: nat)
    requires Initial(s) && CanRun(s, steps) && g < |s.pc|
    requires NeverCharges(s.b.ghosts[g]) && 0 <= s.b.ghosts[g].waiting <= s.b.ghosts[g].passo
    ensures Distance(GhostPos(s.b, g), GhostPos(Execute(s, steps).b, g))
            <= Limit(Turns(s, steps, g), s.b.ghosts[g].waiting, s.b.ghosts[g].passo)
  {
    ThreadCovers(s, steps, g);
    ActiveTurnsExactly(s, steps, g);
    ActiveExactly(Turns(s, steps, g), s.b.ghosts[g].waiting, s.b.ghosts[g].passo);
  }

  // ----- walls and portals

  /** The first j cells ahead are no walls. */
  ghost predicate OpenAhead(b: State, p: Plan, j: nat)
    requires WellFormed(b) && PlanIn(b.width, b.height, p) && j <= p.reach
  {
    forall m :: 1 <= m <= j ==> b.cells[AheadIndex(b.width, b.height, p, m)].content != 'W'
  }

  /** What a ghost has read of its path, it has read to be open. */
  ghost predicate PathOpen(b: State, pc: Pc)
    requires WellFormed(b) && PcIn(b.width, b.height, pc)
  {
    match pc
    case Look(p, j) => OpenAhead(b, p, j - 1)
    case Kill1(p, j) => OpenAhead(b, p, j)
    case Kill2(p, j) => OpenAhead(b, p, j)
    case Clear(p, j) => OpenAhead(b, p, j)
    case SetPos(p, j) => OpenAhead(b, p, j)
    case Mark(p, j) => OpenAhead(b, p, j)
    case Unlocking(p, k, j, pending) => pending ==> OpenAhead(b, p, j)
    case _ => true
  }

  ghost predicate OnPath(s: Sys, g: nat)
    requires Shaped(s) && g < |s.pc|
  {
    Stands(s, g) && PathOpen(s.b, s.pc[g])
  }

  ghost predicate MazeInv(s: Sys) {
    RaceInv(s) && Grounded(s.b) && forall g: nat :: g < |s.pc| ==> OnPath(s, g)
  }

  /** What holds of a path holds as long as the walls stay. */
  lemma PathStaysOpen(b: State, b': State, pc: Pc)
    requires WellFormed(b) && WellFormed(b') && SameMaze(b, b') && PcIn(b.width, b.height, pc) && PathOpen(b, pc)
    ensures PathOpen(b', pc)
  {
  }

  lemma ContentStaysGrounded(b: State, c: int, content: char)
    requires Grounded(b) && 0 <= c < |b.cells| && b.cells[c].content != 'W' && content != 'W'
    ensures StaysGrounded(b, SetContent(b, c, content))
  {
    var t := SetContent(b, c, content);
    assert forall g :: 0 <= g < |b.ghosts| ==> GhostIndex(t, g) == GhostIndex(b, g);
    assert PacIndex(t) == PacIndex(b);
  }

  lemma PositionStaysGrounded(b: State, g: int, x: int, y: int)
    requires Grounded(b) && 0 <= g < |b.ghosts| && IsValidPosition(b, x, y) && At(b, x, y).content != 'W'
    ensures StaysGrounded(b, SetGhost(b, g, b.ghosts[g].(x := x, y := y)))
  {
    var t := SetGhost(b, g, b.ghosts[g].(x := x, y := y));
    assert forall h :: 0 <= h < |b.ghosts| ==>
             GhostIndex(t, h) == if h == g then Index(b.width, b.height, x, y) else GhostIndex(b, h);
  }

  lemma DeathStaysGrounded(b: State)
    requires Grounded(b)
    ensures StaysGrounded(b, b.(pac := b.pac.(alive := false)))
  {
    var t := b.(pac := b.pac.(alive := false));
    assert forall h :: 0 <= h < |b.ghosts| ==> GhostIndex(t, h) == GhostIndex(b, h);
  }

  /** The cells that a plan is about to write. */
  lemma PlanCells(s: Sys, g: nat)
    requires MazeInv(s) && g < |s.pc|
    ensures s.pc[g].Clear? ==> CellOf(s, s.pc[g].p, 0) == GhostIndex(s.b, g)
    ensures s.pc[g].Kill2? ==> CellOf(s, s.pc[g].p, s.pc[g].j) == PacIndex(s.b)
    ensures s.pc[g].Kill2? || s.pc[g].SetPos? || s.pc[g].Mark? ==>
              s.b.cells[CellOf(s, s.pc[g].p, s.pc[g].j)].content != 'W'
  {
    assert OnPath(s, g);
  }

  lemma GhostWritesGrounded(s: Sys, g: nat, rnd: nat)
    requires MazeInv(s) && g < |s.pc|
    ensures StaysGrounded(s.b, BoardAfter(s, g, rnd))
  {
    hide Timed;
    PlanCells(s, g);
    var b := s.b;
    match s.pc[g]
    case Entered => SetTimingStaysGrounded(b, g, Timed(b.ghosts[g], rnd));
    case Kill1(p, j) => DeathStaysGrounded(b);
    case Kill2(p, j) => ContentStaysGrounded(b, PacIndex(b), ' ');
    case Clear(p, j) => ContentStaysGrounded(b, CellOf(s, p, 0), ' ');
    case SetPos(p, j) => PositionStaysGrounded(b, g, Along(p.start, p.d, j).x, Along(p.start, p.d, j).y);
    case Mark(p, j) => ContentStaysGrounded(b, CellOf(s, p, j), 'M');
    case _ =>
  }

  lemma OwnStepKeepsPath(s: Sys, g: nat, rnd: nat)
    requires Shaped(s) && Enabled(s, GhostDoes(g, rnd)) && PathOpen(s.b, s.pc[g])
    ensures PathOpen(s.b, PcAfter(s, g, rnd))
  {
  }

  lemma GhostKeepsMaze(s: Sys, g: nat, rnd: nat)
    requires MazeInv(s) && Enabled(s, GhostDoes(g, rnd))
    ensures MazeInv(GhostNext(s, g, rnd)) && SameMaze(s.b, GhostNext(s, g, rnd).b)
  {
    hide Grounded, SameMaze, PathOpen, Stands, PcAfter, OwnersRight, StopOrder, ReadersInFlight;
    var t := GhostNext(s, g, rnd);
    StepKeepsRaceInv(s, GhostDoes(g, rnd));
    GhostWritesGrounded(s, g, rnd);
    forall h: nat | h < |s.pc| ensures OnPath(t, h) {
      assert OnPath(s, h);
      StepStands(s, GhostDoes(g, rnd), h);
      if h == g {
        OwnStepKeepsPath(s, g, rnd);
      } else {
        OtherRecord(s, g, rnd, h);
      }
      PathStaysOpen(s.b, t.b, t.pc[h]);
    }
  }

  lemma MainWritesGrounded(s: Sys, m: MainChoice)
    requires LockInv(s) && MainLocal(s) && Grounded(s.b) && Enabled(s, MainDoes(m))
    ensures StaysGrounded(s.b, MainNext(s, m).b)
  {
    hide PacmanStep, PacmanTurn, Grounded;
    if s.main.Moving? {
      PacmanStepStaysGrounded(s.b, s.main.p.d);
    } else if s.main.Playing? {
      PacmanCallStaysGrounded(s.b, Command(s.main.d, 1, 0), s.main.rnd);
      SetPacmanStaysGrounded(s.b, TimedPacman(s.b.pac));
    } else {
      StaysAsItIs(s.b);
    }
  }

  lemma StaysAsItIs(b: State)
    requires Grounded(b)
    ensures StaysGrounded(b, b)
  {
  }

  lemma MainKeepsMaze(s: Sys, m: MainChoice)
    requires MazeInv(s) && Enabled(s, MainDoes(m))
    ensures MazeInv(MainNext(s, m)) && SameMaze(s.b, MainNext(s, m).b)
  {
    hide Grounded, SameMaze, PathOpen, Stands, MainNext, OwnersRight, StopOrder, ReadersInFlight;
    var t := MainNext(s, m);
    StepKeepsRaceInv(s, MainDoes(m));
    MainWritesGrounded(s, m);
    MainKeepsGhosts(s, m);
    forall h: nat | h < |s.pc| ensures OnPath(t, h) {
      assert OnPath(s, h);
      StepStands(s, MainDoes(m), h);
      PathStaysOpen(s.b, t.b, t.pc[h]);
    }
  }

  lemma StepKeepsMaze(s: Sys, a: Step)
    requires MazeInv(s) && Enabled(s, a)
    ensures MazeInv(Next(s, a)) && SameMaze(s.b, Next(s, a).b)
  {
    match a
    case GhostDoes(g, rnd) => GhostKeepsMaze(s, g, rnd);
    case MainDoes(m) => MainKeepsMaze(s, m);
  }

  lemma InitialMazeInv(s: Sys)
    requires Initial(s) && Grounded(s.b)
    ensures MazeInv(s)
  {
    InitialRaceInv(s);
  }

  lemma SameMazeTransitive(a: State, b: State, c: State)
    requires SameMaze(a, b) && SameMaze(b, c)
    ensures SameMaze(a, c)
  {
  }

  lemma {:induction false} MazeAlways(s: Sys, steps: seq<Step>)
    requires MazeInv(s) && CanRun(s, steps)
    ensures MazeInv(Execute(s, steps)) && SameMaze(s.b, Execute(s, steps).b)
    decreases |steps|
  {
    hide Next, Enabled, MazeInv, SameMaze;
    MazeIsWellFormed(s);
    if steps == [] {
      SameMazeHere(s.b);
    } else {
      var t := Next(s, steps[0]);
      StepKeepsMaze(s, steps[0]);
      MazeAlways(t, steps[1..]);
      SameMazeTransitive(s.b, t.b, Execute(s, steps).b);
    }
  }

  lemma SameMazeHere(b: State)
    ensures SameMaze(b, b)
  {
  }

  /** Walls and portals stay where they are, and no agent comes to stand on a wall. */
  lemma ThreadsKeepMaze(s: Sys, steps: seq<Step>)
    requires Initial(s) && Grounded(s.b) && CanRun(s, steps)
    ensures SameMaze(s.b, Execute(s, steps).b) && Grounded(Execute(s, steps).b)
  {
    InitialMazeInv(s);
    MazeAlways(s, steps);
  }

  // ----- where the ghosts get to

  lemma AlongInside(width: int, height: int, p: Plan, i: int)
    requires PlanIn(width, height, p) && 0 <= i <= p.reach
    ensures Inside(width, height, Along(p.start, p.d, i))
  {
  }

  /** An open plan is a walk. */
  lemma {:induction false} PathJoins(b: State, p: Plan, j: nat)
    requires WellFormed(b) && PlanIn(b.width, b.height, p) && j <= p.reach && OpenAhead(b, p, j)
    ensures Joined(b, p.start, Along(p.start, p.d, j), j)
  {
    if j == 0 {
      JoinedHere(b, p.start, 0);
    } else {
      PathJoins(b, p, j - 1);
      AlongInside(b.width, b.height, p, j);
      assert b.cells[AheadIndex(b.width, b.height, p, j)].content != 'W';
      var before, here := Along(p.start, p.d, j - 1), Along(p.start, p.d, j);
      JoinedNext(b, before, here);
      SameMazeHere(b);
      JoinedTransitive(b, b, p.start, before, here, j - 1, 1);
    }
  }

  lemma StepJoins(s: Sys, a: Step, g: nat) returns (n: nat)
    requires MazeInv(s) && Enabled(s, a) && g < |s.pc|
    ensures Joined(s.b, GhostPos(s.b, g), GhostPos(Next(s, a).b, g), n)
    ensures Steady(s, g) ==> n <= Distance(GhostPos(s.b, g), GhostPos(Next(s, a).b, g))
  {
    hide Joined;
    assert OnPath(s, g);
    if a.GhostDoes? && a.g == g && s.pc[g].SetPos? {
      n := s.pc[g].j;
      PathJoins(s.b, s.pc[g].p, n);
    } else {
      n := 0;
      match a {
        case GhostDoes(h, rnd) =>
          if h == g {
            OwnStepStands(s, g, rnd);
          } else {
            OtherRecord(s, h, rnd, g);
          }
        case MainDoes(m) =>
          MainKeepsGhosts(s, m);
      }
      JoinedHere(s.b, GhostPos(s.b, g), 0);
    }
  }

  lemma {:induction false} GhostWalks(s: Sys, steps: seq<Step>, g: nat) returns (n: nat)
    requires MazeInv(s) && CanRun(s, steps) && g < |s.pc|
    ensures Joined(s.b, GhostPos(s.b, g), GhostPos(Execute(s, steps).b, g), n)
    ensures Steady(s, g) ==> n <= ActiveTurns(s, steps, g) + One(Pending(s.pc[g]))
    decreases |steps|
  {
    hide Next, Enabled, Begins, Steady, Pending, MazeInv, SameMaze, Joined;
    MazeIsWellFormed(s);
    if steps == [] {
      n := 0;
      JoinedHere(s.b, GhostPos(s.b, g), 0);
    } else {
      var t := Next(s, steps[0]);
      StepKeepsMaze(s, steps[0]);
      MazeIsWellFormed(t);
      var first := StepJoins(s, steps[0], g);
      var rest := GhostWalks(t, steps[1..], g);
      JoinedTransitive(s.b, t.b, GhostPos(s.b, g), GhostPos(t.b, g), GhostPos(Execute(s, steps).b, g), first, rest);
      n := first + rest;
      if Steady(s, g) {
        StepCovers(s, steps[0], g);
      }
    }
  }

  lemma MazeIsWellFormed(s: Sys)
    requires MazeInv(s)
    ensures Shaped(s) && WellFormed(s.b)
  {
  }

  /**
    Every ghost, however it charges, is joined to its start by a four-neighbour walk over open cells;
    one that never charges by a walk with at most one step for each turn in which it is done waiting.
   */
  lemma ThreadGhostStaysJoined(s: Sys, steps: seq<Step>, g: nat)
    requires Initial(s) && Grounded(s.b) && CanRun(s, steps) && g < |s.pc|
    ensures exists n: nat :: Joined(s.b, GhostPos(s.b, g), GhostPos(Execute(s, steps).b, g), n)
    ensures NeverCharges(s.b.ghosts[g]) ==>
              Joined(s.b, GhostPos(s.b, g), GhostPos(Execute(s, steps).b, g), ActiveTurns(s, steps, g))
  {
    InitialMazeInv(s);
    var n := GhostWalks(s, steps, g);
    if NeverCharges(s.b.ghosts[g]) {
      JoinedMore(s.b, GhostPos(s.b, g), GhostPos(Execute(s, steps).b, g), n, ActiveTurns(s, steps, g));
    }
  }

  // ----- the pacman

  /** A request of the client is looked at. */
  predicate Asks(s: Sys, a: Step) {
    a.MainDoes? && s.main.Playing?
  }

  function Requests(s: Sys, steps: seq<Step>): nat
    requires Shaped(s) && CanRun(s, steps)
    decreases |steps|
  {
    if steps == [] then 0
    else (if Asks(s, steps[0]) then 1 else 0) + Requests(Next(s, steps[0]), steps[1..])
  }

  /** The requests that find the pacman alive and done waiting. */
  function ActiveRequests(s: Sys, steps: seq<Step>): nat
    requires Shaped(s) && CanRun(s, steps)
    decreases |steps|
  {
    if steps == [] then 0
    else One(Asks(s, steps[0]) && s.b.pac.alive && s.b.pac.waiting <= 0)
         + ActiveRequests(Next(s, steps[0]), steps[1..])
  }

  /** The request has a move on the board still to make. */
  predicate MainPending(m: MainPc) {
    m.MainLocking? || m.Moving?
  }

  lemma PacmanWaits(s: Sys, a: Step)
    requires Shaped(s) && Enabled(s, a)
    ensures var pac, pac' := s.b.pac, Next(s, a).b.pac;
            && pac'.passo == pac.passo && (pac'.alive ==> pac.alive)
            && pac'.waiting == if !Asks(s, a) || !pac.alive then pac.waiting
                               else if pac.waiting > 0 then pac.waiting - 1 else pac.passo
  {
    match a
    case GhostDoes(g, rnd) =>
    case MainDoes(m) =>
      if s.main.Playing? {
        PacmanTiming(s.b, Command(s.main.d, 1, 0), s.main.rnd);
      }
  }

  lemma {:induction false} ActiveRequestsLimited(s: Sys, steps: seq<Step>)
    requires Shaped(s) && CanRun(s, steps) && 0 <= s.b.pac.waiting <= s.b.pac.passo
    ensures ActiveRequests(s, steps) <= Active(Requests(s, steps), s.b.pac.waiting, s.b.pac.passo)
    decreases |steps|
  {
    hide Next, Enabled, Asks;
    if steps != [] {
      var t := Next(s, steps[0]);
      var n, pac := Requests(t, steps[1..]), s.b.pac;
      PacmanWaits(s, steps[0]);
      ActiveRequestsLimited(t, steps[1..]);
      if pac.alive {
        ActiveStep(Asks(s, steps[0]), n, pac.waiting, t.b.pac.waiting, pac.passo);
      } else if Asks(s, steps[0]) {
        ActiveMonotone(n, pac.waiting, pac.passo);
      }
    }
  }

  lemma PacmanStepJoins(b: State, d: char)
    requires WellFormed(b) && IsDirection(d)
    ensures Joined(b, PacPos(b), PacPos(PacmanStep(b, d).s), 1)
  {
    var p, q := PacPos(b), PacPos(PacmanStep(b, d).s);
    if p == q {
      JoinedHere(b, p, 1);
    } else {
      JoinedNext(b, p, q);
    }
  }

  lemma RestingPlayStays(b: State, d: char, rnd: nat)
    requires WellFormed(b) && ChoosePacman(b, b.pac, d, rnd).Rest?
    ensures PacPos(PacmanTurn(b, Command(d, 1, 0), rnd).s) == PacPos(b)
  {
  }

  lemma MainJoins(s: Sys, m: MainChoice)
    requires Shaped(s) && Enabled(s, MainDoes(m))
    ensures var t := MainNext(s, m);
            if s.main.Moving? then Joined(s.b, PacPos(s.b), PacPos(t.b), 1) else PacPos(t.b) == PacPos(s.b)
    ensures var t := MainNext(s, m);
            One(s.main.Moving?) + One(MainPending(t.main))
            == One(s.main.Playing? && MainPending(t.main)) + One(MainPending(s.main))
    ensures s.main.Playing? && MainPending(MainNext(s, m).main) ==> s.b.pac.alive && s.b.pac.waiting <= 0
  {
    hide PacmanStep, PacmanTurn, Joined;
    if s.main.Moving? {
      PacmanStepJoins(s.b, s.main.p.d);
    } else if s.main.Playing? && ChoosePacman(s.b, s.b.pac, s.main.d, s.main.rnd).Rest? {
      RestingPlayStays(s.b, s.main.d, s.main.rnd);
    }
  }

  lemma PacmanStepWalks(s: Sys, a: Step) returns (n: nat)
    requires Shaped(s) && Enabled(s, a)
    ensures Joined(s.b, PacPos(s.b), PacPos(Next(s, a).b), n)
    ensures n + One(MainPending(Next(s, a).main))
            <= One(Asks(s, a) && s.b.pac.alive && s.b.pac.waiting <= 0) + One(MainPending(s.main))
  {
    hide Joined;
    n := One(a.MainDoes? && s.main.Moving?);
    if a.MainDoes? {
      MainJoins(s, a.m);
    }
    if n == 0 {
      JoinedHere(s.b, PacPos(s.b), 0);
    }
  }

  lemma {:induction false} PacmanWalks(s: Sys, steps: seq<Step>) returns (n: nat)
    requires MazeInv(s) && CanRun(s, steps)
    ensures Joined(s.b, PacPos(s.b), PacPos(Execute(s, steps).b), n)
    ensures n <= ActiveRequests(s, steps) + One(MainPending(s.main))
    decreases |steps|
  {
    hide Next, Enabled, Asks, MainPending, MazeInv, SameMaze, Joined;
    MazeIsWellFormed(s);
    if steps == [] {
      n := 0;
      JoinedHere(s.b, PacPos(s.b), 0);
    } else {
      var t := Next(s, steps[0]);
      StepKeepsMaze(s, steps[0]);
      MazeIsWellFormed(t);
      var first := PacmanStepWalks(s, steps[0]);
      var rest := PacmanWalks(t, steps[1..]);
      JoinedTransitive(s.b, t.b, PacPos(s.b), PacPos(t.b), PacPos(Execute(s, steps).b), first, rest);
      n := first + rest;
    }
  }

  /**
    The pacman is joined to its start by a walk over open cells with no more steps than the client's
    requests and the pacman's `passo` allow.
   */
  lemma ThreadPacmanStaysJoined(s: Sys, steps: seq<Step>)
    requires Initial(s) && Grounded(s.b) && CanRun(s, steps) && 0 <= s.b.pac.waiting <= s.b.pac.passo
    ensures 0 <= Limit(Requests(s, steps), s.b.pac.waiting, s.b.pac.passo)
    ensures Joined(s.b, PacPos(s.b), PacPos(Execute(s, steps).b),
                   Limit(Requests(s, steps), s.b.pac.waiting, s.b.pac.passo))
  {
    InitialMazeInv(s);
    var n := PacmanWalks(s, steps);
    ActiveRequestsLimited(s, steps);
    ActiveExactly(Requests(s, steps), s.b.pac.waiting, s.b.pac.passo);
    JoinedMore(s.b, PacPos(s.b), PacPos(Execute(s, steps).b), n,
               Limit(Requests(s, steps), s.b.pac.waiting, s.b.pac.passo));
  }

  lemma {:induction false} PacmanCoversTurns(s: Sys, steps: seq<Step>)
    requires Shaped(s) && CanRun(s, steps)
    ensures Distance(PacPos(s.b), PacPos(Execute(s, steps).b)) <= ActiveRequests(s, steps) + One(MainPending(s.main))
    decreases |steps|
  {
    hide Next, Enabled, Asks, MainPending, Joined;
    if steps != [] {
      var n := PacmanStepWalks(s, steps[0]);
      JoinedBoundsDistance(s.b, PacPos(s.b), PacPos(Next(s, steps[0]).b), n);
      PacmanCoversTurns(Next(s, steps[0]), steps[1..]);
    }
  }

  /** From any loaded level, and in the middle of a move too, that bounds its distance from its start. */
  lemma ThreadPacmanSpeedLimit(s: Sys, steps: seq<Step>)
    requires Initial(s) && CanRun(s, steps) && 0 <= s.b.pac.waiting <= s.b.pac.passo
    ensures Distance(PacPos(s.b), PacPos(Execute(s, steps).b))
            <= Limit(Requests(s, steps), s.b.pac.waiting, s.b.pac.passo)
  {
    PacmanCoversTurns(s, steps);
    ActiveRequestsLimited(s, steps);
    ActiveExactly(Requests(s, steps), s.b.pac.waiting, s.b.pac.passo);
  }
}
