/**
  What the threads can do: whatever the client asks for is done, and whatever the atomic game can do
  the threads can. A request is carried out by the main thread alone, a ghost's turn by its own
  thread; both leave everything unlocked. So each run of the atomic game that does not end the level
  is an execution, from a level at rest to a level at rest.
 */
module ThreadPlay {
  import opened Maze
  import opened Threads
  import opened ThreadLocks
  import opened ThreadProgress
  import opened Landing
  import opened ThreadView
  import opened ThreadEffect

  /** No move in flight, and the main thread ready for the next request. */
  ghost predicate AtRest(s: Sys) {
    && LockInv(s) && s.main == Idle && (forall g :: 0 <= g < |s.pc| ==> s.pc[g] == Sleeping)
  }

  /** A level at rest has nothing locked, and nobody told to stop. */
  lemma RestingIsUnlocked(s: Sys)
    requires AtRest(s)
    ensures s.owner == map[] && s.readers == {} && !s.writer && !s.shutdown
  {
    forall c ensures c !in s.owner {
      if c in s.owner {
        match s.owner[c]
        case MainThread => assert OwnedBy(s, c, MainThread);
        case GhostThread(g) => assert OwnedBy(s, c, GhostThread(g));
      }
    }
    assert forall g: nat :: g !in s.readers;
  }

  lemma InitialIsAtRest(s: Sys)
    requires Initial(s)
    ensures AtRest(s)
  {
    InitialLockInv(s);
  }

  // ----- a request

  predicate ByMain(steps: seq<Step>) {
    forall i :: 0 <= i < |steps| ==> steps[i].MainDoes?
  }

  /** Steps of the main thread alone lead from s to t. */
  ghost predicate MainReaches(s: Sys, t: Sys)
    requires Shaped(s)
  {
    exists steps :: CanRun(s, steps) && Execute(s, steps) == t && ByMain(steps)
  }

  lemma MainSteps(s: Sys, t: Sys, m: MainChoice) returns (u: Sys)
    requires Shaped(s) && Shaped(t) && MainReaches(s, t) && Enabled(t, MainDoes(m))
    ensures Shaped(u) && MainReaches(s, u) && u == MainNext(t, m)
  {
    hide MainNext, Enabled;
    u := MainNext(t, m);
    var steps :| CanRun(s, steps) && Execute(s, steps) == t && ByMain(steps);
    Extend(s, steps, MainDoes(m));
    assert Execute(s, steps + [MainDoes(m)]) == u;
  }

  /** The client's command as the server hands it to the engine. */
  function Asked(d: char, rnd: nat): Action {
    PacCall(Command(d, 1, 0), rnd)
  }

  /** What the main thread is to do after a request with this outcome. */
  predicate GoesWhere(m: MainPc, out: Outcome) {
    match out
    case ReachedPortal => m.Stopping? && m.kept.Portal?
    case DeadPacman => m == Stopping(Nothing)
    case _ => m == Idle
  }

  /** A request done: its call and nothing else, and everything as free as before. */
  ghost predicate Answered(s: Sys, t: Sys, d: char, rnd: nat)
    requires Shaped(s)
  {
    var r := Do(s.b, Asked(d, rnd));
    && Shaped(t) && t.b == r.s && t.pc == s.pc && GoesWhere(t.main, r.out)
    && !t.writer && !t.shutdown && t.readers == s.readers
    && (r.out != ReachedPortal ==> t.owner == s.owner)
  }

  lemma RestingRequest(s: Sys, d: char, rnd: nat) returns (t: Sys)
    requires AtRest(s) && ChoosePacman(s.b, s.b.pac, d, rnd).Rest?
    ensures MainReaches(s, t) && Answered(s, t, d, rnd)
  {
    RestingIsUnlocked(s);
    RestingOutcome(s.b, d, rnd);
    hide ChoosePacman, PacmanTurn;
    assert CanRun(s, []) && Execute(s, []) == s;
    t := MainSteps(s, s, MainChoice.Play(d, rnd));
    t := MainSteps(s, t, EndLevel);
    t := MainSteps(s, t, EndLevel);
  }

  lemma RestingOutcome(b: State, d: char, rnd: nat)
    requires WellFormed(b) && ChoosePacman(b, b.pac, d, rnd).Rest?
    ensures var r := PacmanTurn(b, Command(d, 1, 0), rnd);
            r.out != ReachedPortal && (r.out == DeadPacman <==> !r.s.pac.alive)
  {
  }

  lemma MovingOutcome(b: State, d: char, rnd: nat)
    requires WellFormed(b) && ChoosePacman(b, b.pac, d, rnd).Move?
    ensures var r := PacmanStep(b.(pac := TimedPacman(b.pac)), Resolve(d, rnd));
            && Do(b, Asked(d, rnd)) == r
            && (r.out == DeadPacman <==> !r.s.pac.alive)
  {
  }

  /** The main thread takes both mutexes. */
  lemma PacmanLocksBoth(s: Sys, r: Sys, p: Plan) returns (t: Sys)
    requires Shaped(s) && Shaped(r) && MainReaches(s, r) && r.main == MainLocking(p, 0) && r.owner == map[]
    ensures Shaped(t) && MainReaches(s, t)
    ensures LockOf(r, p, 0) != LockOf(r, p, 1)
    ensures t == r.(owner := map[LockOf(r, p, 0) := MainThread, LockOf(r, p, 1) := MainThread], main := Moving(p))
  {
    LocksAscend(r.b.width, r.b.height, p, 0, 1);
    t := MainSteps(s, r, EndLevel);
    t := MainSteps(s, t, EndLevel);
  }

  lemma PacmanUnlocksBoth(s: Sys, r: Sys, p: Plan) returns (t: Sys)
    requires Shaped(s) && Shaped(r) && MainReaches(s, r) && r.main == MainUnlocking(p, 0)
    requires r.owner == map[LockOf(r, p, 0) := MainThread, LockOf(r, p, 1) := MainThread]
    ensures Shaped(t) && MainReaches(s, t) && t == r.(owner := map[], main := Releasing(Nothing))
  {
    t := MainSteps(s, r, EndLevel);
    t := MainSteps(s, t, EndLevel);
    assert t.owner == map[];
  }

  /** The first steps: the write lock, the pacman's own timing, both mutexes. */
  lemma RequestBegins(s: Sys, d: char, rnd: nat) returns (t: Sys)
    requires AtRest(s) && ChoosePacman(s.b, s.b.pac, d, rnd).Move?
    ensures var p := ChoosePacman(s.b, s.b.pac, d, rnd).p;
            && Shaped(t) && MainReaches(s, t) && t.main == Moving(p) && p.d == Resolve(d, rnd) && p.reach == 1
            && t.b == s.b.(pac := TimedPacman(s.b.pac)) && t.pc == s.pc && t.readers == {} && !t.shutdown
            && t.owner == map[LockOf(t, p, 0) := MainThread, LockOf(t, p, 1) := MainThread]
  {
    RestingIsUnlocked(s);
    hide ChoosePacman, LockIndex;
    var p := ChoosePacman(s.b, s.b.pac, d, rnd).p;
    assert CanRun(s, []) && Execute(s, []) == s;
    t := MainSteps(s, s, MainChoice.Play(d, rnd));
    t := MainSteps(s, t, EndLevel);
    t := PacmanLocksBoth(s, t, p);
  }

  /** The last ones: the move, the mutexes, the write lock. */
  lemma RequestEnds(s: Sys, r: Sys, p: Plan) returns (t: Sys)
    requires Shaped(s) && Shaped(r) && MainReaches(s, r) && r.main == Moving(p)
    requires r.owner == map[LockOf(r, p, 0) := MainThread, LockOf(r, p, 1) := MainThread]
    requires PacmanStep(r.b, p.d).out == DeadPacman <==> !PacmanStep(r.b, p.d).s.pac.alive
    ensures Shaped(t) && MainReaches(s, t) && t.b == PacmanStep(r.b, p.d).s && t.pc == r.pc && t.readers == r.readers
    ensures !t.writer && t.shutdown == r.shutdown && GoesWhere(t.main, PacmanStep(r.b, p.d).out)
    ensures PacmanStep(r.b, p.d).out != ReachedPortal ==> t.owner == map[]
  {
    hide PacmanStep, LockIndex;
    t := MainSteps(s, r, EndLevel);
    if PacmanStep(r.b, p.d).out != ReachedPortal {
      t := PacmanUnlocksBoth(s, t, p);
    }
    t := MainSteps(s, t, EndLevel);
  }

  lemma MovingRequest(s: Sys, d: char, rnd: nat) returns (t: Sys)
    requires AtRest(s) && ChoosePacman(s.b, s.b.pac, d, rnd).Move?
    ensures MainReaches(s, t) && Answered(s, t, d, rnd)
  {
    RestingIsUnlocked(s);
    MovingOutcome(s.b, d, rnd);
    hide ChoosePacman, PacmanStep, Do;
    t := RequestBegins(s, d, rnd);
    t := RequestEnds(s, t, t.main.p);
  }

  /**
    Every request of the client is carried out: by steps of the main thread alone, exactly the call
    that was asked for is made, and then the main thread waits for the next request with everything
    unlocked; or, after a portal or a death, it goes to stop the ghosts.
   */
  lemma PlayIsAnswered(s: Sys, d: char, rnd: nat) returns (t: Sys)
    requires AtRest(s)
    ensures MainReaches(s, t) && Answered(s, t, d, rnd)
    ensures Do(s.b, Asked(d, rnd)).out !in {ReachedPortal, DeadPacman} ==> AtRest(t)
  {
    if ChoosePacman(s.b, s.b.pac, d, rnd).Rest? {
      t := RestingRequest(s, d, rnd);
    } else {
      t := MovingRequest(s, d, rnd);
    }
    ReachedKeepsLocks(s, t);
  }

  lemma ReachedKeepsLocks(s: Sys, t: Sys)
    requires LockInv(s) && MainReaches(s, t)
    ensures LockInv(t)
  {
    var steps :| CanRun(s, steps) && Execute(s, steps) == t && ByMain(steps);
    LockInvAlways(s, steps);
  }

  // ----- a ghost's turn

  /** What is left to write of a move that ends j cells ahead. */
  function Written(s: Sys, b: State, g: nat, p: Plan, j: nat): State
    requires Shaped(s) && |b.cells| == |s.b.cells| && g < |b.ghosts|
    requires PlanIn(s.b.width, s.b.height, p) && j <= p.reach
  {
    var to := Along(p.start, p.d, j);
    var cleared := SetContent(b, CellOf(s, p, 0), ' ');
    SetContent(SetGhost(cleared, g, b.ghosts[g].(x := to.x, y := to.y)), CellOf(s, p, j), 'M')
  }

  /** The level before the ghost's turn touched its own timing. */
  function Before(s: Sys, g: nat): State
    requires Shaped(s) && g < |s.pc|
  {
    SetGhost(s.b, g, s.calls[g].was)
  }

  /** What the ghost's program counter knows, when it is alone on the board. */
  ghost predicate TurnFacts(s: Sys, g: nat)
    requires Shaped(s) && g < |s.pc|
  {
    var pc := s.pc[g];
    && (Undecided(pc) ==> Called(s, g) && WellFormed(Before(s, g)))
    && (pc.Look? ==> FreeSoFar(s, pc.p, pc.j))
    && (pc.Kill1? || pc.Kill2? ==> Pos(s.b.pac.x, s.b.pac.y) == Along(pc.p.start, pc.p.d, pc.j))
  }

  /** The board that the turn will leave, from wherever it is. */
  function Leaves(s: Sys, g: nat, rnd: nat): State
    requires Shaped(s) && g < |s.pc| && (Undecided(s.pc[g]) ==> WellFormed(Before(s, g)))
  {
    match s.pc[g]
    case Entered => Do(s.b, GhostCall(g, rnd)).s
    case Locking(p, k) => Do(Before(s, g), GhostCall(g, s.calls[g].rnd)).s
    case Look(p, j) => Do(Before(s, g), GhostCall(g, s.calls[g].rnd)).s
    case Kill1(p, j) => Written(s, s.b.(pac := s.b.pac.(alive := false)), g, p, j)
    case Kill2(p, j) => Written(s, s.b, g, p, j)
    case Clear(p, j) => Written(s, s.b, g, p, j)
    case SetPos(p, j) =>
      var to := Along(p.start, p.d, j);
      SetContent(SetGhost(s.b, g, s.b.ghosts[g].(x := to.x, y := to.y)), CellOf(s, p, j), 'M')
    case Mark(p, j) => SetContent(s.b, CellOf(s, p, j), 'M')
    case Unlocking(p, k, j, pending) => if pending then Written(s, s.b, g, p, j) else s.b
    case _ => s.b
  }

  lemma EnteringOutcome(s: Sys, g: nat, rnd: nat)
    requires Shaped(s) && Enabled(s, GhostDoes(g, rnd)) && s.pc[g].Entered? && !s.shutdown
    ensures var t := GhostNext(s, g, rnd); TurnFacts(t, g) && Leaves(t, g, rnd) == Leaves(s, g, rnd)
  {
    var t, gh := GhostNext(s, g, rnd), s.b.ghosts[g];
    if Choose(s.b, gh, rnd).Rest? {
      CallRests(s.b, g, rnd);
    } else {
      assert t.calls[g] == Call(gh, rnd);
      assert s.b.ghosts[g := Timed(gh, rnd)][g := gh] == s.b.ghosts;
      assert Before(t, g) == s.b;
    }
  }

  /** The ghost's plan, told from the level before its turn. */
  lemma LookingBack(s: Sys, g: nat)
    requires Shaped(s) && g < |s.pc| && s.pc[g].Look? && TurnFacts(s, g)
    ensures var v, call := Before(s, g), s.calls[g];
            && WellFormed(v) && v.ghosts[g] == call.was && v.cells == s.b.cells && v.pac == s.b.pac
            && v.width == s.b.width && v.height == s.b.height
            && Choose(v, call.was, call.rnd) == Threads.Move(s.pc[g].p)
            && v.ghosts[g := s.b.ghosts[g]] == s.b.ghosts && s.b.ghosts[g] == Timed(call.was, call.rnd)
  {
    var v := Before(s, g);
    assert v.ghosts[g := s.b.ghosts[g]] == s.b.ghosts;
  }

  lemma LookingOutcome(s: Sys, g: nat, rnd: nat)
    requires Shaped(s) && Enabled(s, GhostDoes(g, rnd)) && s.pc[g].Look? && TurnFacts(s, g)
    requires !PcAfter(s, g, rnd).Look?
    ensures var t := GhostNext(s, g, rnd); TurnFacts(t, g) && Leaves(t, g, rnd) == Leaves(s, g, rnd)
  {
    var v, draw, p := Before(s, g), s.calls[g].rnd, s.pc[g].p;
    LookingBack(s, g);
    DecisionStep(s, g, rnd);
    if Committed(PcAfter(s, g, rnd)) {
      DecisionCases(s, g, rnd, v);
      CallLands(v, g, draw, p, PcAfter(s, g, rnd).j);
      DecidedOutcome(s, g, rnd);
    } else {
      RefusedAhead(s, g, rnd);
      CallRefused(v, g, draw, p);
    }
  }

  lemma RefusedAhead(s: Sys, g: nat, rnd: nat)
    requires Shaped(s) && Enabled(s, GhostDoes(g, rnd)) && s.pc[g].Look? && TurnFacts(s, g)
    requires !PcAfter(s, g, rnd).Look? && !Committed(PcAfter(s, g, rnd))
    ensures var p, v := s.pc[g].p, Before(s, g);
            !p.charged && Ahead(v, p, 1) in {'W', 'M'} && PcAfter(s, g, rnd) == Unlocking(p, 0, 0, false)
  {
    LookingBack(s, g);
  }

  lemma DecidedOutcome(s: Sys, g: nat, rnd: nat)
    requires Shaped(s) && Enabled(s, GhostDoes(g, rnd)) && s.pc[g].Look? && TurnFacts(s, g)
    requires Committed(PcAfter(s, g, rnd)) && PcAfter(s, g, rnd).p == s.pc[g].p
    requires var v, p, e := Before(s, g), s.pc[g].p, PcAfter(s, g, rnd).j;
             e <= p.reach && (Kills(v, p, e) <==> PcAfter(s, g, rnd).Kill1?)
    ensures var v, p, e := Before(s, g), s.pc[g].p, PcAfter(s, g, rnd).j;
            var t := GhostNext(s, g, rnd);
            TurnFacts(t, g) && Leaves(t, g, rnd) == Landed(v, g, s.calls[g].rnd, p, e)
  {
    LookingBack(s, g);
  }

  lemma KillingOutcome(s: Sys, g: nat, rnd: nat)
    requires Shaped(s) && Enabled(s, GhostDoes(g, rnd)) && TurnFacts(s, g) && (s.pc[g].Kill1? || s.pc[g].Kill2?)
    ensures var t := GhostNext(s, g, rnd); TurnFacts(t, g) && Leaves(t, g, rnd) == Leaves(s, g, rnd)
  {
    if s.pc[g].Kill2? {
      var p, j := s.pc[g].p, s.pc[g].j;
      var t := GhostNext(s, g, rnd);
      assert PacIndex(s.b) == CellOf(s, p, j);
      assert Written(t, t.b, g, p, j).cells == Written(s, s.b, g, p, j).cells;
    }
  }

  lemma UndecidedOutcome(s: Sys, g: nat, rnd: nat)
    requires Shaped(s) && Enabled(s, GhostDoes(g, rnd)) && TurnFacts(s, g)
    requires Undecided(s.pc[g]) && (s.pc[g].Look? ==> PcAfter(s, g, rnd).Look?)
    ensures var t := GhostNext(s, g, rnd); TurnFacts(t, g) && Leaves(t, g, rnd) == Leaves(s, g, rnd)
  {
    hide Do, Choose, Timed;
    var t := GhostNext(s, g, rnd);
    assert t.b == s.b && t.calls == s.calls && Undecided(t.pc[g]) && t.pc[g].p == s.pc[g].p;
    if s.pc[g].Look? {
      var p, j := s.pc[g].p, s.pc[g].j;
      assert t.pc[g] == Look(p, j + 1) && s.b.cells[CellOf(s, p, j)].content !in {'W', 'M', 'P'};
      forall m | 1 <= m < j + 1 ensures t.b.cells[CellOf(t, p, m)].content !in {'W', 'M', 'P'} {
        assert CellOf(t, p, m) == CellOf(s, p, m);
      }
    }
  }

  lemma WritingOutcome(s: Sys, g: nat, rnd: nat)
    requires Shaped(s) && Enabled(s, GhostDoes(g, rnd))
    requires s.pc[g].Clear? || s.pc[g].SetPos? || s.pc[g].Mark? || s.pc[g].Unlocking? || s.pc[g].Leaving?
    ensures var t := GhostNext(s, g, rnd); TurnFacts(t, g) && Leaves(t, g, rnd) == Leaves(s, g, rnd)
  {
  }

  lemma LaterOutcome(s: Sys, g: nat, rnd: nat)
    requires Shaped(s) && Enabled(s, GhostDoes(g, rnd)) && TurnFacts(s, g)
    requires !s.pc[g].Sleeping? && !s.pc[g].Entered? && (s.pc[g].Look? ==> PcAfter(s, g, rnd).Look?)
    ensures var t := GhostNext(s, g, rnd); TurnFacts(t, g) && Leaves(t, g, rnd) == Leaves(s, g, rnd)
  {
    if s.pc[g].Kill1? || s.pc[g].Kill2? {
      KillingOutcome(s, g, rnd);
    } else if Undecided(s.pc[g]) {
      UndecidedOutcome(s, g, rnd);
    } else {
      WritingOutcome(s, g, rnd);
    }
  }

  lemma TurnKeepsOutcome(s: Sys, g: nat, rnd: nat)
    requires Shaped(s) && Enabled(s, GhostDoes(g, rnd)) && !s.shutdown && InFlight(s.pc[g]) && TurnFacts(s, g)
    ensures var t := GhostNext(s, g, rnd); TurnFacts(t, g) && Leaves(t, g, rnd) == Leaves(s, g, rnd)
  {
    if s.pc[g].Entered? {
      EnteringOutcome(s, g, rnd);
    } else if s.pc[g].Look? && !PcAfter(s, g, rnd).Look? {
      LookingOutcome(s, g, rnd);
    } else {
      LaterOutcome(s, g, rnd);
    }
  }

  /** Only ghost g is in its turn. */
  ghost predicate Alone(s: Sys, g: nat) {
    && LockInv(s) && s.main == Idle && g < |s.pc| && TurnFacts(s, g)
    && forall h :: 0 <= h < |s.pc| && h != g ==> s.pc[h] == Sleeping
  }

  lemma AloneStep(s: Sys, g: nat, rnd: nat, a: Step)
    requires Alone(s, g) && Enabled(s, a) && ByInFlight(s, a) && Draws(a, h => rnd)
    ensures a == GhostDoes(g, rnd) && Alone(Next(s, a), g)
    ensures Leaves(Next(s, a), g, rnd) == Leaves(s, g, rnd)
  {
    StepKeepsLockInv(s, a);
    TurnKeepsOutcome(s, g, rnd);
  }

  lemma AloneIsShaped(s: Sys, g: nat)
    requires Alone(s, g)
    ensures Shaped(s) && g < |s.pc| && (Undecided(s.pc[g]) ==> WellFormed(Before(s, g)))
  {
  }

  /** However far the turn has got when it is alone, it ends with the board it was going to leave. */
  lemma {:induction false} AloneRun(s: Sys, g: nat, rnd: nat, steps: seq<Step>)
    requires Alone(s, g) && FlightRun(s, steps) && AllDraw(steps, h => rnd)
    ensures CanRun(s, steps) && Alone(Execute(s, steps), g)
    ensures Leaves(Execute(s, steps), g, rnd) == Leaves(s, g, rnd)
    ensures forall i :: 0 <= i < |steps| ==> steps[i] == GhostDoes(g, rnd)
    decreases |steps|
  {
    hide Enabled, Next, ByInFlight, Alone, Leaves;
    AloneIsShaped(s, g);
    FlightRunCanRun(s, steps);
    if steps != [] {
      AloneStep(s, g, rnd, steps[0]);
      AloneRun(Next(s, steps[0]), g, rnd, steps[1..]);
      assert forall i :: 0 < i < |steps| ==> steps[i] == steps[1..][i - 1];
    }
  }

  /** Steps of ghost g alone, drawing rnd, lead from s to t. */
  ghost predicate GhostReaches(s: Sys, t: Sys, g: nat, rnd: nat)
    requires Shaped(s)
  {
    exists steps :: CanRun(s, steps) && Execute(s, steps) == t && ByGhost(steps, g, rnd)
  }

  predicate ByGhost(steps: seq<Step>, g: nat, rnd: nat) {
    forall i :: 0 <= i < |steps| ==> steps[i] == GhostDoes(g, rnd)
  }

  lemma GhostEnters(s: Sys, g: nat, rnd: nat)
    requires AtRest(s) && g < |s.pc|
    ensures Enabled(s, GhostDoes(g, rnd)) && Alone(GhostNext(s, g, rnd), g)
    ensures Leaves(GhostNext(s, g, rnd), g, rnd) == Do(s.b, GhostCall(g, rnd)).s
  {
    RestingIsUnlocked(s);
    StepKeepsLockInv(s, GhostDoes(g, rnd));
  }

  /**
    A ghost whose turn comes takes it: by steps of its own thread alone, exactly its call is made,
    and then everything is unlocked again.
   */
  lemma TurnIsTaken(s: Sys, g: nat, rnd: nat) returns (t: Sys)
    requires AtRest(s) && g < |s.pc|
    ensures GhostReaches(s, t, g, rnd) && AtRest(t) && t.b == Do(s.b, GhostCall(g, rnd)).s
  {
    hide Enabled, GhostNext, Leaves, Alone, Do;
    GhostEnters(s, g, rnd);
    var u := GhostNext(s, g, rnd);
    var steps := AloneDrains(u, g, rnd);
    AloneRun(u, g, rnd, steps);
    t := Execute(u, steps);
    AloneAtRest(t, g, rnd);
    var all := [GhostDoes(g, rnd)] + steps;
    assert all[1..] == steps && Next(s, all[0]) == u;
    assert CanRun(s, all) && Execute(s, all) == t && ByGhost(all, g, rnd);
  }

  lemma AloneDrains(s: Sys, g: nat, rnd: nat) returns (steps: seq<Step>)
    requires Alone(s, g)
    ensures FlightRun(s, steps) && AllDraw(steps, h => rnd) && CanRun(s, steps) && Quiet(Execute(s, steps))
  {
    UnhinderedNeedsNothing(s);
    steps := Drains(s, h => rnd);
  }

  lemma AloneAtRest(s: Sys, g: nat, rnd: nat)
    requires Alone(s, g) && Quiet(s)
    ensures AtRest(s) && s.b == Leaves(s, g, rnd)
  {
  }

  // ----- whole runs

  /** Calls that the threads make: the client's commands, as the server hands them on. */
  predicate Askable(acts: seq<Action>) {
    forall i :: 0 <= i < |acts| && acts[i].PacCall? ==> acts[i].cmd == Command(acts[i].cmd.command, 1, 0)
  }

  ghost predicate Reaches(s: Sys, t: Sys)
    requires Shaped(s)
  {
    exists steps :: CanRun(s, steps) && Execute(s, steps) == t
  }

  lemma ReachesOn(s: Sys, t: Sys, u: Sys)
    requires Shaped(s) && Shaped(t) && Reaches(s, t) && Reaches(t, u)
    ensures Reaches(s, u)
  {
    var a :| CanRun(s, a) && Execute(s, a) == t;
    var b :| CanRun(t, b) && Execute(t, b) == u;
    ExecuteJoins(s, a, b);
  }

  lemma CallIsMade(s: Sys, a: Action) returns (t: Sys)
    requires AtRest(s) && Legal(s.b, a) && Askable([a])
    requires a.PacCall? ==> Do(s.b, a).out !in {ReachedPortal, DeadPacman}
    ensures AtRest(t) && Reaches(s, t) && t.b == Do(s.b, a).s
  {
    match a
    case PacCall(cmd, rnd) =>
      assert [a][0] == a && a == Asked(cmd.command, rnd);
      t := PlayIsAnswered(s, cmd.command, rnd);
    case GhostCall(g, rnd) =>
      t := TurnIsTaken(s, g, rnd);
  }

  /**
    Whatever the atomic game can do, the threads can: for every run of requests and ghosts' turns in
    which no request ends the level, there is an execution that leaves exactly the run's board, with
    nothing in flight and nothing locked.
   */
  lemma {:induction false} EveryRunIsExecuted(s: Sys, acts: seq<Action>) returns (t: Sys)
    requires AtRest(s) && LegalRun(s.b, acts) && Askable(acts) && GoesOn(s.b, acts)
    ensures AtRest(t) && Reaches(s, t) && t.b == Run(s.b, acts)
    decreases |acts|
  {
    hide AtRest, Do, Run, GoesOn, Reaches;
    RestIsShaped(s);
    if acts == [] {
      t := s;
      NothingToDo(s);
    } else {
      var n := |acts| - 1;
      assert acts[..n] + [acts[n]] == acts;
      RunLast(s.b, acts[..n], acts[n]);
      GoesOnLast(s.b, acts[..n], acts[n]);
      var u := EveryRunIsExecuted(s, acts[..n]);
      RestIsShaped(u);
      t := CallIsMade(u, acts[n]);
      ReachesOn(s, u, t);
    }
  }

  /** From a loaded level in particular. */
  lemma RunsFromTheStart(s: Sys, acts: seq<Action>) returns (t: Sys)
    requires Initial(s) && LegalRun(s.b, acts) && Askable(acts) && GoesOn(s.b, acts)
    ensures AtRest(t) && Reaches(s, t) && t.b == Run(s.b, acts)
  {
    InitialIsAtRest(s);
    t := EveryRunIsExecuted(s, acts);
  }

  lemma RestIsShaped(s: Sys)
    requires AtRest(s)
    ensures Shaped(s)
  {
  }

  lemma NothingToDo(s: Sys)
    requires AtRest(s)
    ensures Reaches(s, s) && Run(s.b, []) == s.b
  {
    assert CanRun(s, []) && Execute(s, []) == s;
  }
}
