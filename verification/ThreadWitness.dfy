/**
  Two executions that mark where the guarantees end: the portal exit of `move_pacman`, which
  returns with two cell mutexes locked, can leave the whole level deadlocked; and two charges, which
  write the board after releasing their mutexes, can leave two ghosts on one cell. Both start from
  a level as it is loaded from its lines, and every move is the one the ghost's script says.
 */
module ThreadWitness {
  import opened Maze
  import opened Agreement
  import opened Threads
  import opened ThreadLocks
  import opened ThreadProgress
  import opened Loader
  import opened WitnessLevels

  ghost predicate Reaches(s: Sys, t: Sys)
    requires Threads.Shaped(s)
  {
    exists steps :: CanRun(s, steps) && Execute(s, steps) == t
  }

  lemma ReachStep(s: Sys, t: Sys, a: Step)
    requires Shaped(s) && Shaped(t) && Reaches(s, t) && Enabled(t, a)
    ensures Reaches(s, Next(t, a))
  {
    hide Next, Enabled;
    var steps :| CanRun(s, steps) && Execute(s, steps) == t;
    Extend(s, steps, a);
  }

  lemma ReachSelf(s: Sys)
    requires Shaped(s)
    ensures Reaches(s, s)
  {
    assert CanRun(s, []) && Execute(s, []) == s;
  }

  /** Only ghost g's thread has moved. */
  ghost predicate OnlyGhost(t: Sys, u: Sys, g: nat) {
    && u.main == t.main && u.writer == t.writer && u.shutdown == t.shutdown
    && |u.pc| == |t.pc| && |u.b.ghosts| == |t.b.ghosts| && u.b.width == t.b.width && u.b.height == t.b.height
    && (forall i :: 0 <= i < |t.pc| && i != g ==> u.pc[i] == t.pc[i])
    && (forall i :: 0 <= i < |t.b.ghosts| && i != g ==> u.b.ghosts[i] == t.b.ghosts[i])
  }

  lemma GhostOnce(s: Sys, t: Sys, g: nat) returns (u: Sys)
    requires Shaped(s) && Shaped(t) && Reaches(s, t) && Enabled(t, GhostDoes(g, 0))
    ensures Shaped(u) && Reaches(s, u) && OnlyGhost(t, u, g)
    ensures u.b == BoardAfter(t, g, 0) && u.owner == OwnerAfter(t, g) && u.readers == ReadersAfter(t, g)
    ensures u.pc[g] == PcAfter(t, g, 0)
  {
    u := GhostNext(t, g, 0);
    ReachStep(s, t, GhostDoes(g, 0));
    forall i | 0 <= i < |t.b.ghosts| && i != g ensures u.b.ghosts[i] == t.b.ghosts[i] {
    }
  }

  lemma MainOnce(s: Sys, t: Sys, m: MainChoice) returns (u: Sys)
    requires Shaped(s) && Shaped(t) && Reaches(s, t) && Enabled(t, MainDoes(m))
    ensures Shaped(u) && Reaches(s, u) && u == MainNext(t, m) && u.pc == t.pc && u.readers == t.readers
  {
    hide MainNext, Enabled;
    MainFrame(t, m);
    u := MainNext(t, m);
    ReachStep(s, t, MainDoes(m));
  }

  /** Cells lo..hi-1 of the top row, all held by one thread. */
  function Own(lo: nat, hi: nat, t: Thread): (owner: map<int, Thread>)
    ensures forall c :: c in owner <==> lo <= c < hi
    ensures forall c :: c in owner ==> owner[c] == t
  {
    if hi <= lo then map[] else Own(lo, hi - 1, t)[hi - 1 := t]
  }

  lemma OwnShrinks(lo: nat, hi: nat, t: Thread)
    requires lo < hi
    ensures Remove(Own(lo, hi, t), lo) == Own(lo + 1, hi, t)
    ensures lo + 1 == hi ==> Own(lo + 1, hi, t) == map[]
  {
  }

  /** A plan along the top row from one end, so that its k-th mutex is that of cell k. */
  predicate RowPlan(b: State, p: Plan) {
    && PlanIn(b.width, b.height, p) && p.start.y == 0
    && ((p.d == 'D' && p.start.x == 0) || (p.d == 'A' && p.start.x == p.reach))
  }

  lemma RowLocks(b: State, p: Plan, k: nat)
    requires RowPlan(b, p) && k <= p.reach
    ensures LockIndex(b.width, b.height, p, k) == k
    ensures AheadIndex(b.width, b.height, p, k) == if p.d == 'D' then k else p.reach - k
  {
  }

  // ----- the portal exit

  /** What matters of it. */
  predicate InCorridor(b: State) {
    && WellFormed(b) && b.width == 3 && b.height == 1 && b.cells[1].hasPortal
    && b.pac.alive && b.pac.waiting <= 0 && b.pac.x == 0 && b.pac.y == 0
    && |b.ghosts| == 1 && WaitsToTurn(b.ghosts[0])
  }

  /** A ghost at the right end whose next move is one step to the left. */
  predicate WaitsToTurn(gh: Ghost) {
    && gh.x == 2 && gh.y == 0 && gh.waiting <= 0 && !gh.charged && gh.currentMove == 0
    && |gh.moves| == 1 && gh.moves[0].command == 'A'
  }

  lemma CorridorAgrees()
    ensures Agree(Corridor()) && InCorridor(Corridor())
  {
    var b := Corridor();
    assert GhostIndex(b, 0) == 2;
    assert OwnedByGhost(b, 2);
  }

  lemma TakesThePortal(b: State)
    requires InCorridor(b)
    ensures ChoosePacman(b, b.pac, 'D', 0) == Threads.Move(Plan(Pos(0, 0), 'D', 1, false))
    ensures var r := PacmanStep(b.(pac := TimedPacman(b.pac)), 'D');
            r.out == ReachedPortal && r.s.ghosts == b.ghosts && r.s.width == 3 && r.s.height == 1
  {
  }

  lemma PacmanPlays(s: Sys) returns (t: Sys)
    requires Initial(s) && InCorridor(s.b)
    ensures Shaped(t) && Reaches(s, t) && t.pc == s.pc && t.readers == {} && t.owner == map[] && !t.shutdown
    ensures t.b == s.b.(pac := TimedPacman(s.b.pac)) && t.main == MainLocking(Plan(Pos(0, 0), 'D', 1, false), 0)
  {
    hide PacmanStep, PacmanTurn, ChoosePacman;
    ReachSelf(s);
    TakesThePortal(s.b);
    t := MainOnce(s, s, Play('D', 0));
    t := MainOnce(s, t, EndLevel);
  }

  /** The pacman takes the mutex of its cell, then that of the portal. */
  lemma PacmanLocks(s: Sys, r: Sys, k: nat) returns (t: Sys)
    requires Shaped(s) && Shaped(r) && Reaches(s, r) && r.b.width == 3 && r.b.height == 1 && k <= 1
    requires r.main == MainLocking(Plan(Pos(0, 0), 'D', 1, false), k) && k !in r.owner
    ensures Shaped(t) && Reaches(s, t)
    ensures t == r.(owner := r.owner[k := MainThread],
                    main := if k == 0 then MainLocking(r.main.p, 1) else Moving(r.main.p))
  {
    RowLocks(r.b, r.main.p, k);
    t := MainOnce(s, r, EndLevel);
  }

  /** It moves onto the portal, and leaves both mutexes locked. */
  lemma PacmanLeavesLocks(s: Sys, r: Sys) returns (t: Sys)
    requires Shaped(s) && Shaped(r) && Reaches(s, r)
    requires r.main == Moving(Plan(Pos(0, 0), 'D', 1, false)) && PacmanStep(r.b, 'D').out == ReachedPortal
    ensures Shaped(t) && Reaches(s, t)
    ensures t == r.(b := PacmanStep(r.b, 'D').s, main := Releasing(Portal(r.main.p)))
  {
    t := MainOnce(s, r, EndLevel);
  }

  lemma PacmanHoldsBoth(s: Sys, r: Sys) returns (t: Sys)
    requires Shaped(s) && Shaped(r) && Reaches(s, r) && r.b.width == 3 && r.b.height == 1
    requires r.main == MainLocking(Plan(Pos(0, 0), 'D', 1, false), 0) && r.owner == map[]
    ensures Shaped(t) && Reaches(s, t) && 1 in t.owner
    ensures t == r.(owner := t.owner, main := Moving(r.main.p))
  {
    t := PacmanLocks(s, r, 0);
    t := PacmanLocks(s, t, 1);
  }

  /** A run that ends with the write lock about to be released and the two mutexes kept. */
  lemma PortalExit(s: Sys) returns (t: Sys)
    requires Initial(s) && InCorridor(s.b)
    ensures Shaped(t) && Reaches(s, t) && t.pc == s.pc && 1 in t.owner && !t.shutdown && t.readers == {}
    ensures t.main.Releasing? && t.main.kept.Portal?
    ensures t.b.ghosts == s.b.ghosts && t.b.width == 3 && t.b.height == 1
  {
    hide PacmanStep, MainNext;
    TakesThePortal(s.b);
    t := PacmanPlays(s);
    t := PacmanHoldsBoth(s, t);
    t := PacmanLeavesLocks(s, t);
  }

  lemma GhostEnters(s: Sys, r: Sys) returns (t: Sys)
    requires Shaped(s) && Shaped(r) && Reaches(s, r) && |r.pc| == 1 && r.pc[0] == Sleeping
    requires r.main.Releasing? && r.main.kept.Portal?
    ensures Shaped(t) && Reaches(s, t) && t.b == r.b && t.owner == r.owner && t.shutdown == r.shutdown
    ensures |t.pc| == 1 && t.pc[0] == Entered && t.readers == r.readers + {0}
    ensures t.main == Stopping(r.main.kept)
  {
    var u := MainOnce(s, r, EndLevel);
    t := GhostOnce(s, u, 0);
  }

  lemma TurnsToPortal(t: Sys)
    requires Shaped(t) && t.b.width == 3 && t.b.height == 1 && |t.pc| == 1 && WaitsToTurn(t.b.ghosts[0])
    ensures Decide(t, 0, 0) == Locking(Plan(Pos(2, 0), 'A', 1, false), 0)
    ensures LockOf(t, Plan(Pos(2, 0), 'A', 1, false), 0) == 1
  {
  }

  /** The ghost turns towards the portal: it holds the read lock and waits for a mutex nobody will release. */
  lemma GhostWaits(s: Sys, r: Sys) returns (t: Sys)
    requires Shaped(s) && Shaped(r) && Reaches(s, r) && r.b.width == 3 && r.b.height == 1
    requires |r.pc| == 1 && r.pc[0] == Entered && WaitsToTurn(r.b.ghosts[0]) && !r.shutdown
    ensures Shaped(t) && Reaches(s, t) && t.main == r.main && t.readers == r.readers && t.owner == r.owner
    ensures |t.pc| == 1 && t.pc[0] == Locking(Plan(Pos(2, 0), 'A', 1, false), 0)
    ensures LockOf(t, t.pc[0].p, 0) == 1
  {
    TurnsToPortal(r);
    t := GhostOnce(s, r, 0);
  }

  lemma NobodySteps(t: Sys, a: Step)
    requires Shaped(t) && |t.pc| == 1 && t.pc[0].Locking? && LockOf(t, t.pc[0].p, t.pc[0].k) in t.owner
    requires t.main.Stopping? && 0 in t.readers
    ensures !Enabled(t, a)
  {
  }

  /** A level whose threads are about to start. */
  lemma Started(b: State, n: nat) returns (s: Sys)
    requires WellFormed(b) && |b.ghosts| == n
    ensures Initial(s) && s.b == b && |s.pc| == n
  {
    s := Sys(b, map[], {}, false, false, seq(n, i => Sleeping), Idle,
             seq(n, i requires 0 <= i < n => Call(b.ghosts[i], 0)), Request(b.pac, 'Q', 0));
  }

  /**
    From a level that the loader makes, whatever its buffer held: one pacman move onto the portal and
    one ghost's turn, and no thread can step again.
   */
  lemma PortalExitCanDeadlock(buffer: Buffer) returns (s: Sys, t: Sys, grid: seq<Cell>)
    ensures IsGrid(grid, 3, 1, Rows(buffer, CORRIDOR_LINES)) && !GridHangs(Rows(buffer, CORRIDOR_LINES), 1)
    ensures Initial(s) && IsLoaded(s.b, grid, NoFile, CORRIDOR_GHOSTS) && Agree(s.b) && Shaped(t) && Reaches(s, t)
    ensures !t.main.Unloaded? && forall a :: !Enabled(t, a)
  {
    hide Corridor, CorridorGrid, IsLoaded;
    grid := CorridorGrid();
    CorridorIsLoaded(buffer);
    CorridorAgrees();
    s := Started(Corridor(), 1);
    t := PortalExit(s);
    t := GhostEnters(s, t);
    t := GhostWaits(s, t);
    forall a ensures !Enabled(t, a) {
      NobodySteps(t, a);
    }
  }

  // ----- two charges at once

  lemma TakesOne(s: Sys, t: Sys, g: nat, p: Plan, k: nat) returns (u: Sys)
    requires Shaped(s) && Shaped(t) && Reaches(s, t) && g < |t.pc| && t.pc[g] == Locking(p, k)
    requires RowPlan(t.b, p) && t.owner == Own(0, k, GhostThread(g))
    ensures Shaped(u) && Reaches(s, u) && OnlyGhost(t, u, g) && u.b == t.b && k <= p.reach
    ensures u.owner == Own(0, k + 1, GhostThread(g))
    ensures u.pc[g] == if k < p.reach then Locking(p, k + 1) else Look(p, 1)
  {
    hide OnlyGhost;
    RowLocks(t.b, p, k);
    u := GhostOnce(s, t, g);
  }

  lemma {:induction false} TakesRow(s: Sys, t: Sys, g: nat, p: Plan, k: nat) returns (u: Sys)
    requires Shaped(s) && Shaped(t) && Reaches(s, t) && g < |t.pc| && t.pc[g] == Locking(p, k)
    requires RowPlan(t.b, p) && t.owner == Own(0, k, GhostThread(g))
    ensures Shaped(u) && Reaches(s, u) && OnlyGhost(t, u, g) && u.b == t.b
    ensures u.pc[g] == Look(p, 1) && u.owner == Own(0, p.reach + 1, GhostThread(g))
    decreases p.reach - k
  {
    hide RowPlan, Own, Shaped;
    u := TakesOne(s, t, g, p, k);
    if k < p.reach {
      u := TakesRow(s, u, g, p, k + 1);
    }
  }

  lemma ReleasesOne(s: Sys, t: Sys, g: nat, p: Plan, k: nat, j: nat) returns (u: Sys)
    requires Shaped(s) && Shaped(t) && Reaches(s, t) && g < |t.pc| && t.pc[g] == Unlocking(p, k, j, true)
    requires RowPlan(t.b, p) && t.owner == Own(k, p.reach + 1, GhostThread(g))
    ensures Shaped(u) && Reaches(s, u) && OnlyGhost(t, u, g) && u.b == t.b && k <= p.reach
    ensures u.owner == Own(k + 1, p.reach + 1, GhostThread(g)) && (k == p.reach ==> u.owner == map[])
    ensures u.pc[g] == if k < p.reach then Unlocking(p, k + 1, j, true) else Clear(p, j)
  {
    hide OnlyGhost;
    RowLocks(t.b, p, k);
    u := GhostOnce(s, t, g);
    OwnShrinks(k, p.reach + 1, GhostThread(g));
  }

  lemma {:induction false} ReleasesRow(s: Sys, t: Sys, g: nat, p: Plan, k: nat, j: nat) returns (u: Sys)
    requires Shaped(s) && Shaped(t) && Reaches(s, t) && g < |t.pc| && t.pc[g] == Unlocking(p, k, j, true)
    requires RowPlan(t.b, p) && t.owner == Own(k, p.reach + 1, GhostThread(g))
    ensures Shaped(u) && Reaches(s, u) && OnlyGhost(t, u, g) && u.b == t.b
    ensures u.pc[g] == Clear(p, j) && u.owner == map[]
    decreases p.reach - k
  {
    hide RowPlan, Own, Shaped;
    u := ReleasesOne(s, t, g, p, k, j);
    if k < p.reach {
      u := ReleasesRow(s, u, g, p, k + 1, j);
    }
  }

  /** Ghost g's next call is the charge p along the top row of three: a blank cell ahead of it, a ghost beyond. */
  ghost predicate Charger(b: State, g: nat, p: Plan) {
    && WellFormed(b) && g < |b.ghosts| && RowPlan(b, p) && p.charged && p.reach == 2
    && Choose(b, b.ghosts[g], 0) == Threads.Move(p)
    && b.cells[AheadIndex(b.width, b.height, p, 1)].content == ' '
    && b.cells[AheadIndex(b.width, b.height, p, 2)].content == 'M'
  }

  lemma LooksAhead(s: Sys, t: Sys, g: nat, p: Plan) returns (u: Sys)
    requires Shaped(s) && Shaped(t) && Reaches(s, t) && g < |t.pc| && t.pc[g] == Look(p, 1) && p.charged && p.reach == 2
    requires t.b.cells[AheadIndex(t.b.width, t.b.height, p, 1)].content == ' '
    ensures Shaped(u) && Reaches(s, u) && OnlyGhost(t, u, g) && u.b == t.b
    ensures u.pc[g] == Look(p, 2) && u.owner == t.owner
  {
    u := GhostOnce(s, t, g);
  }

  lemma LooksAtGhost(s: Sys, t: Sys, g: nat, p: Plan) returns (u: Sys)
    requires Shaped(s) && Shaped(t) && Reaches(s, t) && g < |t.pc| && t.pc[g] == Look(p, 2) && p.charged && p.reach == 2
    requires t.b.cells[AheadIndex(t.b.width, t.b.height, p, 2)].content == 'M'
    ensures Shaped(u) && Reaches(s, u) && OnlyGhost(t, u, g) && u.b == t.b
    ensures u.pc[g] == Unlocking(p, 0, 1, true) && u.owner == t.owner
  {
    u := GhostOnce(s, t, g);
  }

  lemma ChargeBegins(s: Sys, t: Sys, g: nat, p: Plan) returns (u: Sys)
    requires Shaped(s) && Shaped(t) && Reaches(s, t) && g < |t.pc| && t.pc[g] == Sleeping && Charger(t.b, g, p)
    requires !t.writer && !t.shutdown
    ensures Shaped(u) && Reaches(s, u) && OnlyGhost(t, u, g) && u.b.cells == t.b.cells
    ensures u.pc[g] == Locking(p, 0) && u.owner == t.owner
  {
    hide Choose;
    u := GhostOnce(s, t, g);
    u := GhostOnce(s, u, g);
  }

  lemma ChargeLocks(s: Sys, t: Sys, g: nat, p: Plan) returns (u: Sys)
    requires Shaped(s) && Shaped(t) && Reaches(s, t) && g < |t.pc| && t.pc[g] == Sleeping && Charger(t.b, g, p)
    requires t.owner == map[] && !t.writer && !t.shutdown
    ensures Shaped(u) && Reaches(s, u) && OnlyGhost(t, u, g) && u.b.cells == t.b.cells
    ensures u.pc[g] == Look(p, 1) && u.owner == Own(0, p.reach + 1, GhostThread(g))
  {
    hide Choose, PlanIn, AheadIndex;
    u := ChargeBegins(s, t, g, p);
    assert RowPlan(u.b, p);
    u := TakesRow(s, u, g, p, 0);
  }

  lemma ChargeReads(s: Sys, t: Sys, g: nat, p: Plan) returns (u: Sys)
    requires Shaped(s) && Shaped(t) && Reaches(s, t) && g < |t.pc| && t.pc[g] == Look(p, 1) && p.charged && p.reach == 2
    requires t.b.cells[AheadIndex(t.b.width, t.b.height, p, 1)].content == ' '
    requires t.b.cells[AheadIndex(t.b.width, t.b.height, p, 2)].content == 'M'
    ensures Shaped(u) && Reaches(s, u) && OnlyGhost(t, u, g) && u.b == t.b
    ensures u.pc[g] == Unlocking(p, 0, 1, true) && u.owner == t.owner
  {
    hide PlanIn, AheadIndex;
    u := LooksAhead(s, t, g, p);
    u := LooksAtGhost(s, u, g, p);
  }

  /** A charging ghost locks the row, sees the other ghost at the far end, and unlocks before writing. */
  lemma ChargeLooks(s: Sys, t: Sys, g: nat, p: Plan) returns (u: Sys)
    requires Shaped(s) && Shaped(t) && Reaches(s, t) && g < |t.pc| && t.pc[g] == Sleeping && Charger(t.b, g, p)
    requires t.owner == map[] && !t.writer && !t.shutdown
    ensures Shaped(u) && Reaches(s, u) && OnlyGhost(t, u, g) && u.b.cells == t.b.cells
    ensures u.pc[g] == Clear(p, 1) && u.owner == map[]
  {
    hide Choose, PlanIn, AheadIndex;
    u := ChargeLocks(s, t, g, p);
    u := ChargeReads(s, u, g, p);
    assert RowPlan(u.b, p);
    u := ReleasesRow(s, u, g, p, 0, 1);
  }

  lemma ChargeClears(s: Sys, t: Sys, g: nat, p: Plan) returns (u: Sys)
    requires Shaped(s) && Shaped(t) && Reaches(s, t) && g < |t.pc| && t.pc[g] == Clear(p, 1) && p.charged
    ensures Shaped(u) && Reaches(s, u) && OnlyGhost(t, u, g) && u.pc[g] == SetPos(p, 1)
  {
    u := GhostOnce(s, t, g);
  }

  lemma ChargeMoves(s: Sys, t: Sys, g: nat, p: Plan) returns (u: Sys)
    requires Shaped(s) && Shaped(t) && Reaches(s, t) && g < |t.pc| && t.pc[g] == SetPos(p, 1) && p.charged
    ensures Shaped(u) && Reaches(s, u) && OnlyGhost(t, u, g) && u.pc[g] == Mark(p, 1)
    ensures GhostAt(u.b, g) == Along(p.start, p.d, 1)
  {
    u := GhostOnce(s, t, g);
  }

  lemma ChargeMarks(s: Sys, t: Sys, g: nat, p: Plan) returns (u: Sys)
    requires Shaped(s) && Shaped(t) && Reaches(s, t) && g < |t.pc| && t.pc[g] == Mark(p, 1) && p.charged
    ensures Shaped(u) && Reaches(s, u) && OnlyGhost(t, u, g) && u.pc[g] == Sleeping
    ensures GhostAt(u.b, g) == GhostAt(t.b, g)
  {
    u := GhostOnce(s, t, g);
    u := GhostOnce(s, u, g);
  }

  /** The unprotected writes of one charge. */
  lemma ChargeWrites(s: Sys, t: Sys, g: nat, p: Plan) returns (u: Sys)
    requires Shaped(s) && Shaped(t) && Reaches(s, t) && g < |t.pc| && t.pc[g] == Clear(p, 1) && p.charged
    ensures Shaped(u) && Reaches(s, u) && OnlyGhost(t, u, g) && u.pc[g] == Sleeping
    ensures GhostAt(u.b, g) == Along(p.start, p.d, 1)
  {
    u := ChargeClears(s, t, g, p);
    u := ChargeMoves(s, u, g, p);
    u := ChargeMarks(s, u, g, p);
  }

  /** A ghost that charges up and then goes in direction d. */
  predicate ChargesUp(gh: Ghost, d: char) {
    && gh.waiting <= 0 && gh.passo == 0 && gh.currentMove == 0 && !gh.charged
    && |gh.moves| == 2 && gh.moves[0].command == 'C' && gh.moves[1].command == d
  }

  predicate ChargedUp(gh: Ghost, d: char) {
    && gh.waiting <= 0 && gh.currentMove == 1 && gh.charged
    && |gh.moves| == 2 && gh.moves[1].command == d
  }

  lemma ChargingUp(gh: Ghost, d: char)
    requires ChargesUp(gh, d)
    ensures ChargedUp(Timed(gh, 0), d) && Timed(gh, 0).x == gh.x && Timed(gh, 0).y == gh.y && !Moves(gh, 0)
  {
  }

  /** The turn with the 'C'. */
  lemma TakesC(s: Sys, t: Sys, g: nat, d: char) returns (u: Sys)
    requires Shaped(s) && Shaped(t) && Reaches(s, t) && g < |t.pc| && t.pc[g] == Sleeping && ChargesUp(t.b.ghosts[g], d)
    requires !t.writer && !t.shutdown
    ensures Shaped(u) && Reaches(s, u) && OnlyGhost(t, u, g) && u.b.cells == t.b.cells && u.owner == t.owner
    ensures u.pc[g] == Sleeping && ChargedUp(u.b.ghosts[g], d) && GhostAt(u.b, g) == GhostAt(t.b, g)
  {
    hide Timed;
    ChargingUp(t.b.ghosts[g], d);
    u := GhostOnce(s, t, g);
    u := GhostOnce(s, u, g);
    u := GhostOnce(s, u, g);
  }

  /** Ghosts at the ends of the top row, a blank cell between them. */
  predicate Row(b: State) {
    && WellFormed(b) && |b.ghosts| == 2 && b.width == 3 && b.height == 2
    && b.cells[0].content == 'M' && b.cells[1].content == ' ' && b.cells[2].content == 'M'
    && GhostAt(b, 0) == Pos(0, 0) && GhostAt(b, 1) == Pos(2, 0)
  }

  function Rightwards(): Plan {
    Plan(Pos(0, 0), 'D', 2, true)
  }

  function Leftwards(): Plan {
    Plan(Pos(2, 0), 'A', 2, true)
  }

  lemma ChargesAlong(b: State)
    requires Row(b)
    ensures ChargedUp(b.ghosts[0], 'D') ==> Choose(b, b.ghosts[0], 0) == Threads.Move(Rightwards())
    ensures ChargedUp(b.ghosts[1], 'A') ==> Choose(b, b.ghosts[1], 0) == Threads.Move(Leftwards())
    ensures RowPlan(b, Rightwards()) && RowPlan(b, Leftwards())
  {
  }

  lemma RowCharger(b: State, g: nat, p: Plan)
    requires Row(b) && g < 2 && p.charged && p.reach == 2 && RowPlan(b, p)
    requires Choose(b, b.ghosts[g], 0) == Threads.Move(p)
    ensures Charger(b, g, p)
  {
    hide Choose;
    RowLocks(b, p, 1);
    RowLocks(b, p, 2);
    assert b.cells[if p.d == 'D' then 2 else 0].content == 'M';
  }

  lemma RowChargers(b: State)
    requires Row(b) && ChargedUp(b.ghosts[0], 'D') && ChargedUp(b.ghosts[1], 'A')
    ensures Charger(b, 0, Rightwards()) && Charger(b, 1, Leftwards())
  {
    hide Choose, RowPlan, ChargedUp, PlanIn, Charger;
    ChargesAlong(b);
    RowCharger(b, 0, Rightwards());
    RowCharger(b, 1, Leftwards());
  }

  lemma BothChargeUp(s: Sys) returns (t: Sys)
    requires Initial(s) && |s.pc| == 2 && Row(s.b)
    requires ChargesUp(s.b.ghosts[0], 'D') && ChargesUp(s.b.ghosts[1], 'A')
    ensures Shaped(t) && Reaches(s, t) && t.main == Idle && !t.writer && !t.shutdown && t.owner == map[]
    ensures |t.pc| == 2 && t.pc[0] == Sleeping && t.pc[1] == Sleeping && Row(t.b)
    ensures ChargedUp(t.b.ghosts[0], 'D') && ChargedUp(t.b.ghosts[1], 'A')
  {
    hide ChargesUp, ChargedUp;
    ReachSelf(s);
    t := TakesC(s, s, 0, 'D');
    t := TakesC(s, t, 1, 'A');
  }

  lemma BothLook(s: Sys, r: Sys) returns (t: Sys)
    requires Shaped(s) && Shaped(r) && Reaches(s, r) && r.main == Idle && !r.writer && !r.shutdown && r.owner == map[]
    requires |r.pc| == 2 && r.pc[0] == Sleeping && r.pc[1] == Sleeping
    requires Charger(r.b, 0, Rightwards()) && Charger(r.b, 1, Leftwards())
    ensures Shaped(t) && Reaches(s, t) && t.main == Idle && |t.pc| == 2
    ensures t.pc[0] == Clear(Rightwards(), 1) && t.pc[1] == Clear(Leftwards(), 1)
  {
    t := ChargeLooks(s, r, 0, Rightwards());
    StillCharger(r.b, t.b);
    t := ChargeLooks(s, t, 1, Leftwards());
  }

  lemma StillCharger(b: State, b': State)
    requires Charger(b, 1, Leftwards()) && WellFormed(b') && |b'.ghosts| == |b.ghosts| && b'.ghosts[1] == b.ghosts[1]
    requires b'.cells == b.cells && b'.width == b.width && b'.height == b.height
    ensures Charger(b', 1, Leftwards())
  {
  }

  lemma BothWrite(s: Sys, r: Sys) returns (t: Sys)
    requires Shaped(s) && Shaped(r) && Reaches(s, r) && |r.pc| == 2 && r.main == Idle
    requires r.pc[0] == Clear(Rightwards(), 1) && r.pc[1] == Clear(Leftwards(), 1)
    ensures Shaped(t) && Reaches(s, t) && t.main == Idle && Quiet(t) && |t.pc| == 2
    ensures GhostAt(t.b, 0) == GhostAt(t.b, 1) == Pos(1, 0)
  {
    t := ChargeWrites(s, r, 0, Rightwards());
    t := ChargeWrites(s, t, 1, Leftwards());
  }

  // ----- the collision

  lemma HallIsRow()
    ensures Row(Hall()) && ChargesUp(Hall().ghosts[0], 'D') && ChargesUp(Hall().ghosts[1], 'A')
    ensures Hall().pac.alive && PacIndex(Hall()) == 3 && Hall().cells[3].content == 'P'
    ensures Hall().cells[4].content == ' ' && Hall().cells[5].content == ' '
  {
  }

  lemma RowAgrees(b: State)
    requires Row(b) && b.pac.alive && PacIndex(b) == 3 && b.cells[3].content == 'P'
    requires b.cells[4].content == ' ' && b.cells[5].content == ' '
    ensures Agree(b)
  {
    hide Agree;
    RowMarks(b);
    assert |b.cells| == 6;
    AgreeByLetters(b);
  }

  lemma RowMarks(b: State)
    requires Row(b) && b.cells[3].content == 'P' && b.cells[4].content == ' ' && b.cells[5].content == ' '
    ensures GhostsApart(b)
    ensures forall c :: 0 <= c < |b.cells| ==> (b.cells[c].content == 'M' <==> OwnedByGhost(b, c))
  {
    RowIndices(b);
    forall c | 0 <= c < |b.cells| ensures b.cells[c].content == 'M' <==> OwnedByGhost(b, c) {
      TwoOwners(b, c);
      assert |b.cells| == 6;
    }
  }

  lemma RowIndices(b: State)
    requires Row(b)
    ensures GhostIndex(b, 0) == 0 && GhostIndex(b, 1) == 2
  {
  }

  lemma TwoOwners(b: State, c: int)
    requires WellFormed(b) && |b.ghosts| == 2
    ensures OwnedByGhost(b, c) <==> c == GhostIndex(b, 0) || c == GhostIndex(b, 1)
  {
  }

  lemma SharedCellDisagrees(b: State)
    requires WellFormed(b) && |b.ghosts| >= 2 && GhostAt(b, 0) == GhostAt(b, 1)
    ensures GhostIndex(b, 0) == GhostIndex(b, 1) && !Agree(b)
  {
    assert !GhostsApart(b) by {
      assert GhostIndex(b, 0) == GhostIndex(b, 1);
    }
  }

  /** Two scripted charges break agreement: both ghosts come to rest on one cell, with nothing in flight. */
  lemma ChargesCanCollide(buffer: Buffer) returns (s: Sys, t: Sys, grid: seq<Cell>)
    ensures IsGrid(grid, 3, 2, Rows(buffer, HALL_LINES)) && !GridHangs(Rows(buffer, HALL_LINES), 2)
    ensures Initial(s) && Agree(s.b) && IsLoaded(s.b, grid, HALL_PACMAN, HALL_GHOSTS) && Shaped(t) && Reaches(s, t)
    ensures Quiet(t) && t.main == Idle
    ensures |t.b.ghosts| == 2 && GhostIndex(t.b, 0) == GhostIndex(t.b, 1) && !Agree(t.b)
  {
    hide Hall, HallGrid, ChargesUp, ChargedUp, Charger, IsLoaded;
    grid := HallGrid();
    HallIsLoaded(buffer);
    HallIsRow();
    RowAgrees(Hall());
    s := Started(Hall(), 2);
    var r := BothChargeUp(s);
    RowChargers(r.b);
    r := BothLook(s, r);
    t := BothWrite(s, r);
    SharedCellDisagrees(t.b);
  }
}
