/**
  The server's threads on one level, step by step: one thread per ghost, which moves under a read
  lock on `state_lock` and the mutexes of the cells it touches, and the session's main thread,
  which moves the pacman under the write lock, stops and joins the ghosts and unloads the level.
  A step is one lock or unlock operation, one read or one write of the shared board, or a thread's
  work on its own agent's timing. A ghost plays its own script; the order of the steps, the random
  numbers and what the client sends are open: any can come.
 */
module Threads {
  import opened Maze

  datatype Thread = GhostThread(g: nat) | MainThread

  /**
    A move whose cells are known: from `start` up to `reach` cells ahead in direction d. An
    uncharged move has reach 1; a charged one reaches to the edge of the board.
   */
  datatype Plan = Plan(start: Pos, d: char, reach: nat, charged: bool)

  /** The cell i steps ahead. */
  function Along(p: Pos, d: char, i: int): Pos {
    if d == 'W' then Pos(p.x, p.y - i)
    else if d == 'S' then Pos(p.x, p.y + i)
    else if d == 'A' then Pos(p.x - i, p.y)
    else Pos(p.x + i, p.y)
  }

  predicate Inside(width: int, height: int, p: Pos) {
    0 <= p.x < width && 0 <= p.y < height
  }

  predicate PlanIn(width: int, height: int, p: Plan) {
    && IsDirection(p.d) && 1 <= p.reach && (!p.charged ==> p.reach == 1)
    && Inside(width, height, p.start) && Inside(width, height, Along(p.start, p.d, p.reach))
  }

  // ----- what a call does before it locks anything

  datatype Chosen = Rest | Move(p: Plan)

  /** The move on the board that a ghost's call makes, if it makes one. */
  function Choose(b: State, gh: Ghost, rnd: nat): (c: Chosen)
    requires |gh.moves| > 0 && gh.currentMove >= 0
    ensures c.Move? ==> IsDirection(c.p.d) && c.p.start == Pos(gh.x, gh.y) && c.p.charged == gh.charged
  {
    var d, at := Resolve(gh.moves[Slot(gh)].command, rnd), Pos(gh.x, gh.y);
    if !Moves(gh, rnd) then Rest
    else if gh.charged then
      var room := Room(b, gh.x, gh.y, d);
      if room > 0 then Move(Plan(at, d, room, true)) else Rest
    else if Inside(b.width, b.height, Along(at, d, 1)) then Move(Plan(at, d, 1, false))
    else Rest
  }

  /** The ghost's own record after the part of its call that touches nothing else. */
  function Timed(gh: Ghost, rnd: nat): (r: Ghost)
    requires |gh.moves| > 0 && gh.currentMove >= 0
    ensures r.x == gh.x && r.y == gh.y && |r.moves| == |gh.moves| && r.currentMove >= 0
  {
    if gh.waiting > 0 then gh.(waiting := gh.waiting - 1)
    else
      var k := Slot(gh);
      var cmd := gh.moves[k];
      var awake, d := gh.(waiting := gh.passo), Resolve(cmd.command, rnd);
      if d == 'C' then awake.(currentMove := gh.currentMove + 1, charged := true)
      else if d == 'T' then
        awake.(currentMove := gh.currentMove + Advance(cmd), moves := gh.moves[k := CountDown(cmd)])
      else if !IsDirection(d) then awake
      else awake.(currentMove := gh.currentMove + 1, charged := false)
  }

  /** The move on the board that a request of the client makes, if it makes one. */
  function ChoosePacman(b: State, pac: Pacman, d: char, rnd: nat): (c: Chosen)
    ensures c.Move? ==> IsDirection(c.p.d) && c.p.start == Pos(pac.x, pac.y) && !c.p.charged && c.p.reach == 1
    ensures c.Move? ==> pac.alive && pac.waiting <= 0 && c.p.d == Resolve(d, rnd)
  {
    var dir, at := Resolve(d, rnd), Pos(pac.x, pac.y);
    if pac.alive && pac.waiting <= 0 && IsDirection(dir) && Inside(b.width, b.height, Along(at, dir, 1)) then
      Move(Plan(at, dir, 1, false))
    else Rest
  }

  function TimedPacman(pac: Pacman): Pacman {
    pac.(waiting := pac.passo, currentMove := pac.currentMove + 1)
  }

  /** The index of the cell i steps ahead. */
  function AheadIndex(width: int, height: int, p: Plan, i: int): (c: int)
    requires PlanIn(width, height, p) && 0 <= i <= p.reach
    ensures 0 <= c < width * height
  {
    var q := Along(p.start, p.d, i);
    Index(width, height, q.x, q.y)
  }

  /** The k-th mutex the move takes: upwards and leftwards moves start at the far end. */
  function LockIndex(width: int, height: int, p: Plan, k: int): (c: int)
    requires PlanIn(width, height, p) && 0 <= k <= p.reach
    ensures 0 <= c < width * height
  {
    AheadIndex(width, height, p, if p.d == 'W' || p.d == 'A' then p.reach - k else k)
  }

  // ----- program counters

  datatype Pc =
    | Sleeping                                          // between two turns
    | Entered                                           // holds the read lock, has not tested `shutdown`
    | Locking(p: Plan, k: nat)                          // holds the first k mutexes
    | Look(p: Plan, j: nat)                             // holds all, about to read cell j
    | Kill1(p: Plan, j: nat)                            // found the pacman on cell j: clears `alive`
    | Kill2(p: Plan, j: nat)                            // blanks the pacman's cell
    | Clear(p: Plan, j: nat)                            // about to blank the old cell
    | SetPos(p: Plan, j: nat)                           // about to store the new coordinates
    | Mark(p: Plan, j: nat)                             // about to write 'M'
    | Unlocking(p: Plan, k: nat, j: nat, pending: bool) // holds the mutexes from the k-th on
    | Leaving(exit: bool)                               // about to release the read lock
    | Done

  /** What the portal exit of `move_pacman` leaves locked. */
  datatype Kept = Nothing | Portal(p: Plan)

  datatype MainPc =
    | Idle
    | Playing(d: char, rnd: nat)                        // holds the write lock
    | MainLocking(p: Plan, k: nat)
    | Moving(p: Plan)                                   // holds both mutexes
    | MainUnlocking(p: Plan, k: nat)
    | Releasing(kept: Kept)                             // about to release the write lock, and to go on or end
    | Stopping(kept: Kept)                              // `stop_ghost_threads` wants the write lock
    | Flagging(kept: Kept)                              // holds it, about to set `shutdown`
    | Flagged(kept: Kept)                               // holds it, `shutdown` is set
    | Joining(kept: Kept, i: nat)                       // waits for ghost thread i
    | Unloaded(kept: Kept)

  /** History: an agent's record, and the random number drawn, when its current call began. */
  datatype Call = Call(was: Ghost, rnd: nat)

  datatype Request = Request(was: Pacman, d: char, rnd: nat)

  datatype Sys = Sys(b: State, owner: map<int, Thread>, readers: set<nat>, writer: bool, shutdown: bool,
                     pc: seq<Pc>, main: MainPc, calls: seq<Call>, request: Request)

  // ----- steps

  datatype MainChoice = Play(d: char, rnd: nat) | EndLevel

  datatype Step = GhostDoes(g: nat, rnd: nat) | MainDoes(m: MainChoice)

  predicate InFlight(pc: Pc) {
    !pc.Sleeping? && !pc.Done?
  }

  predicate MainWrites(m: MainPc) {
    m.Playing? || m.MainLocking? || m.Moving? || m.MainUnlocking? || m.Releasing? || m.Flagging? || m.Flagged?
  }

  /** The plans a program counter carries fit the board. */
  predicate PcIn(width: int, height: int, pc: Pc) {
    match pc
    case Locking(p, k) => PlanIn(width, height, p) && k <= p.reach
    case Look(p, j) => PlanIn(width, height, p) && 1 <= j <= p.reach
    case Kill1(p, j) => PlanIn(width, height, p) && 1 <= j <= p.reach
    case Kill2(p, j) => PlanIn(width, height, p) && 1 <= j <= p.reach
    case Clear(p, j) => PlanIn(width, height, p) && j <= p.reach && (!p.charged ==> j == 1)
    case SetPos(p, j) => PlanIn(width, height, p) && j <= p.reach && (!p.charged ==> j == 1)
    case Mark(p, j) => PlanIn(width, height, p) && j <= p.reach && (!p.charged ==> j == 1)
    case Unlocking(p, k, j, pending) =>
      PlanIn(width, height, p) && k <= p.reach && j <= p.reach && (pending ==> p.charged)
    case _ => true
  }

  predicate KeptIn(width: int, height: int, kept: Kept) {
    kept.Portal? ==> PlanIn(width, height, kept.p) && kept.p.reach == 1
  }

  predicate MainIn(width: int, height: int, m: MainPc) {
    match m
    case Idle => true
    case Playing(d, rnd) => true
    case MainLocking(p, k) => PlanIn(width, height, p) && p.reach == 1 && k <= 1
    case Moving(p) => PlanIn(width, height, p) && p.reach == 1
    case MainUnlocking(p, k) => PlanIn(width, height, p) && p.reach == 1 && k <= 1
    case Releasing(kept) => KeptIn(width, height, kept)
    case Stopping(kept) => KeptIn(width, height, kept)
    case Flagging(kept) => KeptIn(width, height, kept)
    case Flagged(kept) => KeptIn(width, height, kept)
    case Joining(kept, i) => KeptIn(width, height, kept)
    case Unloaded(kept) => KeptIn(width, height, kept)
  }

  predicate Shaped(s: Sys) {
    && WellFormed(s.b) && |s.pc| == |s.calls| == |s.b.ghosts|
    && MainIn(s.b.width, s.b.height, s.main)
    && forall g :: 0 <= g < |s.pc| ==> PcIn(s.b.width, s.b.height, s.pc[g])
  }

  function GhostAt(b: State, g: int): Pos
    requires 0 <= g < |b.ghosts|
  {
    Pos(b.ghosts[g].x, b.ghosts[g].y)
  }

  function LockOf(s: Sys, p: Plan, k: int): (c: int)
    requires WellFormed(s.b) && PlanIn(s.b.width, s.b.height, p) && 0 <= k <= p.reach
    ensures 0 <= c < |s.b.cells|
  {
    LockIndex(s.b.width, s.b.height, p, k)
  }

  function CellOf(s: Sys, p: Plan, j: int): (c: int)
    requires WellFormed(s.b) && PlanIn(s.b.width, s.b.height, p) && 0 <= j <= p.reach
    ensures 0 <= c < |s.b.cells|
  {
    AheadIndex(s.b.width, s.b.height, p, j)
  }

  function Remove(owner: map<int, Thread>, c: int): map<int, Thread> {
    map i | i in owner && i != c :: owner[i]
  }

  predicate Enabled(s: Sys, a: Step)
    requires Shaped(s)
  {
    match a
    case GhostDoes(g, rnd) =>
      && g < |s.pc|
      && (match s.pc[g]
          case Sleeping => !s.writer
          case Locking(p, k) => LockOf(s, p, k) !in s.owner
          case Done => false
          case _ => true)
    case MainDoes(m) =>
      match s.main
      case Idle => m.Play? ==> s.readers == {} && !s.writer
      case MainLocking(p, k) => LockOf(s, p, k) !in s.owner
      case Stopping(kept) => s.readers == {} && !s.writer
      case Joining(kept, i) => i < |s.pc| ==> s.pc[i].Done?
      case Unloaded(kept) => false
      case _ => true
  }

  lemma ChosenIn(b: State, gh: Ghost, rnd: nat)
    requires |gh.moves| > 0 && gh.currentMove >= 0 && IsValidPosition(b, gh.x, gh.y)
    ensures Choose(b, gh, rnd).Move? ==> PlanIn(b.width, b.height, Choose(b, gh, rnd).p)
  {
  }

  /** What a ghost that has entered goes on to. */
  function Decide(s: Sys, g: nat, rnd: nat): (pc: Pc)
    requires Shaped(s) && g < |s.pc|
    ensures PcIn(s.b.width, s.b.height, pc)
  {
    ChosenIn(s.b, s.b.ghosts[g], rnd);
    match Choose(s.b, s.b.ghosts[g], rnd)
    case Rest => Leaving(false)
    case Move(p) => Locking(p, 0)
  }

  /** What a ghost does after reading cell j: refuse, kill, go there, or look further. */
  function Seen(s: Sys, p: Plan, j: nat): (pc: Pc)
    requires Shaped(s) && PlanIn(s.b.width, s.b.height, p) && 1 <= j <= p.reach
    ensures PcIn(s.b.width, s.b.height, pc)
  {
    var target := s.b.cells[CellOf(s, p, j)].content;
    var at := Along(p.start, p.d, j);
    if target == 'W' || target == 'M' then
      if p.charged then Unlocking(p, 0, j - 1, true) else Unlocking(p, 0, 0, false)
    else if target == 'P' && s.b.pac.alive && s.b.pac.x == at.x && s.b.pac.y == at.y then Kill1(p, j)
    else if !p.charged then Clear(p, 1)
    else if target == 'P' || j == p.reach then Unlocking(p, 0, j, true)
    else Look(p, j + 1)
  }

  /** Where ghost g's program goes next. */
  function PcAfter(s: Sys, g: nat, rnd: nat): (pc: Pc)
    requires Shaped(s) && Enabled(s, GhostDoes(g, rnd))
    ensures PcIn(s.b.width, s.b.height, pc)
  {
    match s.pc[g]
    case Sleeping => Entered
    case Entered => if s.shutdown then Leaving(true) else Decide(s, g, rnd)
    case Locking(p, k) => if k < p.reach then Locking(p, k + 1) else Look(p, 1)
    case Look(p, j) => Seen(s, p, j)
    case Kill1(p, j) => Kill2(p, j)
    case Kill2(p, j) => if p.charged then Unlocking(p, 0, j, true) else Clear(p, 1)
    case Clear(p, j) => SetPos(p, j)
    case SetPos(p, j) => Mark(p, j)
    case Mark(p, j) => if p.charged then Leaving(false) else Unlocking(p, 0, 0, false)
    case Unlocking(p, k, j, pending) =>
      if k < p.reach then Unlocking(p, k + 1, j, pending) else if pending then Clear(p, j) else Leaving(false)
    case Leaving(exit) => if exit then Done else Sleeping
    case Done => Done
  }

  /** What ghost g's step writes on the board and in its own record. */
  function BoardAfter(s: Sys, g: nat, rnd: nat): (b: State)
    requires Shaped(s) && g < |s.pc|
    ensures WellFormed(b) && b.width == s.b.width && b.height == s.b.height && |b.ghosts| == |s.b.ghosts|
  {
    match s.pc[g]
    case Entered => if s.shutdown then s.b else SetGhost(s.b, g, Timed(s.b.ghosts[g], rnd))
    case Kill1(p, j) => s.b.(pac := s.b.pac.(alive := false))
    case Kill2(p, j) => SetContent(s.b, PacIndex(s.b), ' ')
    case Clear(p, j) => SetContent(s.b, CellOf(s, p, 0), ' ')
    case SetPos(p, j) =>
      var to := Along(p.start, p.d, j);
      SetGhost(s.b, g, s.b.ghosts[g].(x := to.x, y := to.y))
    case Mark(p, j) => SetContent(s.b, CellOf(s, p, j), 'M')
    case _ => s.b
  }

  function OwnerAfter(s: Sys, g: nat): map<int, Thread>
    requires Shaped(s) && g < |s.pc|
  {
    match s.pc[g]
    case Locking(p, k) => s.owner[LockOf(s, p, k) := GhostThread(g)]
    case Unlocking(p, k, j, pending) => Remove(s.owner, LockOf(s, p, k))
    case _ => s.owner
  }

  function ReadersAfter(s: Sys, g: nat): set<nat>
    requires g < |s.pc|
  {
    if s.pc[g].Sleeping? then s.readers + {g} else if s.pc[g].Leaving? then s.readers - {g} else s.readers
  }

  function CallsAfter(s: Sys, g: nat, rnd: nat): (calls: seq<Call>)
    requires Shaped(s) && g < |s.pc|
    ensures |calls| == |s.calls|
  {
    if s.pc[g].Entered? && !s.shutdown then s.calls[g := Call(s.b.ghosts[g], rnd)] else s.calls
  }

  function GhostNext(s: Sys, g: nat, rnd: nat): (t: Sys)
    requires Shaped(s) && Enabled(s, GhostDoes(g, rnd))
    ensures Shaped(t) && |t.pc| == |s.pc|
  {
    s.(b := BoardAfter(s, g, rnd), owner := OwnerAfter(s, g), readers := ReadersAfter(s, g),
       pc := s.pc[g := PcAfter(s, g, rnd)], calls := CallsAfter(s, g, rnd))
  }

  /** A request that does not lead to a move on the board is done in one go. */
  function PlayNext(s: Sys, d: char, rnd: nat): (t: Sys)
    requires Shaped(s)
    ensures Shaped(t) && |t.pc| == |s.pc|
  {
    match ChoosePacman(s.b, s.b.pac, d, rnd)
    case Rest => s.(b := PacmanTurn(s.b, Command(d, 1, 0), rnd).s, main := Releasing(Nothing))
    case Move(p) =>
      s.(b := s.b.(pac := TimedPacman(s.b.pac)), request := Request(s.b.pac, d, rnd), main := MainLocking(p, 0))
  }

  function MainNext(s: Sys, m: MainChoice): (t: Sys)
    requires Shaped(s) && Enabled(s, MainDoes(m))
    ensures Shaped(t) && |t.pc| == |s.pc|
  {
    match s.main
    case Idle =>
      (match m
       case Play(d, rnd) => s.(writer := true, main := Playing(d, rnd))
       case EndLevel => s.(main := Stopping(Nothing)))
    case Playing(d, rnd) => PlayNext(s, d, rnd)
    case MainLocking(p, k) =>
      s.(owner := s.owner[LockOf(s, p, k) := MainThread], main := if k == 0 then MainLocking(p, 1) else Moving(p))
    case Moving(p) =>
      var r := PacmanStep(s.b, p.d);
      s.(b := r.s, main := if r.out == ReachedPortal then Releasing(Portal(p)) else MainUnlocking(p, 0))
    case MainUnlocking(p, k) =>
      s.(owner := Remove(s.owner, LockOf(s, p, k)), main := if k == 0 then MainUnlocking(p, 1) else Releasing(Nothing))
    case Releasing(kept) =>
      s.(writer := false, main := if kept.Portal? || !s.b.pac.alive then Stopping(kept) else Idle)
    case Stopping(kept) => s.(writer := true, main := Flagging(kept))
    case Flagging(kept) => s.(shutdown := true, main := Flagged(kept))
    case Flagged(kept) => s.(writer := false, main := Joining(kept, 0))
    case Joining(kept, i) =>
      if i < |s.pc| then s.(main := Joining(kept, i + 1)) else s.(shutdown := false, main := Unloaded(kept))
    case Unloaded(kept) => s
  }

  function Next(s: Sys, a: Step): (t: Sys)
    requires Shaped(s) && Enabled(s, a)
    ensures Shaped(t) && |t.pc| == |s.pc|
  {
    match a
    case GhostDoes(g, rnd) => GhostNext(s, g, rnd)
    case MainDoes(m) => MainNext(s, m)
  }

  // ----- executions

  predicate CanRun(s: Sys, steps: seq<Step>)
    requires Shaped(s)
    decreases |steps|
  {
    steps == [] || (Enabled(s, steps[0]) && CanRun(Next(s, steps[0]), steps[1..]))
  }

  function Execute(s: Sys, steps: seq<Step>): (t: Sys)
    requires Shaped(s) && CanRun(s, steps)
    ensures Shaped(t) && |t.pc| == |s.pc|
    decreases |steps|
  {
    if steps == [] then s else Execute(Next(s, steps[0]), steps[1..])
  }

  lemma {:induction false} Extend(s: Sys, steps: seq<Step>, a: Step)
    requires Shaped(s) && CanRun(s, steps) && Enabled(Execute(s, steps), a)
    ensures CanRun(s, steps + [a]) && Execute(s, steps + [a]) == Next(Execute(s, steps), a)
    decreases |steps|
  {
    hide Next, Enabled;
    if steps == [] {
      assert CanRun(Next(s, a), []);
      assert (steps + [a])[1..] == [];
    } else {
      Extend(Next(s, steps[0]), steps[1..], a);
      assert (steps + [a])[1..] == steps[1..] + [a];
    }
  }

  /** A level just loaded: nothing locked, every ghost thread about to start, the main thread idle. */
  predicate Initial(s: Sys) {
    && WellFormed(s.b) && |s.pc| == |s.calls| == |s.b.ghosts|
    && (forall g :: 0 <= g < |s.pc| ==> s.pc[g] == Sleeping)
    && s.main == Idle && s.owner == map[] && s.readers == {} && !s.writer && !s.shutdown
  }
}
