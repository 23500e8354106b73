/**
  One level of the game as a value: the row-major cells, the pacman and the ghosts, together
  with the effect of every move the engine performs on them. Each `*Step` function is the part
  of a move after its direction is known; each `*Turn` function is a whole call, with the
  `passo` waiting, the command decoding and the script bookkeeping. `rand()` is the parameter
  `rnd`.
 */
module Maze {

  datatype Cell = Cell(content: char, hasDot: bool, hasPortal: bool)

  datatype Command = Command(command: char, turns: int, turnsLeft: int)

  datatype Pacman = Pacman(x: int, y: int, alive: bool, points: int, passo: int, waiting: int, currentMove: int)

  datatype Ghost = Ghost(x: int, y: int, passo: int, waiting: int, currentMove: int, charged: bool,
                         moves: seq<Command>)

  datatype State = State(width: int, height: int, cells: seq<Cell>, pac: Pacman, ghosts: seq<Ghost>)

  datatype Outcome = ReachedPortal | ValidMove | InvalidMove | DeadPacman

  /** What a move leaves behind: the level and the code it returns. */
  datatype Result = Result(s: State, out: Outcome)

  /** What a whole call leaves behind: also the command, whose `turnsLeft` it may change. */
  datatype Turn = Turn(s: State, cmd: Command, out: Outcome)

  // ----- geometry

  datatype Pos = Pos(x: int, y: int)

  predicate IsValidPosition(s: State, x: int, y: int) {
    0 <= x < s.width && 0 <= y < s.height
  }

  /** The row-major index of a cell. */
  function Index(width: int, height: int, x: int, y: int): (i: int)
    requires 0 <= x < width && 0 <= y < height
    ensures 0 <= i < width * height
  {
    IndexBound(width, height, x, y);
    y * width + x
  }

  lemma IndexBound(width: int, height: int, x: int, y: int)
    requires 0 <= x < width && 0 <= y < height
    ensures 0 <= y * width + x < width * height
  {
    assert y * width <= (height - 1) * width;
    assert (height - 1) * width + width == height * width;
  }

  lemma IndexInjective(width: int, height: int, x: int, y: int, x': int, y': int)
    requires 0 <= x < width && 0 <= y < height
    requires 0 <= x' < width && 0 <= y' < height
    ensures Index(width, height, x, y) == Index(width, height, x', y') ==> x == x' && y == y'
  {
    if y < y' {
      assert y' * width >= (y + 1) * width == y * width + width;
    } else if y' < y {
      assert y * width >= (y' + 1) * width == y' * width + width;
    }
  }

  /** Cells in range, agents on the board, and a script for every ghost: `current_move % n_moves` is defined. */
  predicate WellFormed(s: State) {
    && |s.cells| == s.width * s.height
    && IsValidPosition(s, s.pac.x, s.pac.y)
    && forall g :: 0 <= g < |s.ghosts| ==>
         && IsValidPosition(s, s.ghosts[g].x, s.ghosts[g].y)
         && |s.ghosts[g].moves| > 0
         && s.ghosts[g].currentMove >= 0
  }

  function GhostIndex(s: State, g: int): (i: int)
    requires WellFormed(s) && 0 <= g < |s.ghosts|
    ensures 0 <= i < |s.cells|
  {
    Index(s.width, s.height, s.ghosts[g].x, s.ghosts[g].y)
  }

  function PacIndex(s: State): (i: int)
    requires WellFormed(s)
    ensures 0 <= i < |s.cells|
  {
    Index(s.width, s.height, s.pac.x, s.pac.y)
  }

  function At(s: State, x: int, y: int): Cell
    requires WellFormed(s) && IsValidPosition(s, x, y)
  {
    s.cells[Index(s.width, s.height, x, y)]
  }

  predicate IsDirection(d: char) {
    d == 'W' || d == 'S' || d == 'A' || d == 'D'
  }

  function StepX(x: int, d: char): int {
    if d == 'A' then x - 1 else if d == 'D' then x + 1 else x
  }

  function StepY(y: int, d: char): int {
    if d == 'W' then y - 1 else if d == 'S' then y + 1 else y
  }

  /** The direction a random number stands for. */
  function Compass(rnd: nat): (d: char)
    ensures IsDirection(d)
  {
    var k := rnd % 4;
    if k == 0 then 'W' else if k == 1 then 'S' else if k == 2 then 'A' else 'D'
  }

  /** 'R' stands for one of the four directions, chosen by the random number. */
  function Resolve(command: char, rnd: nat): char {
    if command == 'R' then Compass(rnd) else command
  }

  // ----- effects shared by the moves

  function SetContent(s: State, i: int, content: char): State
    requires 0 <= i < |s.cells|
  {
    s.(cells := s.cells[i := s.cells[i].(content := content)])
  }

  function KillPacman(s: State): State
    requires WellFormed(s)
  {
    SetContent(s, PacIndex(s), ' ').(pac := s.pac.(alive := false))
  }

  function FindAndKill(s: State, x: int, y: int): (r: Result)
    requires WellFormed(s)
    ensures WellFormed(r.s) && r.s.ghosts == s.ghosts && r.s.width == s.width && r.s.height == s.height
  {
    if s.pac.x == x && s.pac.y == y && s.pac.alive then Result(KillPacman(s), DeadPacman)
    else Result(s, ValidMove)
  }

  /** Clear the ghost's old cell, move it, write 'M' on its new cell. */
  function Relocate(s: State, g: int, x: int, y: int): (r: State)
    requires WellFormed(s) && 0 <= g < |s.ghosts| && IsValidPosition(s, x, y)
    ensures WellFormed(r)
  {
    var cleared := SetContent(s, GhostIndex(s, g), ' ');
    var moved := cleared.(ghosts := s.ghosts[g := s.ghosts[g].(x := x, y := y)]);
    SetContent(moved, Index(s.width, s.height, x, y), 'M')
  }

  // ----- moves

  /** An uncharged ghost moves one cell. */
  function GhostStep(s: State, g: int, d: char): (r: Result)
    requires WellFormed(s) && 0 <= g < |s.ghosts|
    ensures WellFormed(r.s)
  {
    var nx, ny := StepX(s.ghosts[g].x, d), StepY(s.ghosts[g].y, d);
    if !IsValidPosition(s, nx, ny) then Result(s, InvalidMove) else
    var target := At(s, nx, ny).content;
    if target == 'W' || target == 'M' then Result(s, InvalidMove) else
    var hit := if target == 'P' then FindAndKill(s, nx, ny) else Result(s, ValidMove);
    Result(Relocate(hit.s, g, nx, ny), hit.out)
  }

  /** How many cells lie ahead of (x,y) in direction d. */
  function Room(s: State, x: int, y: int, d: char): int {
    if d == 'W' then y
    else if d == 'S' then s.height - 1 - y
    else if d == 'A' then x
    else s.width - 1 - x
  }

  /** Where a slide stops, and whether it stops on a 'P'. */
  datatype Stop = Stop(x: int, y: int, hit: bool)

  function SlideEnd(s: State, x: int, y: int, d: char): (e: Stop)
    requires WellFormed(s) && IsValidPosition(s, x, y) && IsDirection(d)
    ensures IsValidPosition(s, e.x, e.y)
    decreases Room(s, x, y, d)
  {
    if Room(s, x, y, d) == 0 then Stop(x, y, false) else
    var nx, ny := StepX(x, d), StepY(y, d);
    var target := At(s, nx, ny).content;
    if target == 'W' || target == 'M' then Stop(x, y, false)
    else if target == 'P' then Stop(nx, ny, true)
    else SlideEnd(s, nx, ny, d)
  }

  /** A charged ghost slides until something stops it, and loses its charge. */
  function GhostCharge(s: State, g: int, d: char): (r: Result)
    requires WellFormed(s) && 0 <= g < |s.ghosts| && IsDirection(d)
    ensures WellFormed(r.s)
  {
    var u := s.(ghosts := s.ghosts[g := s.ghosts[g].(charged := false)]);
    var x, y := s.ghosts[g].x, s.ghosts[g].y;
    if Room(u, x, y, d) == 0 then Result(u, InvalidMove) else
    var e := SlideEnd(u, x, y, d);
    var hit := if e.hit then FindAndKill(u, e.x, e.y) else Result(u, ValidMove);
    Result(Relocate(hit.s, g, e.x, e.y), hit.out)
  }

  function SetGhost(s: State, g: int, gh: Ghost): State
    requires 0 <= g < |s.ghosts|
  {
    s.(ghosts := s.ghosts[g := gh])
  }

  /** 'T n': count down, and on the last turn rewind the counter and move on. */
  function CountDown(cmd: Command): Command {
    cmd.(turnsLeft := if cmd.turnsLeft == 1 then cmd.turns else cmd.turnsLeft - 1)
  }

  function Advance(cmd: Command): int {
    if cmd.turnsLeft == 1 then 1 else 0
  }

  /** A whole call of `move_ghost`. */
  function GhostTurn(s: State, g: int, cmd: Command, rnd: nat): (t: Turn)
    requires WellFormed(s) && 0 <= g < |s.ghosts|
    ensures WellFormed(t.s)
  {
    var gh := s.ghosts[g];
    if gh.waiting > 0 then
      Turn(SetGhost(s, g, gh.(waiting := gh.waiting - 1)), cmd, ValidMove)
    else
      var awake := gh.(waiting := gh.passo);
      var d := Resolve(cmd.command, rnd);
      if d == 'C' then
        Turn(SetGhost(s, g, awake.(currentMove := gh.currentMove + 1, charged := true)), cmd, ValidMove)
      else if d == 'T' then
        Turn(SetGhost(s, g, awake.(currentMove := gh.currentMove + Advance(cmd))), CountDown(cmd), ValidMove)
      else if !IsDirection(d) then
        Turn(SetGhost(s, g, awake), cmd, InvalidMove)
      else
        var ready := SetGhost(s, g, awake.(currentMove := gh.currentMove + 1));
        var r := if gh.charged then GhostCharge(ready, g, d) else GhostStep(ready, g, d);
        Turn(r.s, cmd, r.out)
  }

  /** The pacman moves one cell; reaching the portal leaves its coordinates behind. */
  function PacmanStep(s: State, d: char): (r: Result)
    requires WellFormed(s)
    ensures WellFormed(r.s) && r.s.ghosts == s.ghosts && r.s.width == s.width && r.s.height == s.height
  {
    var nx, ny := StepX(s.pac.x, d), StepY(s.pac.y, d);
    if !IsValidPosition(s, nx, ny) then Result(s, InvalidMove) else
    var i, j := Index(s.width, s.height, nx, ny), PacIndex(s);
    var target := s.cells[i];
    if target.hasPortal then Result(SetContent(SetContent(s, j, ' '), i, 'P'), ReachedPortal)
    else if target.content == 'W' then Result(s, InvalidMove)
    else if target.content == 'M' then Result(KillPacman(s), DeadPacman)
    else
      var eaten := s.(cells := s.cells[i := target.(hasDot := false)],
                      pac := s.pac.(x := nx, y := ny,
                                    points := s.pac.points + if target.hasDot then 1 else 0));
      Result(SetContent(SetContent(eaten, j, ' '), i, 'P'), ValidMove)
  }

  /** A whole call of `move_pacman`. */
  function PacmanTurn(s: State, cmd: Command, rnd: nat): (t: Turn)
    requires WellFormed(s)
    ensures WellFormed(t.s) && t.s.ghosts == s.ghosts && t.s.width == s.width && t.s.height == s.height
  {
    if !s.pac.alive then Turn(s, cmd, DeadPacman)
    else if s.pac.waiting > 0 then
      Turn(s.(pac := s.pac.(waiting := s.pac.waiting - 1)), cmd, ValidMove)
    else
      var awake := s.pac.(waiting := s.pac.passo);
      var d := Resolve(cmd.command, rnd);
      if d == 'T' then
        Turn(s.(pac := awake.(currentMove := s.pac.currentMove + Advance(cmd))), CountDown(cmd), ValidMove)
      else if !IsDirection(d) then Turn(s.(pac := awake), cmd, InvalidMove)
      else
        var r := PacmanStep(s.(pac := awake.(currentMove := s.pac.currentMove + 1)), d);
        Turn(r.s, cmd, r.out)
  }

  // ----- runs of atomic calls

  datatype Action = PacCall(cmd: Command, rnd: nat) | GhostCall(g: nat, rnd: nat)

  predicate Legal(s: State, a: Action) {
    a.GhostCall? ==> a.g < |s.ghosts|
  }

  /** The command a ghost thread passes to `move_ghost`. */
  function Slot(gh: Ghost): (i: nat)
    requires |gh.moves| > 0 && gh.currentMove >= 0
    ensures i < |gh.moves|
  {
    gh.currentMove % |gh.moves|
  }

  /** One loop turn of a ghost thread: the command is a pointer into the ghost's own script. */
  function GhostCallOn(s: State, g: int, rnd: nat): (r: Result)
    requires WellFormed(s) && 0 <= g < |s.ghosts|
    ensures WellFormed(r.s)
  {
    var k := Slot(s.ghosts[g]);
    var t := GhostTurn(s, g, s.ghosts[g].moves[k], rnd);
    var gh := t.s.ghosts[g];
    Result(SetGhost(t.s, g, gh.(moves := gh.moves[k := t.cmd])), t.out)
  }

  function Do(s: State, a: Action): (r: Result)
    requires WellFormed(s) && Legal(s, a)
    ensures WellFormed(r.s) && |r.s.ghosts| == |s.ghosts|
  {
    match a
    case PacCall(cmd, rnd) => var t := PacmanTurn(s, cmd, rnd); Result(t.s, t.out)
    case GhostCall(g, rnd) => GhostCallOn(s, g, rnd)
  }

  predicate LegalRun(s: State, acts: seq<Action>) {
    forall i :: 0 <= i < |acts| ==> Legal(s, acts[i])
  }

  function Run(s: State, acts: seq<Action>): (r: State)
    requires WellFormed(s) && LegalRun(s, acts)
    ensures WellFormed(r) && |r.ghosts| == |s.ghosts|
    decreases |acts|
  {
    if acts == [] then s else Run(Do(s, acts[0]).s, acts[1..])
  }

  /** No call of the run reaches the portal. */
  predicate NoPortal(s: State, acts: seq<Action>)
    requires WellFormed(s) && LegalRun(s, acts)
    decreases |acts|
  {
    acts == [] || (Do(s, acts[0]).out != ReachedPortal && NoPortal(Do(s, acts[0]).s, acts[1..]))
  }

  /** No call of the pacman in the run ends the level, by a portal or a death. */
  predicate GoesOn(s: State, acts: seq<Action>)
    requires WellFormed(s) && LegalRun(s, acts)
    decreases |acts|
  {
    acts == []
    || (&& GoesOn(s, acts[..|acts| - 1])
        && (acts[|acts| - 1].PacCall? ==>
             Do(Run(s, acts[..|acts| - 1]), acts[|acts| - 1]).out !in {ReachedPortal, DeadPacman}))
  }

  lemma {:induction false} RunLast(s: State, acts: seq<Action>, a: Action)
    requires WellFormed(s) && LegalRun(s, acts + [a])
    ensures LegalRun(s, acts) && Legal(Run(s, acts), a)
    ensures Run(s, acts + [a]) == Do(Run(s, acts), a).s
    decreases |acts|
  {
    assert forall i :: 0 <= i < |acts| ==> acts[i] == (acts + [a])[i];
    assert (acts + [a])[|acts|] == a;
    if acts == [] {
      assert [a][1..] == [];
    } else {
      assert (acts + [a])[1..] == acts[1..] + [a];
      RunLast(Do(s, acts[0]).s, acts[1..], a);
    }
  }

  /** The run stays open for one more call if the level did, and the call does not end it. */
  lemma GoesOnLast(s: State, acts: seq<Action>, a: Action)
    requires WellFormed(s) && LegalRun(s, acts + [a]) && GoesOn(s, acts + [a])
    ensures LegalRun(s, acts) && GoesOn(s, acts)
    ensures a.PacCall? ==> Do(Run(s, acts), a).out !in {ReachedPortal, DeadPacman}
  {
    assert (acts + [a])[..|acts|] == acts;
    assert forall i :: 0 <= i < |acts| ==> acts[i] == (acts + [a])[i];
  }

  /** Does this call move the ghost on the board, rather than wait, charge up or count turns? */
  predicate Moves(gh: Ghost, rnd: nat)
    requires |gh.moves| > 0 && gh.currentMove >= 0
  {
    gh.waiting <= 0 && IsDirection(Resolve(gh.moves[Slot(gh)].command, rnd))
  }

  /** The ghost's record when its move on the board begins. */
  function Ready(gh: Ghost): Ghost {
    gh.(waiting := gh.passo, currentMove := gh.currentMove + 1)
  }

  lemma StepKeepsScript(s: State, g: int, d: char)
    requires WellFormed(s) && 0 <= g < |s.ghosts|
    ensures var t := GhostStep(s, g, d).s; |t.ghosts| == |s.ghosts| && t.ghosts[g].moves == s.ghosts[g].moves
  {
  }

  lemma ChargeKeepsScript(s: State, g: int, d: char)
    requires WellFormed(s) && 0 <= g < |s.ghosts| && IsDirection(d)
    ensures var t := GhostCharge(s, g, d).s; |t.ghosts| == |s.ghosts| && t.ghosts[g].moves == s.ghosts[g].moves
  {
  }

  function ReadyMove(s: State, g: int, d: char): Result
    requires WellFormed(s) && 0 <= g < |s.ghosts| && IsDirection(d)
  {
    var ready := SetGhost(s, g, Ready(s.ghosts[g]));
    if s.ghosts[g].charged then GhostCharge(ready, g, d) else GhostStep(ready, g, d)
  }

  lemma TurnMoves(s: State, g: int, cmd: Command, rnd: nat)
    requires WellFormed(s) && 0 <= g < |s.ghosts|
    requires s.ghosts[g].waiting <= 0 && IsDirection(Resolve(cmd.command, rnd))
    ensures var r := ReadyMove(s, g, Resolve(cmd.command, rnd)); GhostTurn(s, g, cmd, rnd) == Turn(r.s, cmd, r.out)
  {
  }

  /** A call that moves the ghost is a step or a charge of the readied ghost, and leaves its script alone. */
  lemma GhostCallMoves(s: State, g: int, rnd: nat)
    requires WellFormed(s) && 0 <= g < |s.ghosts| && Moves(s.ghosts[g], rnd)
    ensures var gh := s.ghosts[g];
            GhostCallOn(s, g, rnd) == ReadyMove(s, g, Resolve(gh.moves[Slot(gh)].command, rnd))
  {
    var gh := s.ghosts[g];
    var cmd := gh.moves[Slot(gh)];
    var d := Resolve(cmd.command, rnd);
    var r := ReadyMove(s, g, d);
    TurnMoves(s, g, cmd, rnd);
    StepKeepsScript(SetGhost(s, g, Ready(gh)), g, d);
    ChargeKeepsScript(SetGhost(s, g, Ready(gh)), g, d);
    assert r.s.ghosts[g].(moves := gh.moves[Slot(gh) := cmd]) == r.s.ghosts[g];
    assert r.s.ghosts[g := r.s.ghosts[g]] == r.s.ghosts;
  }

  /** Any other call changes that ghost's timing and nothing else. */
  lemma GhostCallWaits(s: State, g: int, rnd: nat)
    requires WellFormed(s) && 0 <= g < |s.ghosts| && !Moves(s.ghosts[g], rnd)
    ensures var gh, r := s.ghosts[g], GhostCallOn(s, g, rnd);
            && r.s == SetGhost(s, g, r.s.ghosts[g])
            && r.s.ghosts[g].x == gh.x && r.s.ghosts[g].y == gh.y
            && r.s.ghosts[g].passo == gh.passo
            && r.out !in {DeadPacman, ReachedPortal}
  {
  }

  lemma GhostCallCases(s: State, g: int, rnd: nat)
    requires WellFormed(s) && 0 <= g < |s.ghosts|
    ensures var gh, r := s.ghosts[g], GhostCallOn(s, g, rnd);
            var d := Resolve(gh.moves[Slot(gh)].command, rnd);
            if Moves(gh, rnd) then
              r == if gh.charged then GhostCharge(SetGhost(s, g, Ready(gh)), g, d)
                   else GhostStep(SetGhost(s, g, Ready(gh)), g, d)
            else
              && r.s == SetGhost(s, g, r.s.ghosts[g])
              && r.s.ghosts[g].x == gh.x && r.s.ghosts[g].y == gh.y
              && r.s.ghosts[g].passo == gh.passo
              && r.out !in {DeadPacman, ReachedPortal}
  {
    if Moves(s.ghosts[g], rnd) {
      GhostCallMoves(s, g, rnd);
    } else {
      GhostCallWaits(s, g, rnd);
    }
  }
}
