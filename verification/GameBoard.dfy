/**
  The board as the engine holds it: a row-major cell array and agent records updated in place.
  Every method is the engine's own code, proved to do to the level exactly what the functions of
  `Maze` say.
 */
module GameBoards {
  import opened Maze

  /** Setting a ghost's record twice is setting it once. */
  lemma TwiceSet(s: State, g: int)
    requires 0 <= g < |s.ghosts|
    ensures forall a, b :: SetGhost(SetGhost(s, g, a), g, b) == SetGhost(s, g, b)
  {
    forall a, b ensures SetGhost(SetGhost(s, g, a), g, b) == SetGhost(s, g, b) {
      assert s.ghosts[g := a][g := b] == s.ghosts[g := b];
    }
  }

  class GameBoard {
    const width: int
    const height: int
    const cells: array<Cell>
    const ghosts: array<Ghost>
    var pac: Pacman

    constructor (width: int, height: int, cells: array<Cell>, pac: Pacman, ghosts: array<Ghost>)
      requires WellFormed(State(width, height, cells[..], pac, ghosts[..]))
      ensures Valid() && Level() == State(width, height, cells[..], pac, ghosts[..])
      ensures this.cells == cells && this.ghosts == ghosts
    {
      this.width, this.height, this.cells, this.pac, this.ghosts := width, height, cells, pac, ghosts;
    }

    ghost function Level(): State
      reads this, cells, ghosts
    {
      State(width, height, cells[..], pac, ghosts[..])
    }

    ghost predicate Valid()
      reads this, cells, ghosts
    {
      WellFormed(Level())
    }

    predicate IsValid(x: int, y: int)
      ensures IsValid(x, y) ==> 0 <= x < width && 0 <= y < height
    {
      0 <= x < width && 0 <= y < height
    }

    method SetContentAt(i: int, content: char)
      requires Valid() && 0 <= i < cells.Length
      modifies cells
      ensures Valid() && Level() == SetContent(old(Level()), i, content)
    {
      cells[i] := cells[i].(content := content);
      assert cells[..] == old(cells[..])[i := cells[i]];
    }

    method SetGhostAt(g: int, gh: Ghost)
      requires Valid() && 0 <= g < ghosts.Length && WellFormed(SetGhost(Level(), g, gh))
      modifies ghosts
      ensures Valid() && Level() == SetGhost(old(Level()), g, gh)
    {
      ghosts[g] := gh;
      assert ghosts[..] == old(ghosts[..])[g := gh];
    }

    method KillThePacman()
      requires Valid()
      modifies this`pac, cells
      ensures Valid() && Level() == KillPacman(old(Level()))
    {
      SetContentAt(Index(width, height, pac.x, pac.y), ' ');
      pac := pac.(alive := false);
    }

    method FindAndKillPacman(x: int, y: int) returns (out: Outcome)
      requires Valid()
      modifies this`pac, cells
      ensures Valid() && Result(Level(), out) == FindAndKill(old(Level()), x, y)
    {
      if pac.x == x && pac.y == y && pac.alive {
        pac := pac.(alive := false);
        KillThePacman();
        return DeadPacman;
      }
      return ValidMove;
    }

    /** Where the slide of a charged ghost ends, killing the pacman it hits. */
    method ChargedDirection(g: int, d: char) returns (out: Outcome, newX: int, newY: int)
      requires Valid() && 0 <= g < ghosts.Length
      modifies this`pac, cells
      ensures Valid()
      ensures !IsDirection(d) || Room(old(Level()), ghosts[g].x, ghosts[g].y, d) == 0 ==>
                Level() == old(Level()) && out == InvalidMove
      ensures IsDirection(d) && Room(old(Level()), ghosts[g].x, ghosts[g].y, d) != 0 ==>
                var s := old(Level());
                var e := SlideEnd(s, ghosts[g].x, ghosts[g].y, d);
                && newX == e.x && newY == e.y
                && Result(Level(), out) == if e.hit then FindAndKill(s, e.x, e.y) else Result(s, ValidMove)
    {
      var x, y := ghosts[g].x, ghosts[g].y;
      newX, newY := x, y;
      ghost var s := Level();
      if d == 'W' {
        if y == 0 { return InvalidMove, newX, newY; }
        newY := 0;
        var i := y - 1;
        while i >= 0
          invariant -1 <= i < y && newX == x && newY == 0 && Level() == s
          invariant SlideEnd(s, x, i + 1, d) == SlideEnd(s, x, y, d)
        {
          var target := cells[Index(width, height, x, i)].content;
          if target == 'W' || target == 'M' {
            newY := i + 1;
            return ValidMove, newX, newY;
          } else if target == 'P' {
            newY := i;
            out := FindAndKillPacman(newX, newY);
            return out, newX, newY;
          }
          i := i - 1;
        }
      } else if d == 'S' {
        if y == height - 1 { return InvalidMove, newX, newY; }
        newY := height - 1;
        var i := y + 1;
        while i < height
          invariant y < i <= height && newX == x && newY == height - 1 && Level() == s
          invariant SlideEnd(s, x, i - 1, d) == SlideEnd(s, x, y, d)
        {
          var target := cells[Index(width, height, x, i)].content;
          if target == 'W' || target == 'M' {
            newY := i - 1;
            return ValidMove, newX, newY;
          }
          if target == 'P' {
            newY := i;
            out := FindAndKillPacman(newX, newY);
            return out, newX, newY;
          }
          i := i + 1;
        }
      } else if d == 'A' {
        if x == 0 { return InvalidMove, newX, newY; }
        newX := 0;
        var j := x - 1;
        while j >= 0
          invariant -1 <= j < x && newX == 0 && newY == y && Level() == s
          invariant SlideEnd(s, j + 1, y, d) == SlideEnd(s, x, y, d)
        {
          var target := cells[Index(width, height, j, y)].content;
          if target == 'W' || target == 'M' {
            newX := j + 1;
            return ValidMove, newX, newY;
          }
          if target == 'P' {
            newX := j;
            out := FindAndKillPacman(newX, newY);
            return out, newX, newY;
          }
          j := j - 1;
        }
      } else if d == 'D' {
        if x == width - 1 { return InvalidMove, newX, newY; }
        newX := width - 1;
        var j := x + 1;
        while j < width
          invariant x < j <= width && newX == width - 1 && newY == y && Level() == s
          invariant SlideEnd(s, j - 1, y, d) == SlideEnd(s, x, y, d)
        {
          var target := cells[Index(width, height, j, y)].content;
          if target == 'W' || target == 'M' {
            newX := j - 1;
            return ValidMove, newX, newY;
          }
          if target == 'P' {
            newX := j;
            out := FindAndKillPacman(newX, newY);
            return out, newX, newY;
          }
          j := j + 1;
        }
      } else {
        return InvalidMove, newX, newY;
      }
      return ValidMove, newX, newY;
    }

    /** Clear the ghost's old cell, move the ghost, mark its new cell. */
    method Place(g: int, x: int, y: int)
      requires Valid() && 0 <= g < ghosts.Length && IsValid(x, y)
      modifies cells, ghosts
      ensures Valid() && Level() == Relocate(old(Level()), g, x, y)
    {
      SetContentAt(Index(width, height, ghosts[g].x, ghosts[g].y), ' ');
      SetGhostAt(g, ghosts[g].(x := x, y := y));
      SetContentAt(Index(width, height, x, y), 'M');
    }

    method MoveGhostCharged(g: int, d: char) returns (out: Outcome)
      requires Valid() && 0 <= g < ghosts.Length && IsDirection(d)
      modifies this`pac, cells, ghosts
      ensures Valid() && Result(Level(), out) == GhostCharge(old(Level()), g, d)
    {
      SetGhostAt(g, ghosts[g].(charged := false));
      var newX, newY;
      out, newX, newY := ChargedDirection(g, d);
      if out == InvalidMove {
        return;
      }
      Place(g, newX, newY);
    }

    /** The tail of `move_ghost` for an uncharged ghost whose new coordinates are known. */
    method StepGhost(g: int, ghost direction: char, newX: int, newY: int) returns (out: Outcome)
      requires Valid() && 0 <= g < ghosts.Length
      requires newX == StepX(ghosts[g].x, direction) && newY == StepY(ghosts[g].y, direction)
      modifies this`pac, cells, ghosts
      ensures Valid() && Result(Level(), out) == GhostStep(old(Level()), g, direction)
    {
      if !IsValid(newX, newY) {
        return InvalidMove;
      }
      var target := cells[Index(width, height, newX, newY)].content;
      if target == 'W' || target == 'M' {
        return InvalidMove;
      }
      out := ValidMove;
      if target == 'P' {
        out := FindAndKillPacman(newX, newY);
      }
      Place(g, newX, newY);
    }

    /** 'T' in `move_ghost`: count the command down. */
    method WaitGhost(g: int, command: Command) returns (cmd: Command)
      requires Valid() && 0 <= g < ghosts.Length
      modifies ghosts
      ensures Valid() && cmd == CountDown(command)
      ensures Level() == SetGhost(old(Level()), g,
                                  old(ghosts[g]).(currentMove := old(ghosts[g]).currentMove + Advance(command)))
    {
      cmd := command;
      if cmd.turnsLeft == 1 {
        SetGhostAt(g, ghosts[g].(currentMove := ghosts[g].currentMove + 1));
        cmd := cmd.(turnsLeft := cmd.turns);
      } else {
        assert ghosts[..][g := ghosts[g]] == ghosts[..];
        cmd := cmd.(turnsLeft := cmd.turnsLeft - 1);
      }
    }

    /** The rest of `move_ghost` for a ghost that is done waiting and whose direction is known. */
    method PlayGhost(g: int, command: Command, direction: char) returns (cmd: Command, out: Outcome)
      requires Valid() && 0 <= g < ghosts.Length
      modifies this`pac, cells, ghosts
      ensures Valid()
      ensures direction == 'C' ==>
                && cmd == command && out == ValidMove
                && Level() == SetGhost(old(Level()), g,
                                       old(ghosts[g]).(currentMove := old(ghosts[g]).currentMove + 1, charged := true))
      ensures direction == 'T' ==>
                && cmd == CountDown(command) && out == ValidMove
                && Level() == SetGhost(old(Level()), g,
                                       old(ghosts[g]).(currentMove := old(ghosts[g]).currentMove + Advance(command)))
      ensures direction !in {'C', 'T'} && !IsDirection(direction) ==>
                cmd == command && out == InvalidMove && Level() == old(Level())
      ensures IsDirection(direction) ==>
                var ready := SetGhost(old(Level()), g, old(ghosts[g]).(currentMove := old(ghosts[g]).currentMove + 1));
                && cmd == command
                && Result(Level(), out) == if old(ghosts[g]).charged then GhostCharge(ready, g, direction)
                                           else GhostStep(ready, g, direction)
    {
      cmd := command;
      var newX, newY := ghosts[g].x, ghosts[g].y;
      match direction {
        case 'W' => newY := newY - 1;
        case 'S' => newY := newY + 1;
        case 'A' => newX := newX - 1;
        case 'D' => newX := newX + 1;
        case 'C' =>
          SetGhostAt(g, ghosts[g].(currentMove := ghosts[g].currentMove + 1, charged := true));
          return cmd, ValidMove;
        case 'T' =>
          cmd := WaitGhost(g, command);
          return cmd, ValidMove;
        case _ =>
          return cmd, InvalidMove;
      }
      SetGhostAt(g, ghosts[g].(currentMove := ghosts[g].currentMove + 1));
      if ghosts[g].charged {
        out := MoveGhostCharged(g, direction);
      } else {
        out := StepGhost(g, direction, newX, newY);
      }
    }

    method MoveGhost(g: int, command: Command, rnd: nat) returns (cmd: Command, out: Outcome)
      requires Valid() && 0 <= g < ghosts.Length
      modifies this`pac, cells, ghosts
      ensures Valid() && Turn(Level(), cmd, out) == GhostTurn(old(Level()), g, command, rnd)
    {
      hide GhostCharge, GhostStep, IsDirection;
      ghost var s := Level();
      if ghosts[g].waiting > 0 {
        SetGhostAt(g, ghosts[g].(waiting := ghosts[g].waiting - 1));
        return command, ValidMove;
      }
      SetGhostAt(g, ghosts[g].(waiting := ghosts[g].passo));
      var direction := command.command;
      if direction == 'R' {
        direction := Compass(rnd);
      }
      assert direction == Resolve(command.command, rnd);
      cmd, out := PlayGhost(g, command, direction);
      TwiceSet(s, g);
    }

    /** One loop turn of a ghost thread under the board lock. */
    method GhostThreadTurn(g: int, rnd: nat) returns (out: Outcome)
      requires Valid() && 0 <= g < ghosts.Length
      modifies this`pac, cells, ghosts
      ensures Valid() && Result(Level(), out) == GhostCallOn(old(Level()), g, rnd)
    {
      var k := ghosts[g].currentMove % |ghosts[g].moves|;
      var cmd;
      cmd, out := MoveGhost(g, ghosts[g].moves[k], rnd);
      SetGhostAt(g, ghosts[g].(moves := ghosts[g].moves[k := cmd]));
    }

    /** The tail of `move_pacman`, once the new coordinates are known. */
    method StepPacman(ghost direction: char, newX: int, newY: int) returns (out: Outcome)
      requires Valid() && newX == StepX(pac.x, direction) && newY == StepY(pac.y, direction)
      modifies this`pac, cells
      ensures Valid() && Result(Level(), out) == PacmanStep(old(Level()), direction)
    {
      if !IsValid(newX, newY) {
        return InvalidMove;
      }
      var newIndex := Index(width, height, newX, newY);
      var oldIndex := Index(width, height, pac.x, pac.y);
      var target := cells[newIndex].content;
      if cells[newIndex].hasPortal {
        SetContentAt(oldIndex, ' ');
        SetContentAt(newIndex, 'P');
        return ReachedPortal;
      }
      if target == 'W' {
        return InvalidMove;
      }
      if target == 'M' {
        KillThePacman();
        return DeadPacman;
      }
      if cells[newIndex].hasDot {
        pac := pac.(points := pac.points + 1);
        cells[newIndex] := cells[newIndex].(hasDot := false);
      }
      SetContentAt(oldIndex, ' ');
      pac := pac.(x := newX, y := newY);
      SetContentAt(newIndex, 'P');
      out := ValidMove;
      assert cells[..] == PacmanStep(old(Level()), direction).s.cells;
    }

    /** 'T' in `move_pacman`: count the command down. */
    method WaitPacman(command: Command) returns (cmd: Command)
      requires Valid()
      modifies this`pac
      ensures Valid() && cmd == CountDown(command)
      ensures Level() == old(Level()).(pac := old(pac).(currentMove := old(pac).currentMove + Advance(command)))
    {
      cmd := command;
      if cmd.turnsLeft == 1 {
        pac := pac.(currentMove := pac.currentMove + 1);
        cmd := cmd.(turnsLeft := cmd.turns);
      } else {
        cmd := cmd.(turnsLeft := cmd.turnsLeft - 1);
      }
    }

    /** The rest of `move_pacman` for a live pacman that is done waiting and whose direction is known. */
    method PlayPacman(command: Command, direction: char) returns (cmd: Command, out: Outcome)
      requires Valid()
      modifies this`pac, cells
      ensures Valid()
      ensures direction == 'T' ==>
                && cmd == CountDown(command) && out == ValidMove
                && Level() == old(Level()).(pac := old(pac).(currentMove := old(pac).currentMove + Advance(command)))
      ensures direction != 'T' && !IsDirection(direction) ==>
                cmd == command && out == InvalidMove && Level() == old(Level())
      ensures IsDirection(direction) ==>
                && cmd == command
                && Result(Level(), out) ==
                   PacmanStep(old(Level()).(pac := old(pac).(currentMove := old(pac).currentMove + 1)), direction)
    {
      cmd := command;
      var newX, newY := pac.x, pac.y;
      match direction {
        case 'W' => newY := newY - 1;
        case 'S' => newY := newY + 1;
        case 'A' => newX := newX - 1;
        case 'D' => newX := newX + 1;
        case 'T' =>
          cmd := WaitPacman(command);
          return cmd, ValidMove;
        case _ =>
          return cmd, InvalidMove;
      }
      pac := pac.(currentMove := pac.currentMove + 1);
      out := StepPacman(direction, newX, newY);
    }

    method MovePacman(index: int, command: Command, rnd: nat) returns (cmd: Command, out: Outcome)
      requires Valid() && index < 1
      modifies this`pac, cells
      ensures Valid()
      ensures index < 0 ==> Level() == old(Level()) && cmd == command && out == DeadPacman
      ensures index >= 0 ==> Turn(Level(), cmd, out) == PacmanTurn(old(Level()), command, rnd)
    {
      if index < 0 || !pac.alive {
        return command, DeadPacman;
      }
      if pac.waiting > 0 {
        pac := pac.(waiting := pac.waiting - 1);
        return command, ValidMove;
      }
      pac := pac.(waiting := pac.passo);
      var direction := command.command;
      if direction == 'R' {
        direction := Compass(rnd);
      }
      cmd, out := PlayPacman(command, direction);
    }
  }
}
