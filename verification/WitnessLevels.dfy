/**
  The two levels of `ThreadWitness`, and the lines and files that the loader makes them from. What
  the line buffer held before does not matter.
 */
module WitnessLevels {
  import opened Maze
  import opened ScriptParser
  import opened AgentFiles
  import opened Loader

  // ----- the corridor

  /** One row: the pacman, the portal, a ghost. */
  function Corridor(): State {
    State(3, 1, [Cell('P', true, false), Cell(' ', false, true), Cell('M', true, false)],
          Pacman(0, 0, true, 0, 0, 0, 0), [Ghost(2, 0, 0, 0, 0, false, [Command('A', 1, 0)])])
  }

  const CORRIDOR_LINES: seq<Line> := ["o@o"]
  const CORRIDOR_GHOSTS := [AgentFile([PosLine(2, 0)], [['A']])]

  /** Cells with dots, as the grid's lines leave them. */
  function Floor(): Cell {
    Cell(' ', true, false)
  }

  function CorridorGrid(): seq<Cell> {
    [Floor(), Cell(' ', false, true), Floor()]
  }

  /** A line that fills the width is shown as it is. */
  lemma FirstRow(buffer: Buffer, lines: seq<Line>)
    requires lines != [] && lines[0] != []
    ensures Rows(buffer, lines) == [Overwrite(buffer, lines[0])] + Rows(Overwrite(buffer, lines[0]), lines[1..])
    ensures forall x :: 0 <= x < |lines[0]| ==> Overwrite(buffer, lines[0])[x] == lines[0][x]
  {
  }

  lemma CorridorRows(buffer: Buffer)
    ensures IsGrid(CorridorGrid(), 3, 1, Rows(buffer, CORRIDOR_LINES))
    ensures !GridHangs(Rows(buffer, CORRIDOR_LINES), 1)
  {
    FirstRow(buffer, CORRIDOR_LINES);
    assert CORRIDOR_LINES[1..] == [];
  }

  lemma CorridorFile()
    ensures FilesIn(3, 1, CORRIDOR_GHOSTS) && ScriptOf(CORRIDOR_GHOSTS[0]).Read?
    ensures GhostOf(CORRIDOR_GHOSTS[0]) == Corridor().ghosts[0]
  {
    OneLetter('A');
    assert [PosLine(2, 0)][..0] == [];
  }

  lemma CorridorCells()
    ensures FirstFree(CorridorGrid(), 0) == 0 && FilesIn(3, 1, CORRIDOR_GHOSTS)
    ensures StampAll(PlacePacman(CorridorGrid(), 3, 1, NoFile), 3, 1, CORRIDOR_GHOSTS) == Corridor().cells
  {
    var placed := PlacePacman(CorridorGrid(), 3, 1, NoFile);
    OneStamp(placed, 3, 1, 2, 0, 'M');
    assert CORRIDOR_GHOSTS[..0] == [];
    assert StampAll(placed, 3, 1, CORRIDOR_GHOSTS[..0]) == placed;
  }

  lemma CorridorPacman()
    requires FirstFree(CorridorGrid(), 0) == 0
    ensures PacmanLoaded(Corridor().pac, CorridorGrid(), 3, 1, NoFile, 0)
  {
    hide FirstFree;
  }

  lemma CorridorIsLoaded(buffer: Buffer)
    ensures IsLoaded(Corridor(), CorridorGrid(), NoFile, CORRIDOR_GHOSTS)
    ensures IsGrid(CorridorGrid(), 3, 1, Rows(buffer, CORRIDOR_LINES)) && !GridHangs(Rows(buffer, CORRIDOR_LINES), 1)
  {
    hide ScriptOf, StampAll, PlacePacman, FirstFree, GhostOf, PacmanLoaded, FilesIn;
    CorridorRows(buffer);
    CorridorFile();
    CorridorCells();
    CorridorPacman();
    LoadedFrom(Corridor(), CorridorGrid(), CORRIDOR_GHOSTS);
  }

  // ----- the hall

  /** Two rows of dots, a ghost at each end of the upper one, the pacman below. */
  function Hall(): State {
    State(3, 2,
          [Cell('M', true, false), Cell(' ', true, false), Cell('M', true, false),
           Cell('P', true, false), Cell(' ', true, false), Cell(' ', true, false)],
          Pacman(0, 1, true, 0, 0, 0, 0),
          [Ghost(0, 0, 0, 0, 0, false, [Command('C', 1, 0), Command('D', 1, 0)]),
           Ghost(2, 0, 0, 0, 0, false, [Command('C', 1, 0), Command('A', 1, 0)])])
  }

  const HALL_PACMAN := HasFile(AgentFile([PosLine(0, 1)], []))
  const HALL_GHOSTS := [AgentFile([PosLine(0, 0)], [['C'], ['D']]), AgentFile([PosLine(2, 0)], [['C'], ['A']])]

  const HALL_LINES: seq<Line> := ["ooo", "ooo"]

  function HallGrid(): seq<Cell> {
    [Floor(), Floor(), Floor(), Floor(), Floor(), Floor()]
  }

  lemma HallRows(buffer: Buffer)
    ensures IsGrid(HallGrid(), 3, 2, Rows(buffer, HALL_LINES)) && !GridHangs(Rows(buffer, HALL_LINES), 2)
  {
    var last: seq<Line> := ["ooo"];
    FirstRow(buffer, HALL_LINES);
    assert HALL_LINES[1..] == last;
    FirstRow(Overwrite(buffer, "ooo"), last);
    assert last[1..] == [];
  }

  lemma HallFiles()
    ensures PacmanIn(3, 2, HALL_PACMAN) && FilesIn(3, 2, HALL_GHOSTS)
    ensures ScriptOf(HALL_GHOSTS[0]).Read? && GhostOf(HALL_GHOSTS[0]) == Hall().ghosts[0]
    ensures ScriptOf(HALL_GHOSTS[1]).Read? && GhostOf(HALL_GHOSTS[1]) == Hall().ghosts[1]
  {
    TwoLetters('C', 'D');
    TwoLetters('C', 'A');
    assert [PosLine(0, 0)][..0] == [] && [PosLine(2, 0)][..0] == [];
  }

  lemma HallCells(grid: seq<Cell>)
    requires grid == [Floor(), Floor(), Floor(), Floor(), Floor(), Floor()]
    ensures PacmanIn(3, 2, HALL_PACMAN) && FilesIn(3, 2, HALL_GHOSTS)
    ensures StampAll(PlacePacman(grid, 3, 2, HALL_PACMAN), 3, 2, HALL_GHOSTS) == Hall().cells
  {
    var placed := PlacePacman(grid, 3, 2, HALL_PACMAN);
    OneStamp(grid, 3, 2, 0, 1, 'P');
    var first := placed[0 := placed[0].(content := 'M')];
    OneStamp(placed, 3, 2, 0, 0, 'M');
    OneStamp(first, 3, 2, 2, 0, 'M');
    assert HALL_GHOSTS[..1][..0] == [] && HALL_GHOSTS[..1] == [HALL_GHOSTS[0]];
    assert StampAll(placed, 3, 2, []) == placed;
    assert StampAll(placed, 3, 2, HALL_GHOSTS[..1]) == first;
  }

  lemma HallPacman(grid: seq<Cell>)
    requires |grid| == 6
    ensures PacmanIn(3, 2, HALL_PACMAN) && PacmanLoaded(Hall().pac, grid, 3, 2, HALL_PACMAN, 0)
  {
    assert [PosLine(0, 1)][..0] == [];
  }

  lemma HallIsLoaded(buffer: Buffer)
    ensures IsLoaded(Hall(), HallGrid(), HALL_PACMAN, HALL_GHOSTS)
    ensures IsGrid(HallGrid(), 3, 2, Rows(buffer, HALL_LINES)) && !GridHangs(Rows(buffer, HALL_LINES), 2)
  {
    hide ScriptOf, StampAll, PlacePacman, GhostOf, PacmanLoaded, FilesIn, PacmanIn;
    HallRows(buffer);
    HallFiles();
    HallCells(HallGrid());
    HallPacman(HallGrid());
  }
}
