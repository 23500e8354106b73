/**
  Loading a level: the grid lines fill the cells, the pacman takes the position in its file or the
  first free cell in row-major order, and the ghosts' files mark theirs. It is stated exactly when
  loading ends, when the result can be played, when it agrees with its agents, and when no agent
  stands on a wall.
 */
module Loader {
  import opened Maze
  import opened Agreement
  import opened Charge
  import opened Walks
  import opened ScriptParser
  import opened AgentFiles

  // ----- what the loaded level must be

  /** A cell no line has filled: the memory was cleared. */
  const UNSET := Cell('\0', false, false)

  function GridCell(ch: char): Cell {
    if ch == 'X' then Cell('W', false, false)
    else if ch == '@' then Cell(' ', false, true)
    else Cell(' ', true, false)
  }

  const MAX_COMMAND_LENGTH: nat := 256

  /** The line buffer of the parser, which is never cleared. */
  type Buffer = b: seq<char> | |b| == MAX_COMMAND_LENGTH witness seq(MAX_COMMAND_LENGTH, i => ' ')

  /** A line as `read_line` splits the file: it fits the buffer with its final zero. */
  type Line = l: string | |l| < MAX_COMMAND_LENGTH

  /** `read_line`: the new line and a zero over the front of what the buffer held. */
  function Overwrite(buffer: Buffer, line: Line): Buffer {
    line + ['\0'] + buffer[|line| + 1..]
  }

  /** The buffer at each line, up to an empty line, which the loop takes for the end of the file. */
  function Rows(buffer: Buffer, lines: seq<Line>): seq<Buffer>
    decreases |lines|
  {
    if lines == [] || lines[0] == [] then []
    else
      var b := Overwrite(buffer, lines[0]);
      [b] + Rows(b, lines[1..])
  }

  /** A row shows its line; past the line's end it still shows what was read before. */
  lemma {:induction false} RowShowsLine(buffer: Buffer, lines: seq<Line>, y: nat, x: nat)
    requires y < |Rows(buffer, lines)| && x < 256
    ensures y < |lines|
    ensures Rows(buffer, lines)[y][x] ==
            if x < |lines[y]| then lines[y][x]
            else if x == |lines[y]| then '\0'
            else if y == 0 then buffer[x]
            else Rows(buffer, lines)[y - 1][x]
    decreases |lines|
  {
    if y > 0 {
      RowShowsLine(Overwrite(buffer, lines[0]), lines[1..], y - 1, x);
    }
  }

  lemma {:induction false} RowsSoFar(buffer: Buffer, lines: seq<Line>, k: nat)
    requires k < |lines| && lines[k] != [] && k <= |Rows(buffer, lines)|
    ensures k < |Rows(buffer, lines)|
    ensures Rows(buffer, lines)[k] == Overwrite(if k == 0 then buffer else Rows(buffer, lines)[k - 1], lines[k])
    decreases |lines|
  {
    if k > 0 {
      RowsSoFar(Overwrite(buffer, lines[0]), lines[1..], k - 1);
    }
  }

  lemma {:induction false} RowsEnd(buffer: Buffer, lines: seq<Line>, k: nat)
    requires k == |lines| || (k < |lines| && lines[k] == [])
    requires k <= |Rows(buffer, lines)|
    ensures k == |Rows(buffer, lines)|
    decreases |lines|
  {
    if k > 0 {
      RowsEnd(Overwrite(buffer, lines[0]), lines[1..], k - 1);
    }
  }

  /** The cells that the rows describe; rows beyond the last stay unset. */
  ghost predicate IsGrid(cells: seq<Cell>, width: int, height: int, rows: seq<Buffer>)
    requires width <= MAX_COMMAND_LENGTH
  {
    && |cells| == width * height
    && forall x, y :: 0 <= x < width && 0 <= y < height ==>
         cells[Index(width, height, x, y)] == if y < |rows| then GridCell(rows[y][x]) else UNSET
  }

  predicate IsComment(row: Buffer) {
    row[0] == '#' || row[0] == '\0'
  }

  /** Reading stops for ever at a comment line, up to and including the line after the grid. */
  ghost predicate GridHangs(rows: seq<Buffer>, height: int) {
    exists i :: 0 <= i < |rows| && i <= height && rows[i][0] in {'#', '\0'}
  }

  /** The first free cell, or the number of cells. */
  function FirstFree(cells: seq<Cell>, from: nat): (i: nat)
    requires from <= |cells|
    ensures from <= i <= |cells|
    ensures forall k :: from <= k < i ==> cells[k].content != ' '
    ensures i < |cells| ==> cells[i].content == ' '
    decreases |cells| - from
  {
    if from == |cells| || cells[from].content == ' ' then from else FirstFree(cells, from + 1)
  }

  /** The pacman's file, which is optional. */
  datatype PacmanFile = NoFile | HasFile(file: AgentFile)

  predicate PacmanIn(width: int, height: int, pf: PacmanFile) {
    width > 0 && height > 0 && (pf.HasFile? ==> HeaderIn(width, height, pf.file.header))
  }

  /** Where the pacman's letter is stamped: its file's positions, or by default the first free cell. */
  ghost predicate PacmanNamed(grid: seq<Cell>, width: int, height: int, pf: PacmanFile, c: int)
    requires PacmanIn(width, height, pf)
  {
    if pf.NoFile? then c == FirstFree(grid, 0) < |grid| else Names(width, height, pf.file.header, c)
  }

  function PlacePacman(grid: seq<Cell>, width: int, height: int, pf: PacmanFile): (placed: seq<Cell>)
    requires |grid| == width * height && PacmanIn(width, height, pf)
    ensures |placed| == |grid|
  {
    if pf.HasFile? then Stamp(grid, width, height, pf.file.header, 'P')
    else
      var i := FirstFree(grid, 0);
      if i < |grid| then grid[i := grid[i].(content := 'P')] else grid
  }

  /** The pacman's record: from its file, or on the first free cell, or at (0,0) when there is none. */
  predicate PacmanLoaded(pac: Pacman, grid: seq<Cell>, width: int, height: int, pf: PacmanFile, points: int)
    requires |grid| == width * height && PacmanIn(width, height, pf)
  {
    && pac.alive && pac.points == points && pac.currentMove == 0 && pac.waiting == pac.passo
    && 0 <= pac.x < width && 0 <= pac.y < height
    && if pf.HasFile? then Place(pac.x, pac.y, pac.passo) == PlaceOf(pf.file.header)
       else
         && pac.passo == 0
         && if FirstFree(grid, 0) < |grid| then Index(width, height, pac.x, pac.y) == FirstFree(grid, 0)
            else pac.x == 0 && pac.y == 0
  }

  /** The level that the grid and the agents' files make. */
  ghost predicate IsLoaded(s: State, grid: seq<Cell>, pf: PacmanFile, files: seq<AgentFile>) {
    && |grid| == s.width * s.height && PacmanIn(s.width, s.height, pf) && FilesIn(s.width, s.height, files)
    && s.cells == StampAll(PlacePacman(grid, s.width, s.height, pf), s.width, s.height, files)
    && PacmanLoaded(s.pac, grid, s.width, s.height, pf, s.pac.points)
    && |s.ghosts| == |files|
    && forall g :: 0 <= g < |files| ==> ScriptOf(files[g]).Read? && s.ghosts[g] == GhostOf(files[g])
  }

  // ----- the lemmas

  /** Every loaded agent has what its own file says; a pacman without a file waits for nothing. */
  lemma LoadedAsFilesSay(s: State, grid: seq<Cell>, pf: PacmanFile, files: seq<AgentFile>)
    requires IsLoaded(s, grid, pf, files)
    ensures forall g :: 0 <= g < |files| ==>
              var gh := s.ghosts[g];
              && AsHeaderSays(files[g].header, gh.x, gh.y, gh.passo, gh.waiting)
              && !gh.charged && gh.currentMove == 0
              && gh.moves == Parse(GHOST_LETTERS, files[g].lines, 20).moves
    ensures pf.HasFile? ==> AsHeaderSays(pf.file.header, s.pac.x, s.pac.y, s.pac.passo, s.pac.waiting)
    ensures pf.NoFile? ==> s.pac.passo == 0 && s.pac.waiting == 0
    ensures s.pac.alive && s.pac.currentMove == 0
  {
    forall g | 0 <= g < |files|
      ensures var gh := s.ghosts[g];
              && AsHeaderSays(files[g].header, gh.x, gh.y, gh.passo, gh.waiting)
              && !gh.charged && gh.currentMove == 0
              && gh.moves == Parse(GHOST_LETTERS, files[g].lines, 20).moves
    {
      GhostAsFileSays(files[g]);
    }
    if pf.HasFile? {
      PassoIsLast(pf.file.header);
      PositionIsLast(pf.file.header);
    }
  }

  /** A loaded level can be played, without a division by zero, exactly when every ghost has a move. */
  lemma PlayableExactly(s: State, grid: seq<Cell>, pf: PacmanFile, files: seq<AgentFile>)
    requires IsLoaded(s, grid, pf, files)
    ensures WellFormed(s) <==> forall g :: 0 <= g < |files| ==> ScriptOf(files[g]).moves != []
  {
    forall g | 0 <= g < |files| ensures IsValidPosition(s, s.ghosts[g].x, s.ghosts[g].y) {
      PlaceInside(s.width, s.height, files[g].header);
    }
    assert forall g :: 0 <= g < |files| ==> s.ghosts[g].moves == ScriptOf(files[g]).moves;
  }

  /** A fresh grid has neither ghosts nor a pacman on it. */
  predicate Fresh(grid: seq<Cell>) {
    forall c :: 0 <= c < |grid| ==> grid[c].content in {' ', 'W', '\0'}
  }

  lemma GridIsFresh(cells: seq<Cell>, width: int, height: int, rows: seq<Buffer>)
    requires 0 < width <= MAX_COMMAND_LENGTH && height > 0 && IsGrid(cells, width, height, rows)
    ensures Fresh(cells)
  {
    forall c | 0 <= c < |cells| ensures cells[c].content in {' ', 'W', '\0'} {
      var x, y := CellAt(width, height, c);
    }
  }

  /** Every index is that of a cell. */
  lemma CellAt(width: int, height: int, c: int) returns (x: int, y: int)
    requires width > 0 && height > 0 && 0 <= c < width * height
    ensures 0 <= x < width && 0 <= y < height && Index(width, height, x, y) == c
  {
    x, y := c % width, c / width;
    assert c == y * width + x;
    assert y * width < height * width;
    LessByFactor(y, height, width);
  }

  lemma LessByFactor(a: int, b: int, w: int)
    requires w > 0 && a * w < b * w
    ensures a < b
  {
  }

  ghost predicate Apart(s: State)
    requires WellFormed(s)
  {
    forall g, h :: 0 <= g < h < |s.ghosts| ==> (s.ghosts[g].x, s.ghosts[g].y) != (s.ghosts[h].x, s.ghosts[h].y)
  }

  lemma ApartIsGhostsApart(s: State)
    requires WellFormed(s)
    ensures Apart(s) <==> GhostsApart(s)
  {
    forall g, h | 0 <= g < h < |s.ghosts|
      ensures GhostIndex(s, g) == GhostIndex(s, h)
              <==> s.ghosts[g].x == s.ghosts[h].x && s.ghosts[g].y == s.ghosts[h].y
    {
      IndexInjective(s.width, s.height, s.ghosts[g].x, s.ghosts[g].y, s.ghosts[h].x, s.ghosts[h].y);
    }
  }

  /** Every cell of the loaded level. */
  lemma LoadedCells(s: State, grid: seq<Cell>, pf: PacmanFile, files: seq<AgentFile>, c: int)
    requires IsLoaded(s, grid, pf, files) && 0 <= c < |s.cells|
    ensures s.cells[c] == grid[c].(content := if Marked(s.width, s.height, files, c) then 'M'
                                              else if PacmanNamed(grid, s.width, s.height, pf, c) then 'P'
                                              else grid[c].content)
  {
    MarkedCell(PlacePacman(grid, s.width, s.height, pf), s.width, s.height, files, c);
    if pf.HasFile? {
      StampedCell(grid, s.width, s.height, pf.file.header, 'P', c);
    }
  }

  /**
    Loading establishes agreement exactly when the ghosts' last positions are apart, every position
    in their files is some ghost's last one and the other way round, and among the positions given
    to the pacman exactly its last one is not a ghost's.
   */
  lemma LoadedAgreesExactly(s: State, grid: seq<Cell>, pf: PacmanFile, files: seq<AgentFile>)
    requires IsLoaded(s, grid, pf, files) && WellFormed(s) && Fresh(grid)
    ensures Agree(s) <==>
            && Apart(s)
            && (forall c :: 0 <= c < |s.cells| ==> (Marked(s.width, s.height, files, c) <==> OwnedByGhost(s, c)))
            && (forall c :: 0 <= c < |s.cells| ==>
                 (PacmanNamed(grid, s.width, s.height, pf, c) && !Marked(s.width, s.height, files, c)
                  <==> c == PacIndex(s)))
  {
    ApartIsGhostsApart(s);
    forall c | 0 <= c < |s.cells|
      ensures s.cells[c].content == 'M' <==> Marked(s.width, s.height, files, c)
      ensures s.cells[c].content == 'P' <==>
              PacmanNamed(grid, s.width, s.height, pf, c) && !Marked(s.width, s.height, files, c)
    {
      LoadedCells(s, grid, pf, files, c);
    }
    AgreeByLetters(s);
  }

  /** Agreement, letter by letter. */
  lemma AgreeByLetters(s: State)
    requires WellFormed(s) && s.pac.alive
    ensures Agree(s) <==>
            && GhostsApart(s)
            && (forall c :: 0 <= c < |s.cells| ==> (s.cells[c].content == 'M' <==> OwnedByGhost(s, c)))
            && (forall c :: 0 <= c < |s.cells| ==> (s.cells[c].content == 'P' <==> c == PacIndex(s)))
  {
    assert GhostsMarked(s) <==> forall c :: 0 <= c < |s.cells| && OwnedByGhost(s, c) ==> s.cells[c].content == 'M' by {
      forall g | 0 <= g < |s.ghosts| ensures OwnedByGhost(s, GhostIndex(s, g)) {
      }
    }
  }

  /** With one position in each ghost's file and the default pacman: a free cell, and all agents apart. */
  lemma DefaultAgreesExactly(s: State, grid: seq<Cell>, files: seq<AgentFile>)
    requires IsLoaded(s, grid, NoFile, files) && WellFormed(s) && Fresh(grid)
    requires forall g :: 0 <= g < |files| ==> OnePosition(files[g].header)
    ensures Agree(s) <==>
            FirstFree(grid, 0) < |grid| && Apart(s) && !OwnedByGhost(s, FirstFree(grid, 0))
  {
    hide Agree, StampAll, Marked, OwnedByGhost, PlacePacman, Apart, OnePosition, FirstFree;
    LoadedAgreesExactly(s, grid, NoFile, files);
    forall c | 0 <= c < |s.cells| ensures Marked(s.width, s.height, files, c) <==> OwnedByGhost(s, c) {
      MarkedIsOwned(s, grid, files, c);
    }
    var n, p := FirstFree(grid, 0), PacIndex(s);
    assert n < |grid| ==> n == p;
    assert PacmanNamed(grid, s.width, s.height, NoFile, p) <==> n < |grid|;
  }

  lemma MarkedIsOwned(s: State, grid: seq<Cell>, files: seq<AgentFile>, c: int)
    requires IsLoaded(s, grid, NoFile, files) && WellFormed(s)
    requires forall g :: 0 <= g < |files| ==> OnePosition(files[g].header)
    ensures Marked(s.width, s.height, files, c) <==> OwnedByGhost(s, c)
  {
    forall g | 0 <= g < |files|
      ensures Names(s.width, s.height, files[g].header, c) <==> c == GhostIndex(s, g)
    {
      OnePositionNamed(s.width, s.height, files[g].header, c);
    }
    if Marked(s.width, s.height, files, c) {
      var g :| 0 <= g < |files| && Names(s.width, s.height, files[g].header, c);
      assert GhostIndex(s, g) == c;
    }
    if OwnedByGhost(s, c) {
      var g :| 0 <= g < |s.ghosts| && GhostIndex(s, g) == c;
      assert Names(s.width, s.height, files[g].header, c);
    }
  }

  /** Walls are exactly the 'X' cells where no agent was put, portals the '@' cells, and all other cells have dots. */
  lemma LoadedMaze(s: State, grid: seq<Cell>, pf: PacmanFile, files: seq<AgentFile>, rows: seq<Buffer>, x: int, y: int)
    requires s.width <= MAX_COMMAND_LENGTH && IsLoaded(s, grid, pf, files) && WellFormed(s)
    requires IsGrid(grid, s.width, s.height, rows) && IsValidPosition(s, x, y) && y < |rows|
    ensures var c := Index(s.width, s.height, x, y);
            At(s, x, y).content == 'W' <==>
            rows[y][x] == 'X' && !Marked(s.width, s.height, files, c) && !PacmanNamed(grid, s.width, s.height, pf, c)
    ensures At(s, x, y).hasPortal <==> rows[y][x] == '@'
    ensures At(s, x, y).hasDot <==> rows[y][x] != 'X' && rows[y][x] != '@'
  {
    LoadedCells(s, grid, pf, files, Index(s.width, s.height, x, y));
  }

  /** With a row for every line of the board no cell is left unset, so charges meet only blank cells on their way. */
  lemma LoadedIsPlain(s: State, grid: seq<Cell>, pf: PacmanFile, files: seq<AgentFile>, rows: seq<Buffer>)
    requires s.width <= MAX_COMMAND_LENGTH && IsLoaded(s, grid, pf, files) && WellFormed(s)
    requires IsGrid(grid, s.width, s.height, rows) && s.height <= |rows|
    ensures PlainContents(s)
  {
    forall c | 0 <= c < |s.cells| ensures s.cells[c].content in {' ', 'W', 'M', 'P'} {
      var x, y := CellAt(s.width, s.height, c);
      LoadedCells(s, grid, pf, files, c);
    }
  }

  /** Something was put on cell c, or the grid has no wall there. */
  ghost predicate Standable(s: State, grid: seq<Cell>, pf: PacmanFile, files: seq<AgentFile>, c: int)
    requires IsLoaded(s, grid, pf, files) && 0 <= c < |grid|
  {
    Marked(s.width, s.height, files, c) || PacmanNamed(grid, s.width, s.height, pf, c) || grid[c].content != 'W'
  }

  /** Loading puts no agent on a wall exactly when that holds of the agents' cells. */
  lemma LoadedGroundedExactly(s: State, grid: seq<Cell>, pf: PacmanFile, files: seq<AgentFile>, rows: seq<Buffer>)
    requires s.width <= MAX_COMMAND_LENGTH && IsLoaded(s, grid, pf, files) && WellFormed(s)
    requires IsGrid(grid, s.width, s.height, rows)
    ensures Grounded(s) <==>
            && Standable(s, grid, pf, files, PacIndex(s))
            && forall g :: 0 <= g < |s.ghosts| ==> Standable(s, grid, pf, files, GhostIndex(s, g))
  {
    forall c | 0 <= c < |s.cells|
      ensures s.cells[c].content != 'W' <==> Standable(s, grid, pf, files, c)
      ensures s.cells[c].hasPortal ==> s.cells[c].content != 'W'
    {
      var x, y := CellAt(s.width, s.height, c);
      LoadedCells(s, grid, pf, files, c);
    }
  }

  /** A loaded level that agrees with its agents has none of them on a wall, nor a portal in one. */
  lemma LoadedAgreesIsGrounded(s: State, grid: seq<Cell>, pf: PacmanFile, files: seq<AgentFile>, rows: seq<Buffer>)
    requires s.width <= MAX_COMMAND_LENGTH && IsLoaded(s, grid, pf, files) && Agree(s)
    requires IsGrid(grid, s.width, s.height, rows)
    ensures Grounded(s)
  {
    forall c | 0 <= c < |s.cells| && s.cells[c].hasPortal ensures s.cells[c].content != 'W' {
      LoadedCells(s, grid, pf, files, c);
      var x, y := CellAt(s.width, s.height, c);
    }
    AgreeingIsGrounded(s);
  }

  // ----- the code

  /** The first k rows are filled in, and no other. */
  ghost predicate Filled(cells: seq<Cell>, width: int, height: int, rows: seq<Buffer>, k: nat)
    requires width <= MAX_COMMAND_LENGTH && |cells| == width * height && k <= |rows|
  {
    forall x, y :: 0 <= x < width && 0 <= y < height ==>
      cells[Index(width, height, x, y)] == if y < k then GridCell(rows[y][x]) else UNSET
  }

  /** The grid loop of `read_level`; `hang` stands for its endless `continue` on a comment line. */
  method ReadGrid(width: int, height: int, buffer: Buffer, lines: seq<Line>) returns (hang: bool, cells: array<Cell>)
    requires 0 < width <= MAX_COMMAND_LENGTH && height > 0
    ensures fresh(cells) && cells.Length == width * height
    ensures hang <==> GridHangs(Rows(buffer, lines), height)
    ensures !hang ==> IsGrid(cells[..], width, height, Rows(buffer, lines))
  {
    assert width * height >= 0;
    cells := new Cell[width * height](i => UNSET);
    ghost var rows := Rows(buffer, lines);
    var command := buffer;
    var row := 0;
    while row < |lines| && lines[row] != []
      invariant 0 <= row <= |lines| && row <= height && row <= |rows|
      invariant command == if row == 0 then buffer else rows[row - 1]
      invariant forall i :: 0 <= i < row ==> !IsComment(rows[i])
      invariant Filled(cells[..], width, height, rows, row)
    {
      RowsSoFar(buffer, lines, row);
      command := Overwrite(command, lines[row]);
      if IsComment(command) {
        return true, cells;
      }
      if row >= height {
        return false, cells;
      }
      ghost var before := cells[..];
      FillRow(cells, width, height, row, command);
      OneRowMore(before, cells[..], width, height, rows, row);
      row := row + 1;
    }
    RowsEnd(buffer, lines, row);
    hang := false;
  }

  ghost predicate RowFilled(before: seq<Cell>, after: seq<Cell>, width: int, height: int, row: int, line: Buffer)
    requires width <= MAX_COMMAND_LENGTH && |before| == |after| == width * height
  {
    forall x, y :: 0 <= x < width && 0 <= y < height ==>
      after[Index(width, height, x, y)] == if y == row then GridCell(line[x]) else before[Index(width, height, x, y)]
  }

  lemma OneRowMore(before: seq<Cell>, after: seq<Cell>, width: int, height: int, rows: seq<Buffer>, row: nat)
    requires width <= MAX_COMMAND_LENGTH && |before| == |after| == width * height && row < |rows|
    requires Filled(before, width, height, rows, row) && RowFilled(before, after, width, height, row, rows[row])
    ensures Filled(after, width, height, rows, row + 1)
  {
  }

  method FillRow(cells: array<Cell>, width: int, height: int, row: int, line: Buffer)
    requires 0 <= row < height && 0 < width <= MAX_COMMAND_LENGTH && cells.Length == width * height
    modifies cells
    ensures RowFilled(old(cells[..]), cells[..], width, height, row, line)
  {
    ghost var before := cells[..];
    var col := 0;
    while col < width
      invariant 0 <= col <= width
      invariant forall x, y :: 0 <= x < width && 0 <= y < height ==>
                  cells[Index(width, height, x, y)] ==
                  if y == row && x < col then GridCell(line[x]) else before[Index(width, height, x, y)]
    {
      var idx := Index(width, height, col, row);
      forall x, y | 0 <= x < width && 0 <= y < height
        ensures Index(width, height, x, y) == idx ==> x == col && y == row
      {
        IndexInjective(width, height, x, y, col, row);
      }
      match line[col] {
        case 'X' => cells[idx] := Cell('W', false, false);
        case '@' => cells[idx] := Cell(' ', false, true);
        case _ => cells[idx] := Cell(' ', true, false);
      }
      col := col + 1;
    }
  }

  /** `read_pacman`: from the file, or by default on the first free cell in row-major order, or at (0,0) unmarked. */
  method ReadPacman(cells: array<Cell>, width: int, height: int, points: int, pf: PacmanFile)
    returns (hang: bool, pac: Pacman)
    requires PacmanIn(width, height, pf) && cells.Length == width * height
    modifies cells
    ensures cells[..] == PlacePacman(old(cells[..]), width, height, pf)
    ensures hang <==> pf.HasFile? && Parse(PACMAN_LETTERS, pf.file.lines, MAX_MOVES).Hangs?
    ensures PacmanLoaded(pac, old(cells[..]), width, height, pf, points)
  {
    if pf.HasFile? {
      PlaceInside(width, height, pf.file.header);
      var place := ReadHeader(cells, width, height, pf.file.header, 'P');
      var stuck, moves := ReadMoves(PACMAN_LETTERS, pf.file.lines);
      return stuck, Pacman(place.x, place.y, true, points, place.passo, place.passo, 0);
    }
    hang := false;
    pac := FirstFreeCell(cells, width, height, points);
  }

  method FirstFreeCell(cells: array<Cell>, width: int, height: int, points: int) returns (pac: Pacman)
    requires width > 0 && height > 0 && cells.Length == width * height
    modifies cells
    ensures cells[..] == PlacePacman(old(cells[..]), width, height, NoFile)
    ensures PacmanLoaded(pac, old(cells[..]), width, height, NoFile, points)
  {
    ghost var grid := cells[..];
    pac := Pacman(0, 0, true, points, 0, 0, 0);
    var i := 0;
    while i < height
      invariant 0 <= i <= height && cells[..] == grid
      invariant 0 <= i * width <= |grid|
      invariant forall k :: 0 <= k < i * width ==> grid[k].content != ' '
    {
      var j := 0;
      RowEnds(width, height, i);
      while j < width
        invariant 0 <= j <= width && cells[..] == grid
        invariant forall k :: 0 <= k < i * width + j ==> grid[k].content != ' '
      {
        var idx := Index(width, height, j, i);
        if cells[idx].content == ' ' {
          pac := pac.(x := j, y := i);
          cells[idx] := cells[idx].(content := 'P');
          FirstFreeIs(grid, idx);
          return;
        }
        j := j + 1;
      }
      i := i + 1;
    }
    FirstFreeIs(grid, |grid|);
  }

  lemma RowEnds(width: int, height: int, i: int)
    requires 0 <= i < height && 0 < width
    ensures 0 <= i * width && (i + 1) * width == i * width + width <= width * height
  {
    assert width * height == i * width + width + (height - i - 1) * width;
    assert (height - i - 1) * width >= 0;
    assert i * width >= 0;
  }

  lemma FirstFreeIs(cells: seq<Cell>, i: nat)
    requires i <= |cells| && forall k :: 0 <= k < i ==> cells[k].content != ' '
    requires i < |cells| ==> cells[i].content == ' '
    ensures FirstFree(cells, 0) == i
  {
  }

  /** `load_level`. */
  method LoadLevel(width: int, height: int, buffer: Buffer, lines: seq<Line>, points: int, pf: PacmanFile,
                   files: seq<AgentFile>)
    returns (hang: bool, s: State, ghost grid: seq<Cell>)
    requires width <= MAX_COMMAND_LENGTH && PacmanIn(width, height, pf) && FilesIn(width, height, files)
    ensures hang <==>
            || GridHangs(Rows(buffer, lines), height)
            || (pf.HasFile? && Parse(PACMAN_LETTERS, pf.file.lines, MAX_MOVES).Hangs?)
            || SomeHangs(files)
    ensures !hang ==>
              && s.width == width && s.height == height && s.pac.points == points
              && IsLoaded(s, grid, pf, files) && IsGrid(grid, width, height, Rows(buffer, lines)) && Fresh(grid)
  {
    s := State(width, height, [], Pacman(0, 0, true, points, 0, 0, 0), []);
    var cells;
    hang, cells := ReadGrid(width, height, buffer, lines);
    grid := cells[..];
    if hang { return; }
    GridIsFresh(grid, width, height, Rows(buffer, lines));
    var pac;
    hang, pac := ReadPacman(cells, width, height, points, pf);
    if hang { return; }
    var ghosts;
    hang, ghosts := ReadGhosts(cells, width, height, files);
    if hang { return; }
    s := State(width, height, cells[..], pac, ghosts);
  }

  // ----- a grid with too few lines

  /** Four rows but one line: the pacman, a charging ghost below it, and two cells that no line has filled. */
  function Shaft(): State {
    State(1, 4, [Cell('P', true, false), Cell('M', false, false), UNSET, UNSET],
          Pacman(0, 0, true, 0, 0, 0, 0), [Ghost(0, 1, 0, 0, 0, false, [Command('C', 1, 0), Command('S', 1, 0)])])
  }

  const SHAFT_FILES := [AgentFile([PosLine(0, 1)], ["C", "S"])]

  lemma ShaftFile()
    ensures FilesIn(1, 4, SHAFT_FILES) && ScriptOf(SHAFT_FILES[0]).Read?
    ensures GhostOf(SHAFT_FILES[0]) == Shaft().ghosts[0]
  {
    TwoLetters('C', 'S');
    assert SHAFT_FILES[0].lines == [['C'], ['S']];
    assert [PosLine(0, 1)][..0] == [];
  }

  lemma ShaftRows(buffer: Buffer, grid: seq<Cell>)
    requires grid == [Cell(' ', true, false), UNSET, UNSET, UNSET]
    ensures IsGrid(grid, 1, 4, Rows(buffer, ["o"]))
  {
    assert Rows(buffer, ["o"]) == [Overwrite(buffer, "o")] by {
      assert ["o"][1..] == [];
    }
    assert Overwrite(buffer, "o")[0] == 'o';
  }

  lemma ShaftCells(grid: seq<Cell>)
    requires grid == [Cell(' ', true, false), UNSET, UNSET, UNSET]
    ensures FirstFree(grid, 0) == 0 && FilesIn(1, 4, SHAFT_FILES)
    ensures StampAll(PlacePacman(grid, 1, 4, NoFile), 1, 4, SHAFT_FILES) == Shaft().cells
  {
    var header := SHAFT_FILES[0].header;
    var placed := PlacePacman(grid, 1, 4, NoFile);
    assert placed == [Cell('P', true, false), UNSET, UNSET, UNSET];
    assert header[..0] == [] && SHAFT_FILES[..0] == [];
    assert Stamp(placed, 1, 4, [], 'M') == placed;
    assert Stamp(placed, 1, 4, header, 'M') == placed[1 := placed[1].(content := 'M')];
  }

  lemma ShaftPacman(grid: seq<Cell>)
    requires |grid| == 4 && FirstFree(grid, 0) == 0
    ensures PacmanLoaded(Pacman(0, 0, true, 0, 0, 0, 0), grid, 1, 4, NoFile, 0)
  {
    hide FirstFree;
  }

  lemma LoadedFrom(s: State, grid: seq<Cell>, files: seq<AgentFile>)
    requires |grid| == s.width * s.height && s.width > 0 && s.height > 0 && FilesIn(s.width, s.height, files)
    requires s.cells == StampAll(PlacePacman(grid, s.width, s.height, NoFile), s.width, s.height, files)
    requires PacmanLoaded(s.pac, grid, s.width, s.height, NoFile, s.pac.points)
    requires |s.ghosts| == |files| == 1 && ScriptOf(files[0]).Read? && s.ghosts[0] == GhostOf(files[0])
    ensures IsLoaded(s, grid, NoFile, files)
  {
    hide ScriptOf, StampAll, PlacePacman, FirstFree, GhostOf, PacmanLoaded, FilesIn;
  }

  lemma ShaftIsLoaded(buffer: Buffer) returns (grid: seq<Cell>)
    ensures IsLoaded(Shaft(), grid, NoFile, SHAFT_FILES) && IsGrid(grid, 1, 4, Rows(buffer, ["o"]))
  {
    grid := [Cell(' ', true, false), UNSET, UNSET, UNSET];
    ShaftFile();
    ShaftCells(grid);
    ShaftRows(buffer, grid);
    ShaftPacman(grid);
    LoadedFrom(Shaft(), grid, SHAFT_FILES);
  }

  /** On a level that one line too few loads, a ghost's scripted charge and the iterated steps part. */
  lemma ShortGridChargeDiffers(buffer: Buffer) returns (s: State, grid: seq<Cell>)
    ensures IsLoaded(s, grid, NoFile, SHAFT_FILES) && IsGrid(grid, 1, 4, Rows(buffer, ["o"]))
    ensures Agree(s) && |s.ghosts| == 1
    ensures var t := GhostCallOn(s, 0, 0).s;
            && t.ghosts[0].charged && Slot(t.ghosts[0]) == 1 && t.ghosts[0].moves[1].command == 'S'
            && Agree(t)
            && GhostCharge(t, 0, 'S').s != Iterated(SetGhost(t, 0, t.ghosts[0].(charged := false)), 0, 'S').s
  {
    s := Shaft();
    grid := ShaftIsLoaded(buffer);
    ShaftAgrees();
    GhostCallKeepsAgree(s, 0, 0);
    ShaftAfterC();
    ChargeIsIteratedSteps(GhostCallOn(s, 0, 0).s, 0, 'S');
  }

  lemma ShaftAgrees()
    ensures Agree(Shaft())
  {
    ColumnAgrees(Shaft());
  }

  /** A column of four: the pacman, a ghost, two cells left unset. */
  predicate Column(s: State) {
    && WellFormed(s) && s.width == 1 && s.height == 4 && |s.cells| == 4 && |s.ghosts| == 1
    && s.pac.alive && s.pac.x == 0 && s.pac.y == 0 && s.ghosts[0].x == 0 && s.ghosts[0].y == 1
    && s.cells[0].content == 'P' && s.cells[1].content == 'M'
    && s.cells[2].content == '\0' && s.cells[3].content == '\0'
  }

  lemma ColumnIndices(s: State)
    requires Column(s)
    ensures PacIndex(s) == 0 && GhostIndex(s, 0) == 1
  {
  }

  lemma OnlyOwner(s: State, c: int)
    requires WellFormed(s) && |s.ghosts| == 1
    ensures OwnedByGhost(s, c) <==> c == GhostIndex(s, 0)
  {
  }

  lemma ColumnAgrees(s: State)
    requires Column(s)
    ensures Agree(s)
  {
    hide Agree, PacIndex, GhostIndex, OwnedByGhost;
    ColumnIndices(s);
    forall c | 0 <= c < |s.cells|
      ensures s.cells[c].content == 'M' <==> OwnedByGhost(s, c)
      ensures s.cells[c].content == 'P' <==> c == PacIndex(s)
    {
      OnlyOwner(s, c);
    }
    AgreeByLetters(s);
  }

  lemma ShaftAfterC()
    ensures var t := GhostCallOn(Shaft(), 0, 0).s;
            && t == SetGhost(Shaft(), 0, Shaft().ghosts[0].(charged := true, currentMove := 1))
            && !PathBlank(t, 0, 1, 'S')
  {
    var s := Shaft();
    var t := SetGhost(s, 0, s.ghosts[0].(charged := true, currentMove := 1));
    assert s.ghosts[0].moves[0 := s.ghosts[0].moves[0]] == s.ghosts[0].moves;
    assert GhostCallOn(s, 0, 0).s == t;
    assert At(t, 0, 2) == UNSET && At(t, 0, 3) == UNSET;
    assert SlideEnd(t, 0, 3, 'S') == Stop(0, 3, false);
  }
}
