/**
  The files that place the agents. Their header lines set `passo` and the position; every position
  line stamps the agent's letter on the board, and only the last one is kept as its position.
 */
module AgentFiles {
  import opened Maze
  import opened ScriptParser

  datatype HeaderLine = PassoLine(n: int) | PosLine(x: int, y: int)

  /** A file: its header, and the lines from the one that ends the header. */
  datatype AgentFile = AgentFile(header: seq<HeaderLine>, lines: seq<string>)

  /** What the header lines leave in the agent's record, which was cleared before. */
  datatype Place = Place(x: int, y: int, passo: int)

  predicate HeaderIn(width: int, height: int, header: seq<HeaderLine>) {
    && width > 0 && height > 0
    && forall i :: 0 <= i < |header| && header[i].PosLine? ==> 0 <= header[i].x < width && 0 <= header[i].y < height
  }

  function PlaceOf(header: seq<HeaderLine>): Place {
    if header == [] then Place(0, 0, 0)
    else
      var before, last := PlaceOf(header[..|header| - 1]), header[|header| - 1];
      match last
      case PassoLine(n) => before.(passo := n)
      case PosLine(x, y) => before.(x := x, y := y)
  }

  /** A position line of the header names cell c. */
  ghost predicate Names(width: int, height: int, header: seq<HeaderLine>, c: int)
    requires HeaderIn(width, height, header)
  {
    exists i :: 0 <= i < |header| && header[i].PosLine? && Index(width, height, header[i].x, header[i].y) == c
  }

  function Stamp(cells: seq<Cell>, width: int, height: int, header: seq<HeaderLine>, letter: char): (stamped: seq<Cell>)
    requires |cells| == width * height && HeaderIn(width, height, header)
    ensures |stamped| == |cells|
  {
    if header == [] then cells
    else
      var before, last := Stamp(cells, width, height, header[..|header| - 1], letter), header[|header| - 1];
      match last
      case PassoLine(n) => before
      case PosLine(x, y) =>
        var i := Index(width, height, x, y);
        before[i := before[i].(content := letter)]
  }

  /** Exactly the named cells show the letter; dots and portals stay. */
  lemma {:induction false} StampedCell(cells: seq<Cell>, width: int, height: int, header: seq<HeaderLine>, letter: char,
                                       c: int)
    requires |cells| == width * height && HeaderIn(width, height, header) && 0 <= c < |cells|
    ensures Stamp(cells, width, height, header, letter)[c]
            == cells[c].(content := if Names(width, height, header, c) then letter else cells[c].content)
  {
    if header != [] {
      var n := |header| - 1;
      StampedCell(cells, width, height, header[..n], letter, c);
      assert Names(width, height, header, c) <==>
             || Names(width, height, header[..n], c)
             || (header[n].PosLine? && Index(width, height, header[n].x, header[n].y) == c) by {
        assert forall i :: 0 <= i < n ==> header[..n][i] == header[i];
      }
    }
  }

  lemma {:induction false} PlaceInside(width: int, height: int, header: seq<HeaderLine>)
    requires HeaderIn(width, height, header)
    ensures 0 <= PlaceOf(header).x < width && 0 <= PlaceOf(header).y < height
    ensures (exists i :: 0 <= i < |header| && header[i].PosLine?) ==>
              Names(width, height, header, Index(width, height, PlaceOf(header).x, PlaceOf(header).y))
  {
    if header != [] {
      var n := |header| - 1;
      PlaceInside(width, height, header[..n]);
      assert forall i :: 0 <= i < n ==> header[..n][i] == header[i];
      if header[n].PosLine? {
        assert Index(width, height, header[n].x, header[n].y)
            == Index(width, height, PlaceOf(header).x, PlaceOf(header).y);
      }
    }
  }

  lemma OneStamp(cells: seq<Cell>, width: int, height: int, x: int, y: int, letter: char)
    requires |cells| == width * height && 0 <= x < width && 0 <= y < height
    ensures HeaderIn(width, height, [PosLine(x, y)]) && PlaceOf([PosLine(x, y)]) == Place(x, y, 0)
    ensures var i := Index(width, height, x, y);
            Stamp(cells, width, height, [PosLine(x, y)], letter) == cells[i := cells[i].(content := letter)]
  {
    assert [PosLine(x, y)][..0] == [];
  }

  /** The header has one position line. */
  ghost predicate OnePosition(header: seq<HeaderLine>) {
    exists i :: 0 <= i < |header| && header[i].PosLine? && OnlyAt(header, i)
  }

  predicate OnlyAt(header: seq<HeaderLine>, i: int) {
    forall j :: 0 <= j < |header| && header[j].PosLine? ==> j == i
  }

  lemma {:induction false} OnePositionNamed(width: int, height: int, header: seq<HeaderLine>, c: int)
    requires HeaderIn(width, height, header) && OnePosition(header)
    ensures 0 <= PlaceOf(header).x < width && 0 <= PlaceOf(header).y < height
    ensures Names(width, height, header, c) <==> c == Index(width, height, PlaceOf(header).x, PlaceOf(header).y)
  {
    PlaceInside(width, height, header);
  }

  /** Line i is the last of the header that sets `passo`. */
  predicate LastPasso(header: seq<HeaderLine>, i: int) {
    0 <= i < |header| && header[i].PassoLine? && forall j :: i < j < |header| ==> !header[j].PassoLine?
  }

  /** Line i is the last of the header that sets the position. */
  predicate LastPos(header: seq<HeaderLine>, i: int) {
    0 <= i < |header| && header[i].PosLine? && forall j :: i < j < |header| ==> !header[j].PosLine?
  }

  /** The last PASSO line counts, wherever it stands, and without one `passo` is 0. */
  lemma {:induction false} PassoIsLast(header: seq<HeaderLine>)
    ensures forall i :: LastPasso(header, i) ==> PlaceOf(header).passo == header[i].n
    ensures (forall i :: 0 <= i < |header| ==> !header[i].PassoLine?) ==> PlaceOf(header).passo == 0
  {
    if header != [] {
      var n := |header| - 1;
      PassoIsLast(header[..n]);
      if !header[n].PassoLine? {
        forall i | LastPasso(header, i) ensures PlaceOf(header).passo == header[i].n {
          assert LastPasso(header[..n], i);
        }
      }
    }
  }

  /** The last POS line counts, and without one the position is (0, 0). */
  lemma {:induction false} PositionIsLast(header: seq<HeaderLine>)
    ensures forall i :: LastPos(header, i) ==> PlaceOf(header).x == header[i].x && PlaceOf(header).y == header[i].y
    ensures (forall i :: 0 <= i < |header| ==> !header[i].PosLine?) ==> PlaceOf(header).x == PlaceOf(header).y == 0
  {
    if header != [] {
      var n := |header| - 1;
      PositionIsLast(header[..n]);
      if !header[n].PosLine? {
        forall i | LastPos(header, i)
          ensures PlaceOf(header).x == header[i].x && PlaceOf(header).y == header[i].y
        {
          assert LastPos(header[..n], i);
        }
      }
    }
  }

  /** The header loop of `read_pacman` and `read_ghosts`. */
  method ReadHeader(cells: array<Cell>, width: int, height: int, header: seq<HeaderLine>, letter: char)
    returns (place: Place)
    requires cells.Length == width * height && HeaderIn(width, height, header)
    modifies cells
    ensures cells[..] == Stamp(old(cells[..]), width, height, header, letter)
    ensures place == PlaceOf(header)
  {
    place := Place(0, 0, 0);
    var i := 0;
    while i < |header|
      invariant 0 <= i <= |header|
      invariant cells[..] == Stamp(old(cells[..]), width, height, header[..i], letter)
      invariant place == PlaceOf(header[..i])
    {
      assert header[..i + 1][..i] == header[..i];
      match header[i] {
        case PassoLine(n) => place := place.(passo := n);
        case PosLine(x, y) =>
          place := place.(x := x, y := y);
          var idx := Index(width, height, x, y);
          cells[idx] := cells[idx].(content := letter);
      }
      i := i + 1;
    }
    assert header[..i] == header;
  }

  // ----- ghosts

  function ScriptOf(file: AgentFile): Parsed {
    Parse(GHOST_LETTERS, file.lines, MAX_MOVES)
  }

  /** The ghost that a file makes; a loaded ghost is not charged. */
  function GhostOf(file: AgentFile): Ghost
    requires ScriptOf(file).Read?
  {
    var p := PlaceOf(file.header);
    Ghost(p.x, p.y, p.passo, p.passo, 0, false, ScriptOf(file).moves)
  }

  predicate FilesIn(width: int, height: int, files: seq<AgentFile>) {
    forall g :: 0 <= g < |files| ==> HeaderIn(width, height, files[g].header)
  }

  /** A position line of one of the ghosts' files names cell c. */
  ghost predicate Marked(width: int, height: int, files: seq<AgentFile>, c: int)
    requires FilesIn(width, height, files)
  {
    exists g :: 0 <= g < |files| && Names(width, height, files[g].header, c)
  }

  function StampAll(cells: seq<Cell>, width: int, height: int, files: seq<AgentFile>): (stamped: seq<Cell>)
    requires |cells| == width * height && FilesIn(width, height, files)
    ensures |stamped| == |cells|
  {
    if files == [] then cells
    else
      var n := |files| - 1;
      Stamp(StampAll(cells, width, height, files[..n]), width, height, files[n].header, 'M')
  }

  lemma {:induction false} MarkedCell(cells: seq<Cell>, width: int, height: int, files: seq<AgentFile>, c: int)
    requires |cells| == width * height && FilesIn(width, height, files) && 0 <= c < |cells|
    ensures StampAll(cells, width, height, files)[c]
            == cells[c].(content := if Marked(width, height, files, c) then 'M' else cells[c].content)
  {
    if files != [] {
      var n := |files| - 1;
      MarkedCell(cells, width, height, files[..n], c);
      StampedCell(StampAll(cells, width, height, files[..n]), width, height, files[n].header, 'M', c);
      assert Marked(width, height, files, c) <==>
             Marked(width, height, files[..n], c) || Names(width, height, files[n].header, c) by {
        assert forall g :: 0 <= g < n ==> files[..n][g] == files[g];
      }
    }
  }

  /** One of the files makes its move loop endless. */
  ghost predicate SomeHangs(files: seq<AgentFile>) {
    exists g :: 0 <= g < |files| && ScriptOf(files[g]).Hangs?
  }

  /** An agent has what its header says: the last position, the last `passo` and a full wait of it. */
  ghost predicate AsHeaderSays(header: seq<HeaderLine>, x: int, y: int, passo: int, waiting: int) {
    && (forall i :: LastPasso(header, i) ==> passo == header[i].n)
    && ((forall i :: 0 <= i < |header| ==> !header[i].PassoLine?) ==> passo == 0)
    && (forall i :: LastPos(header, i) ==> x == header[i].x && y == header[i].y)
    && ((forall i :: 0 <= i < |header| ==> !header[i].PosLine?) ==> x == 0 && y == 0)
    && waiting == passo
  }

  /** A ghost as its file makes it: placed and timed by its header, uncharged, at the start of its script. */
  lemma GhostAsFileSays(file: AgentFile)
    requires ScriptOf(file).Read?
    ensures var gh := GhostOf(file);
            && AsHeaderSays(file.header, gh.x, gh.y, gh.passo, gh.waiting)
            && !gh.charged && gh.currentMove == 0 && gh.moves == ScriptOf(file).moves && |gh.moves| <= 20
  {
    PassoIsLast(file.header);
    PositionIsLast(file.header);
  }

  /** `read_ghosts`: file by file the header, then the moves. */
  method ReadGhosts(cells: array<Cell>, width: int, height: int, files: seq<AgentFile>)
    returns (hang: bool, ghosts: seq<Ghost>)
    requires cells.Length == width * height && FilesIn(width, height, files)
    modifies cells
    ensures hang <==> SomeHangs(files)
    ensures !hang ==>
              && cells[..] == StampAll(old(cells[..]), width, height, files)
              && |ghosts| == |files|
              && forall g :: 0 <= g < |files| ==> ScriptOf(files[g]).Read? && ghosts[g] == GhostOf(files[g])
  {
    ghosts := [];
    var i := 0;
    while i < |files|
      invariant 0 <= i <= |files| && |ghosts| == i
      invariant cells[..] == StampAll(old(cells[..]), width, height, files[..i])
      invariant forall g :: 0 <= g < i ==> ScriptOf(files[g]).Read? && ghosts[g] == GhostOf(files[g])
    {
      assert files[..i + 1][..i] == files[..i];
      var place := ReadHeader(cells, width, height, files[i].header, 'M');
      var stuck, moves := ReadMoves(GHOST_LETTERS, files[i].lines);
      if stuck {
        return true, ghosts;
      }
      ghosts := ghosts + [Ghost(place.x, place.y, place.passo, place.passo, 0, false, moves)];
      i := i + 1;
    }
    assert files[..i] == files;
    hang := false;
  }
}
