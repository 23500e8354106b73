/**
  The move lines of an agent's file. What the parser lets through is exactly what the interpreter
  can play, so every parsed script with a move has a period; and it is stated exactly which lines
  make the loop endless, and what `strtok` has already done to the first of them.
 */
module ScriptParser {
  import opened Maze
  import opened Script

  const MAX_MOVES: nat := 20

  /** The letters that the two files' loops let through; waits are let through besides. */
  const GHOST_LETTERS := {'A', 'D', 'W', 'S', 'R', 'C'}
  const PACMAN_LETTERS := {'A', 'D', 'W', 'S', 'R', 'G', 'Q'}

  predicate IsDigit(c: char) {
    '0' <= c <= '9'
  }

  function Digits(s: string, acc: nat): nat {
    if s == [] || !IsDigit(s[0]) then acc else Digits(s[1..], 10 * acc + (s[0] as int - '0' as int))
  }

  /** What `isspace` accepts. */
  predicate IsSpace(c: char) {
    c == ' ' || '\t' <= c <= '\r'
  }

  /** `atoi`: white space, a sign, digits. */
  function Atoi(s: string): int {
    if s == [] then 0
    else if IsSpace(s[0]) then Atoi(s[1..])
    else if s[0] == '-' then 0 - (Digits(s[1..], 0) as int)
    else if s[0] == '+' then Digits(s[1..], 0)
    else Digits(s, 0)
  }

  predicate IsBlank(c: char) {
    c == ' ' || c == '\t' || c == '\n'
  }

  /** What is left of a line in its buffer after `strtok` took the first word: the word ends the string. */
  function CutAtWord(line: string): string {
    if line == [] then []
    else if IsBlank(line[0]) then [line[0]] + CutAtWord(line[1..])
    else Word(line)
  }

  function Word(line: string): string {
    if line == [] || IsBlank(line[0]) then [] else [line[0]] + Word(line[1..])
  }

  datatype Option = None | Some(move: Command)

  /** The move on a line, if the filter lets it through. */
  function MoveOf(letters: set<char>, line: string): Option {
    if line != [] && line[0] in letters then Some(Command(line[0], 1, 0))
    else if |line| >= 2 && line[0] == 'T' && line[1] == ' ' && Atoi(line[2..]) > 0 then
      Some(Command('T', Atoi(line[2..]), Atoi(line[2..])))
    else None
  }

  datatype Parsed = Read(moves: seq<Command>) | Hangs

  /**
    The moves of the lines, up to `room` of them. Reading ends at an empty line, which `read_line`
    does not tell from the end of the file; a comment line reached before that is never left.
   */
  function Parse(letters: set<char>, lines: seq<string>, room: nat): (r: Parsed)
    ensures r.Read? ==> |r.moves| <= room
  {
    if lines == [] || lines[0] == [] || room == 0 then Read([])
    else if IsComment(lines[0]) then Hangs
    else
      match MoveOf(letters, lines[0])
      case None => Parse(letters, lines[1..], room)
      case Some(m) => Prepend([m], Parse(letters, lines[1..], room - 1))
  }

  predicate IsComment(line: string)
    requires line != []
  {
    line[0] == '#' || line[0] == '\0'
  }

  function Prepend(moves: seq<Command>, r: Parsed): Parsed {
    if r.Hangs? then Hangs else Read(moves + r.moves)
  }

  lemma PrependTwice(a: seq<Command>, b: seq<Command>, r: Parsed)
    ensures Prepend(a, Prepend(b, r)) == Prepend(a + b, r)
  {
    if r.Read? {
      assert a + (b + r.moves) == a + b + r.moves;
    }
  }

  /** The move loop of `read_ghosts` and of `read_pacman`, from the line that ended the header. */
  method ReadMoves(letters: set<char>, lines: seq<string>) returns (hang: bool, moves: seq<Command>)
    ensures Parse(letters, lines, MAX_MOVES) == if hang then Hangs else Read(moves)
    ensures |moves| <= MAX_MOVES
    ensures hang <==> exists i: nat :: StuckAt(letters, lines, MAX_MOVES, i)
  {
    HangsExactly(letters, lines, MAX_MOVES);
    moves := [];
    var i := 0;
    while i < |lines| && lines[i] != [] && |moves| < MAX_MOVES
      invariant 0 <= i <= |lines| && |moves| <= MAX_MOVES
      invariant Parse(letters, lines, MAX_MOVES) == Prepend(moves, Parse(letters, lines[i..], MAX_MOVES - |moves|))
    {
      var line := lines[i];
      ghost var before := moves;
      assert lines[i..][0] == line && lines[i..][1..] == lines[i + 1..];
      if IsComment(line) {
        return true, moves;
      }
      if line[0] in letters {
        moves := moves + [Command(line[0], 1, 0)];
      } else if |line| >= 2 && line[0] == 'T' && line[1] == ' ' {
        var t := Atoi(line[2..]);
        if t > 0 {
          moves := moves + [Command('T', t, t)];
        }
      }
      OneLine(letters, before, moves, line, lines[i..], MAX_MOVES - |before|);
      i := i + 1;
    }
    hang := false;
  }

  lemma OneLine(letters: set<char>, before: seq<Command>, after: seq<Command>, line: string, rest: seq<string>,
                room: nat)
    requires rest != [] && rest[0] == line && line != [] && !IsComment(line) && room > 0
    requires after == if MoveOf(letters, line).Some? then before + [MoveOf(letters, line).move] else before
    ensures Prepend(before, Parse(letters, rest, room))
            == Prepend(after, Parse(letters, rest[1..], room - (|after| - |before|)))
  {
    if MoveOf(letters, line).Some? {
      PrependTwice(before, [MoveOf(letters, line).move], Parse(letters, rest[1..], room - 1));
    }
  }

  lemma OneLetter(a: char)
    requires a in GHOST_LETTERS
    ensures Parse(GHOST_LETTERS, [[a]], MAX_MOVES) == Read([Command(a, 1, 0)])
  {
    var last: seq<string> := [[a]];
    assert last[1..] == [];
  }

  lemma TwoLetters(a: char, b: char)
    requires a in GHOST_LETTERS && b in GHOST_LETTERS
    ensures Parse(GHOST_LETTERS, [[a], [b]], MAX_MOVES) == Read([Command(a, 1, 0), Command(b, 1, 0)])
  {
    var last: seq<string> := [[b]];
    assert last[1..] == [];
    assert Parse(GHOST_LETTERS, last, MAX_MOVES - 1) == Read([Command(b, 1, 0)]);
    assert [[a], [b]][1..] == last;
  }

  /** How many of the lines the filter lets through. */
  function Accepted(letters: set<char>, lines: seq<string>): nat {
    if lines == [] then 0 else (if MoveOf(letters, lines[0]).Some? then 1 else 0) + Accepted(letters, lines[1..])
  }

  /**
    The line at which the loop stays for ever: a comment, with no empty line and no comment before
    it, reached while there is still room for a move.
   */
  predicate StuckAt(letters: set<char>, lines: seq<string>, room: nat, i: nat) {
    && i < |lines| && lines[i] != [] && lines[i][0] in {'#', '\0'}
    && (forall k :: 0 <= k < i ==> lines[k] != [] && lines[k][0] !in {'#', '\0'})
    && Accepted(letters, lines[..i]) < room
  }

  /** Exactly which lines make the loop endless. */
  lemma {:induction false} HangsExactly(letters: set<char>, lines: seq<string>, room: nat)
    ensures Parse(letters, lines, room).Hangs? <==> exists i: nat :: StuckAt(letters, lines, room, i)
  {
    if lines == [] || lines[0] == [] || room == 0 {
    } else if IsComment(lines[0]) {
      assert lines[..0] == [];
      assert StuckAt(letters, lines, room, 0);
    } else {
      var room' := if MoveOf(letters, lines[0]).Some? then room - 1 else room;
      HangsExactly(letters, lines[1..], room');
      forall i: nat ensures StuckAt(letters, lines, room, i + 1) <==> StuckAt(letters, lines[1..], room', i) {
        StuckLater(letters, lines, room, room', i);
      }
      if i: nat :| StuckAt(letters, lines, room, i) {
        assert StuckAt(letters, lines[1..], room', i - 1);
      }
      if i: nat :| StuckAt(letters, lines[1..], room', i) {
        assert StuckAt(letters, lines, room, i + 1);
      }
    }
  }

  lemma StuckLater(letters: set<char>, lines: seq<string>, room: nat, room': nat, i: nat)
    requires lines != [] && lines[0] != [] && !IsComment(lines[0]) && room > 0
    requires room' == if MoveOf(letters, lines[0]).Some? then room - 1 else room
    ensures StuckAt(letters, lines, room, i + 1) <==> StuckAt(letters, lines[1..], room', i)
  {
    var rest := lines[1..];
    if i < |rest| {
      assert lines[..i + 1][0] == lines[0] && lines[..i + 1][1..] == rest[..i];
      assert forall k :: 0 <= k < i ==> rest[k] == lines[k + 1];
      assert (forall k :: 0 <= k < i + 1 ==> lines[k] != [] && !IsComment(lines[k]))
        <==> (forall k :: 0 <= k < i ==> rest[k] != [] && !IsComment(rest[k])) by {
        if forall k :: 0 <= k < i ==> rest[k] != [] && !IsComment(rest[k]) {
          forall k | 0 <= k < i + 1 ensures lines[k] != [] && !IsComment(lines[k]) {
            assert k > 0 ==> lines[k] == rest[k - 1];
          }
        }
      }
    }
  }

  /** Every parsed script can be played, with its countdowns wound up and in range. */
  lemma {:induction false} ParsedIsPlayable(lines: seq<string>, room: nat)
    requires Parse(GHOST_LETTERS, lines, room).Read?
    ensures var moves := Parse(GHOST_LETTERS, lines, room).moves;
            AllPlayable(moves) && Rewound(moves) && CountersInRange(moves)
  {
    if lines != [] && lines[0] != [] && room > 0 {
      match MoveOf(GHOST_LETTERS, lines[0])
      case None => ParsedIsPlayable(lines[1..], room);
      case Some(m) => ParsedIsPlayable(lines[1..], room - 1);
    }
  }

  /** So a parsed script with at least one move has its exact period, for every `passo`. */
  lemma ParsedScriptHasPeriod(lines: seq<string>, passo: nat, waiting: nat)
    requires Parse(GHOST_LETTERS, lines, MAX_MOVES).Read? && waiting <= passo
    requires Parse(GHOST_LETTERS, lines, MAX_MOVES).moves != []
    ensures var moves := Parse(GHOST_LETTERS, lines, MAX_MOVES).moves;
            var c := Clock(passo, waiting, 0, moves);
            AllPlayable(moves) && Ticks(Period(c), c) == c.(currentMove := |moves|)
  {
    ParsedIsPlayable(lines, MAX_MOVES);
    ScriptHasPeriod(Clock(passo, waiting, 0, Parse(GHOST_LETTERS, lines, MAX_MOVES).moves));
  }

  predicate IsWait(letters: set<char>, line: string) {
    MoveOf(letters, line).Some? && MoveOf(letters, line).move.command == 'T'
  }

  /**
    What the header loop does to the line that ends the header: `strtok` has cut it behind its
    first word. The cut changes the line's move exactly when that move is a wait, and then the
    wait is lost.
   */
  lemma CutExactly(letters: set<char>, line: string)
    requires line != [] && 'T' !in letters
    ensures MoveOf(letters, CutAtWord(line)) == MoveOf(letters, line) <==> !IsWait(letters, line)
    ensures MoveOf(letters, CutAtWord(line)) != MoveOf(letters, line) ==> MoveOf(letters, CutAtWord(line)) == None
  {
    var cut := CutAtWord(line);
    if IsBlank(line[0]) {
      assert cut[0] == line[0];
    } else {
      assert cut == [line[0]] + Word(line[1..]) && cut[0] == line[0];
      if |line| >= 2 && IsBlank(line[1]) {
        assert Word(line[1..]) == [];
      } else if |line| >= 2 {
        assert cut[1] == line[1];
      }
    }
  }

  /** So the moves of a file are those of its uncut lines, unless the first of them is a wait. */
  lemma FirstLineExactly(letters: set<char>, line: string, rest: seq<string>, room: nat)
    requires line != [] && !IsComment(line) && room > 0 && 'T' !in letters
    ensures Parse(letters, [CutAtWord(line)] + rest, room) ==
            if IsWait(letters, line) then Parse(letters, rest, room)
            else Parse(letters, [line] + rest, room)
  {
    CutExactly(letters, line);
    var cut := CutAtWord(line);
    assert cut != [] && cut[0] == line[0];
    assert ([cut] + rest)[1..] == rest == ([line] + rest)[1..];
  }

  // ----- the moves of a file, line by line

  /** The moves of the lines in order, those that have one. */
  function MovesOf(letters: set<char>, lines: seq<string>): (moves: seq<Command>)
    ensures |moves| == Accepted(letters, lines)
  {
    if lines == [] then []
    else
      match MoveOf(letters, lines[0])
      case None => MovesOf(letters, lines[1..])
      case Some(m) => [m] + MovesOf(letters, lines[1..])
  }

  /** The first k lines hold neither an empty line nor a comment. */
  predicate PlainLines(lines: seq<string>, k: nat)
    requires k <= |lines|
  {
    forall i :: 0 <= i < k ==> lines[i] != [] && lines[i][0] != '#' && lines[i][0] != '\0'
  }

  /**
    What is read of a file, exactly: the moves of the lines before the first empty or comment line,
    as many as there is room for. If there is still room at a comment line, nothing is ever returned.
   */
  lemma {:induction false} ReadsExactly(letters: set<char>, lines: seq<string>, room: nat, k: nat)
    requires k <= |lines| && PlainLines(lines, k) && (k < |lines| ==> !PlainLines(lines, k + 1))
    ensures var moves := MovesOf(letters, lines[..k]);
            Parse(letters, lines, room) ==
            if |moves| >= room then Read(moves[..room])
            else if k < |lines| && lines[k] != [] then Hangs
            else Read(moves)
    decreases k
  {
    if k > 0 {
      var m := MoveOf(letters, lines[0]);
      assert lines[..k][0] == lines[0] && lines[..k][1..] == lines[1..][..k - 1];
      if room > 0 {
        ReadsExactly(letters, lines[1..], if m.Some? then room - 1 else room, k - 1);
      }
    } else {
      assert lines[..k] == [];
    }
  }

  /** The command of a line: a letter as it stands, or a wait wound up to its number of turns. */
  lemma LineMove(letters: set<char>, line: string)
    ensures line != [] && line[0] in letters ==> MoveOf(letters, line) == Some(Command(line[0], 1, 0))
    ensures (line == [] || line[0] !in letters) && MoveOf(letters, line).Some? ==>
              var m := MoveOf(letters, line).move;
              && line[..2] == "T " && m.command == 'T' && m.turns == m.turnsLeft == Atoi(line[2..]) && m.turns > 0
  {
  }

  /** The letters of a ghost's file and of the pacman's. */
  lemma LettersAccepted(c: char, rest: string)
    requires c != 'T'
    ensures MoveOf(GHOST_LETTERS, [c] + rest).Some? <==> c in "ADWSRC"
    ensures MoveOf(PACMAN_LETTERS, [c] + rest).Some? <==> c in "ADWSRGQ"
  {
  }

  // ----- decimal numbers

  function Digit(n: nat): char
    requires n < 10
  {
    "0123456789"[n]
  }

  /** The decimal notation of a number. */
  function Decimal(n: nat): string {
    if n < 10 then [Digit(n)] else Decimal(n / 10) + [Digit(n % 10)]
  }

  predicate AllDigits(s: string) {
    forall i :: 0 <= i < |s| ==> IsDigit(s[i])
  }

  predicate AllSpace(s: string) {
    forall i :: 0 <= i < |s| ==> s[i] in " \t"
  }

  lemma {:induction false} DigitsThen(s: string, rest: string, acc: nat)
    requires AllDigits(s)
    ensures Digits(s + rest, acc) == Digits(rest, Digits(s, acc))
    decreases |s|
  {
    if s == [] {
      assert s + rest == rest;
    } else {
      assert (s + rest)[1..] == s[1..] + rest;
      DigitsThen(s[1..], rest, 10 * acc + (s[0] as int - '0' as int));
    }
  }

  lemma {:induction false} DigitsOfDecimal(n: nat)
    ensures AllDigits(Decimal(n)) && Decimal(n) != [] && Digits(Decimal(n), 0) == n
  {
    if n >= 10 {
      DigitsOfDecimal(n / 10);
      DigitsThen(Decimal(n / 10), [Digit(n % 10)], 0);
      OneDigit(n % 10, n / 10);
    } else {
      OneDigit(n, 0);
    }
  }

  lemma OneDigit(n: nat, acc: nat)
    requires n < 10
    ensures IsDigit(Digit(n)) && Digits([Digit(n)], acc) == 10 * acc + n
  {
    assert [Digit(n)][1..] == [];
  }

  /** Whatever follows a number that is no digit itself does not change it. */
  lemma DecimalRead(n: nat, rest: string)
    requires rest == [] || !('0' <= rest[0] <= '9')
    ensures Digits(Decimal(n) + rest, 0) == n
  {
    DigitsOfDecimal(n);
    DigitsThen(Decimal(n), rest, 0);
  }

  /** `atoi` reads back every decimal number, signed or not, behind white space and before anything else. */
  lemma {:induction false} AtoiReadsDecimal(space: string, sign: string, n: nat, rest: string)
    requires AllSpace(space) && sign in {"", "+", "-"} && (rest == [] || !('0' <= rest[0] <= '9'))
    ensures Atoi(space + (sign + Decimal(n) + rest)) == if sign == "-" then 0 - n else n
    decreases |space|
  {
    var s := sign + Decimal(n) + rest;
    if space == [] {
      AtoiAtOnce(sign, n, rest);
      assert space + s == s;
    } else {
      assert (space + s)[1..] == space[1..] + s;
      AtoiReadsDecimal(space[1..], sign, n, rest);
    }
  }

  lemma AtoiAtOnce(sign: string, n: nat, rest: string)
    requires sign in {"", "+", "-"} && (rest == [] || !('0' <= rest[0] <= '9'))
    ensures Atoi(sign + Decimal(n) + rest) == if sign == "-" then 0 - n else n
  {
    hide Decimal, Digits, Atoi;
    var digits := Decimal(n) + rest;
    DigitsOfDecimal(n);
    DecimalRead(n, rest);
    assert IsDigit(digits[0]);
    AtoiSigned(digits);
    assert "" + Decimal(n) + rest == digits;
    assert "+" + Decimal(n) + rest == "+" + digits;
    assert "-" + Decimal(n) + rest == "-" + digits;
  }

  lemma AtoiSigned(digits: string)
    requires digits != [] && IsDigit(digits[0])
    ensures Atoi(digits) == Digits(digits, 0) && Atoi("+" + digits) == Digits(digits, 0)
    ensures Atoi("-" + digits) == 0 - Digits(digits, 0) as int
  {
    assert ("+" + digits)[1..] == digits && ("-" + digits)[1..] == digits;
  }

  /** So a 'T n' line is a wait of n turns, with n to go; without turns, or with a minus, it is no move. */
  lemma WaitLine(letters: set<char>, sign: string, n: nat, rest: string)
    requires 'T' !in letters && sign in {"", "+", "-"} && (rest == [] || !('0' <= rest[0] <= '9'))
    ensures MoveOf(letters, "T " + (sign + Decimal(n) + rest))
            == if n > 0 && sign != "-" then Some(Command('T', n, n)) else None
  {
    var line := "T " + (sign + Decimal(n) + rest);
    AtoiReadsDecimal([], sign, n, rest);
    assert line[2..] == [] + (sign + Decimal(n) + rest);
  }
}
