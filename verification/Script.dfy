/**
  The timing of a ghost's script: `passo` calls of waiting around every active call, `turns_left`
  counting a 'T n' down, and `current_move` taken modulo the number of moves. The whole machine has
  an exact period, on the board as in isolation, for exactly the scripts whose every command can
  be played.
 */
module Script {
  import opened Maze
  import opened Walks

  /** The part of a ghost's record that its script owns. */
  datatype Clock = Clock(passo: int, waiting: int, currentMove: int, moves: seq<Command>)

  function ClockOf(gh: Ghost): Clock {
    Clock(gh.passo, gh.waiting, gh.currentMove, gh.moves)
  }

  predicate Running(c: Clock) {
    |c.moves| > 0 && c.currentMove >= 0
  }

  predicate IsLetter(command: char) {
    command in {'A', 'D', 'W', 'S', 'R', 'C'}
  }

  /** One active call: where the script stands after it. */
  function Act(c: Clock): (c': Clock)
    requires Running(c)
    ensures Running(c') && |c'.moves| == |c.moves|
  {
    var k := c.currentMove % |c.moves|;
    var cmd := c.moves[k];
    if cmd.command == 'T' then
      c.(currentMove := c.currentMove + Advance(cmd), moves := c.moves[k := CountDown(cmd)])
    else if IsLetter(cmd.command) then c.(currentMove := c.currentMove + 1)
    else c
  }

  /** One call: a turn of waiting, or an active call that starts the next wait. */
  function Tick(c: Clock): (c': Clock)
    requires Running(c)
    ensures Running(c') && |c'.moves| == |c.moves|
  {
    if c.waiting > 0 then c.(waiting := c.waiting - 1) else Act(c).(waiting := c.passo)
  }

  function Ticks(k: nat, c: Clock): (c': Clock)
    requires Running(c)
    ensures Running(c') && |c'.moves| == |c.moves|
  {
    if k == 0 then c else Ticks(k - 1, Tick(c))
  }

  function Acts(k: nat, c: Clock): (c': Clock)
    requires Running(c)
    ensures Running(c') && |c'.moves| == |c.moves|
  {
    if k == 0 then c else Acts(k - 1, Act(c))
  }

  // ----- calls and active calls

  lemma {:induction false} TicksAdd(a: nat, b: nat, c: Clock)
    requires Running(c)
    ensures Ticks(a + b, c) == Ticks(b, Ticks(a, c))
  {
    if a > 0 {
      TicksAdd(a - 1, b, Tick(c));
    }
  }

  lemma {:induction false} ActsAdd(a: nat, b: nat, c: Clock)
    requires Running(c)
    ensures Acts(a + b, c) == Acts(b, Acts(a, c))
  {
    if a > 0 {
      ActsAdd(a - 1, b, Act(c));
    }
  }

  lemma {:induction false} WaitDown(k: nat, c: Clock)
    requires Running(c) && k <= c.waiting
    ensures Ticks(k, c) == c.(waiting := c.waiting - k)
  {
    if k > 0 {
      WaitDown(k - 1, Tick(c));
    }
  }

  /** An active call and the waiting after it, down to where the waiting stood. */
  lemma ActThenWait(c: Clock, rest: nat)
    requires Running(c) && c.waiting == 0 && rest <= c.passo
    ensures Ticks(rest + 1, c) == Act(c).(waiting := c.passo - rest)
  {
    hide Act;
    var acted := Act(c).(waiting := c.passo);
    ActKeepsPasso(c);
    assert Tick(c) == acted && Ticks(rest + 1, c) == Ticks(rest, acted);
    WaitDown(rest, acted);
  }

  lemma ActKeepsPasso(c: Clock)
    requires Running(c)
    ensures Act(c).passo == c.passo && Act(c).waiting == c.waiting
    ensures forall w :: Act(c.(waiting := w)) == Act(c).(waiting := w)
  {
  }

  /** passo + 1 calls are one active call, and the wait stands where it stood. */
  lemma OneRound(c: Clock)
    requires Running(c) && 0 <= c.waiting <= c.passo
    ensures Ticks(c.passo + 1, c) == Act(c)
  {
    hide Act, Tick, Ticks;
    var rest := c.passo - c.waiting;
    TicksAdd(c.waiting, rest + 1, c);
    WaitDown(c.waiting, c);
    ActThenWait(c.(waiting := 0), rest);
    ActKeepsPasso(c);
    ActKeepsPasso(c.(waiting := 0));
  }

  lemma {:induction false} Rounds(k: nat, c: Clock)
    requires Running(c) && 0 <= c.waiting <= c.passo
    ensures 0 <= (c.passo + 1) * k
    ensures Ticks((c.passo + 1) * k, c) == Acts(k, c)
  {
    if k > 0 {
      OneRound(c);
      Rounds(k - 1, Act(c));
      assert (c.passo + 1) * k == (c.passo + 1) + (c.passo + 1) * (k - 1);
      TicksAdd(c.passo + 1, (c.passo + 1) * (k - 1), c);
    }
  }

  // ----- the period

  /** A command the interpreter gets past. */
  predicate Playable(cmd: Command) {
    IsLetter(cmd.command) || (cmd.command == 'T' && cmd.turns >= 1)
  }

  predicate AllPlayable(moves: seq<Command>) {
    forall k :: 0 <= k < |moves| ==> Playable(moves[k])
  }

  /** Every countdown stands at its beginning, as the parsers leave it. */
  predicate Rewound(moves: seq<Command>) {
    forall k :: 0 <= k < |moves| && moves[k].command == 'T' ==> moves[k].turnsLeft == moves[k].turns
  }

  function Cost(cmd: Command): int {
    if cmd.command == 'T' then cmd.turns else 1
  }

  /** The active calls that the moves from the j-th on take. */
  function CostFrom(moves: seq<Command>, j: nat): (n: nat)
    requires AllPlayable(moves) && j <= |moves|
    decreases |moves| - j
  {
    if j == |moves| then 0 else Cost(moves[j]) + CostFrom(moves, j + 1)
  }

  lemma {:induction false} CountDownRun(c: Clock, k: nat, t: nat)
    requires Running(c) && k == c.currentMove % |c.moves|
    requires c.moves[k].command == 'T' && c.moves[k].turnsLeft == t >= 1
    ensures Acts(t, c) == c.(currentMove := c.currentMove + 1,
                             moves := c.moves[k := c.moves[k].(turnsLeft := c.moves[k].turns)])
    decreases t
  {
    if t == 1 {
      assert Acts(1, c) == Act(c);
    } else {
      CountDownRun(Act(c), k, t - 1);
    }
  }

  /** Each move takes its cost and leaves the script as it found it. */
  lemma OneMove(c: Clock, k: nat)
    requires Running(c) && k == c.currentMove % |c.moves|
    requires Playable(c.moves[k]) && (c.moves[k].command == 'T' ==> c.moves[k].turnsLeft == c.moves[k].turns)
    ensures Acts(Cost(c.moves[k]), c) == c.(currentMove := c.currentMove + 1)
  {
    if c.moves[k].command == 'T' {
      CountDownRun(c, k, c.moves[k].turns);
      assert c.moves[k := c.moves[k].(turnsLeft := c.moves[k].turns)] == c.moves;
    } else {
      assert Acts(1, c) == Act(c);
    }
  }

  lemma NextSlot(a: nat, n: nat)
    requires n > 0 && a % n + 1 < n
    ensures (a + 1) % n == a % n + 1
  {
    DivUnique(a + 1, n, a / n, a % n + 1);
  }

  lemma {:induction false} RestOfCycle(c: Clock, j: nat)
    requires Running(c) && AllPlayable(c.moves) && Rewound(c.moves)
    requires j == c.currentMove % |c.moves|
    ensures Acts(CostFrom(c.moves, j), c) == c.(currentMove := c.currentMove + (|c.moves| - j))
    decreases |c.moves| - j
  {
    var next := c.(currentMove := c.currentMove + 1);
    OneMove(c, j);
    ActsAdd(Cost(c.moves[j]), CostFrom(c.moves, j + 1), c);
    if j + 1 < |c.moves| {
      NextSlot(c.currentMove, |c.moves|);
      RestOfCycle(next, j + 1);
    }
  }

  /** The calls of one full cycle of the script. */
  function Period(c: Clock): nat
    requires AllPlayable(c.moves) && c.passo >= 0
  {
    PeriodIsNat(c.passo, CostFrom(c.moves, 0));
    (c.passo + 1) * CostFrom(c.moves, 0)
  }

  lemma PeriodIsNat(passo: int, cost: nat)
    requires passo >= 0
    ensures (passo + 1) * cost >= 0
  {
  }

  /** After one period `current_move` has grown by the number of moves and nothing else has changed. */
  lemma ScriptHasPeriod(c: Clock)
    requires Running(c) && AllPlayable(c.moves) && Rewound(c.moves)
    requires 0 <= c.waiting <= c.passo && c.currentMove % |c.moves| == 0
    ensures Ticks(Period(c), c) == c.(currentMove := c.currentMove + |c.moves|)
  {
    Rounds(CostFrom(c.moves, 0), c);
    RestOfCycle(c, 0);
  }

  /** Every countdown stays between 1 and its number of turns. */
  predicate CountersInRange(moves: seq<Command>) {
    forall k :: 0 <= k < |moves| && moves[k].command == 'T' ==> 1 <= moves[k].turnsLeft <= moves[k].turns
  }

  lemma {:induction false} CountersStayInRange(k: nat, c: Clock)
    requires Running(c) && CountersInRange(c.moves)
    ensures CountersInRange(Ticks(k, c).moves)
  {
    if k > 0 {
      CountersStayInRange(k - 1, Tick(c));
    }
  }

  // ----- which scripts have one

  /** The script has not got past the unplayable move j of the cycle that began at `base`. */
  predicate HeldAt(c: Clock, base: nat, j: nat) {
    && Running(c) && j < |c.moves|
    && base <= c.currentMove <= base + j
    && !IsLetter(c.moves[j].command)
    && (c.moves[j].command == 'T' ==> c.moves[j].turnsLeft <= 0)
  }

  lemma SlotInCycle(base: nat, a: nat, n: nat)
    requires n > 0 && base % n == 0 && base <= a < base + n
    ensures a % n == a - base
  {
    DivUnique(a, n, base / n, a - base);
  }

  lemma {:induction false} StaysHeld(k: nat, c: Clock, base: nat, j: nat)
    requires HeldAt(c, base, j) && base % |c.moves| == 0
    ensures HeldAt(Ticks(k, c), base, j)
  {
    if k > 0 {
      SlotInCycle(base, c.currentMove, |c.moves|);
      StaysHeld(k - 1, Tick(c), base, j);
    }
  }

  /** From a boundary the script completes a cycle if and only if every command can be played. */
  lemma CompletesExactlyWhenPlayable(c: Clock)
    requires Running(c) && Rewound(c.moves)
    requires 0 <= c.waiting <= c.passo && c.currentMove % |c.moves| == 0
    ensures (exists k: nat :: Ticks(k, c).currentMove == c.currentMove + |c.moves|) <==> AllPlayable(c.moves)
  {
    if AllPlayable(c.moves) {
      ScriptHasPeriod(c);
    } else {
      var j :| 0 <= j < |c.moves| && !Playable(c.moves[j]);
      forall k: nat ensures Ticks(k, c).currentMove != c.currentMove + |c.moves| {
        StaysHeld(k, c, c.currentMove, j);
      }
    }
  }

  // ----- on the board

  /** A call moves the ghost's clock by one tick, whatever the board and the random number. */
  lemma GhostCallTicks(s: State, g: int, rnd: nat)
    requires WellFormed(s) && 0 <= g < |s.ghosts|
    ensures ClockOf(GhostCallOn(s, g, rnd).s.ghosts[g]) == Tick(ClockOf(s.ghosts[g]))
  {
    var gh := s.ghosts[g];
    var cmd := gh.moves[Slot(gh)];
    assert gh.moves[Slot(gh) := cmd] == gh.moves;
    GhostCallCases(s, g, rnd);
    assert cmd.command == 'R' ==> IsDirection(Resolve(cmd.command, rnd));
  }

  /** Over any run of the board a ghost's script advances by exactly its own calls. */
  lemma {:induction false} RunTicks(s: State, acts: seq<Action>, g: int)
    requires WellFormed(s) && LegalRun(s, acts) && 0 <= g < |s.ghosts|
    ensures ClockOf(Run(s, acts).ghosts[g]) == Ticks(GhostCalls(acts, g), ClockOf(s.ghosts[g]))
    decreases |acts|
  {
    if acts != [] {
      if acts[0].GhostCall? && acts[0].g == g {
        GhostCallTicks(s, g, acts[0].rnd);
      } else {
        OthersStay(s, acts[0], g);
      }
      RunTicks(Do(s, acts[0]).s, acts[1..], g);
    }
  }

  /** The period on the board: whatever else happens between the ghost's own calls. */
  lemma ScriptHasPeriodOnBoard(s: State, acts: seq<Action>, g: int)
    requires WellFormed(s) && LegalRun(s, acts) && 0 <= g < |s.ghosts|
    requires var c := ClockOf(s.ghosts[g]);
             && AllPlayable(c.moves) && Rewound(c.moves)
             && 0 <= c.waiting <= c.passo && c.currentMove % |c.moves| == 0
             && GhostCalls(acts, g) == Period(c)
    ensures var gh, gh' := s.ghosts[g], Run(s, acts).ghosts[g];
            && gh'.currentMove == gh.currentMove + |gh.moves|
            && gh'.moves == gh.moves && gh'.waiting == gh.waiting
  {
    RunTicks(s, acts, g);
    ScriptHasPeriod(ClockOf(s.ghosts[g]));
  }
}
