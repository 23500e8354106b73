/**
  A game session: level after level, the main thread reads the client's operations, moves the
  pacman, and carries the points over. The loop is driven one step at a time by what its
  environment brings, so that every statement below holds after any finite run of it.
 */
module Session {
  import opened Maze
  import opened Fate

  /** What the next step of the loop meets. */
  datatype Event =
    | Nothing                        // no operation in the pipe (EAGAIN)
    | Closed                         // end of file, read error, disconnect or unknown operation
    | Play(command: char, rnd: nat)  // a move arrives
    | GhostMoves(g: nat, rnd: nat)   // a ghost thread takes a turn meanwhile
    | Shutdown                       // the server's flag is set

  datatype Phase = Choosing | Playing | Over

  /** Everything the session holds, as a value. */
  datatype Status = Status(phase: Phase, currentLevel: nat, board: State, victory: bool, gameOver: bool,
                           shutdown: bool, points: int, executed: seq<Event>)

  /** The level is being played and nothing has ended it. */
  predicate Open(st: Status) {
    st.phase == Playing && !st.victory && !st.gameOver && !st.shutdown
  }

  /** The moves that meet an open level, in order; st[i] is the session before event i. */
  ghost function MovesMet(st: seq<Status>, events: seq<Event>): seq<Event>
    requires |st| > |events|
    decreases |events|
  {
    if events == [] then []
    else
      var n := |events| - 1;
      MovesMet(st, events[..n]) + if events[n].Play? && Open(st[n]) then [events[n]] else []
  }

  /** What an event asks of the board of a level that stays open. */
  function ActionOf(e: Event, ghosts: nat): (acts: seq<Action>)
    ensures |acts| <= 1 && forall i :: 0 <= i < |acts| && acts[i].GhostCall? ==> acts[i].g < ghosts
  {
    match e
    case Play(command, rnd) => [PacCall(Command(command, 1, 0), rnd)]
    case GhostMoves(g, rnd) => if g < ghosts then [GhostCall(g, rnd)] else []
    case _ => []
  }

  function ActionsOf(events: seq<Event>, ghosts: nat): (acts: seq<Action>)
    ensures forall i :: 0 <= i < |acts| && acts[i].GhostCall? ==> acts[i].g < ghosts
  {
    if events == [] then []
    else ActionsOf(events[..|events| - 1], ghosts) + ActionOf(events[|events| - 1], ghosts)
  }

  /** No event ends the level: neither the environment nor a move of the client. */
  predicate PlayedThrough(s: State, events: seq<Event>) {
    && WellFormed(s)
    && (forall i :: 0 <= i < |events| ==> !events[i].Closed? && !events[i].Shutdown?)
    && GoesOn(s, ActionsOf(events, |s.ghosts|))
  }

  lemma NothingPlayed(s: State)
    ensures WellFormed(s) ==> Maze.Run(s, ActionsOf([], |s.ghosts|)) == s
  {
  }

  /** Up to its last event, and over it. */
  lemma PlayedBefore(s: State, events: seq<Event>)
    requires events != [] && PlayedThrough(s, events)
    ensures var n := |events| - 1;
            var acts := ActionOf(events[n], |s.ghosts|);
            var t := Maze.Run(s, ActionsOf(events[..n], |s.ghosts|));
            && PlayedThrough(s, events[..n]) && |t.ghosts| == |s.ghosts|
            && !events[n].Closed? && !events[n].Shutdown?
            && Maze.Run(s, ActionsOf(events, |s.ghosts|)) == (if acts == [] then t else Do(t, acts[0]).s)
            && (acts != [] && acts[0].PacCall? ==> Do(t, acts[0]).out !in {ReachedPortal, DeadPacman})
  {
    hide Do, Maze.Run, ActionOf, GoesOn;
    var n := |events| - 1;
    var before, acts := ActionsOf(events[..n], |s.ghosts|), ActionOf(events[n], |s.ghosts|);
    assert forall i :: 0 <= i < n ==> events[..n][i] == events[i];
    if acts != [] {
      assert acts == [acts[0]];
      GoesOnLast(s, before, acts[0]);
      RunLast(s, before, acts[0]);
    } else {
      assert ActionsOf(events, |s.ghosts|) == before;
    }
  }

  class GameSession {
    const levels: seq<State>      // the levels as loaded, before the client's points
    var phase: Phase
    var currentLevel: nat
    var board: State
    var victory: bool
    var gameOver: bool
    var shutdown: bool
    var points: int               // the client's points
    ghost var portals: nat        // REACHED_PORTAL results so far
    ghost var eaten: int          // dots that have disappeared from boards so far
    ghost var executed: seq<Event>  // the moves executed so far

    ghost predicate Valid()
      reads this
    {
      && (forall i :: 0 <= i < |levels| ==> WellFormed(levels[i]))
      && (phase == Playing ==> WellFormed(board) && board.pac.points == points)
      && currentLevel <= |levels|
      && portals == currentLevel + (if phase == Playing && victory then 1 else 0)
      && (phase == Playing ==> currentLevel < |levels| && !(victory && gameOver))
      && (phase == Over ==> shutdown || currentLevel == |levels|)
      && points == eaten
    }

    ghost function Now(): Status
      reads this
    {
      Status(phase, currentLevel, board, victory, gameOver, shutdown, points, executed)
    }

    constructor (levels: seq<State>)
      requires forall i :: 0 <= i < |levels| ==> WellFormed(levels[i])
      ensures Valid() && this.levels == levels && phase == Choosing && currentLevel == 0
      ensures portals == 0 && eaten == 0 && executed == [] && points == 0 && !gameOver && !shutdown
    {
      this.levels := levels;
      phase, currentLevel, victory, gameOver, shutdown, points := Choosing, 0, false, false, false, 0;
      board := if |levels| > 0 then levels[0] else State(0, 0, [], Pacman(0, 0, false, 0, 0, 0, 0), []);
      portals, eaten, executed := 0, 0, [];
    }

    /** The test of the outer loop, and `load_level` with the points so far. */
    method ChooseLevel()
      requires Valid() && phase == Choosing
      modifies this`phase, this`victory, this`board
      ensures Valid() && portals == old(portals)
      ensures phase == if currentLevel < |levels| && !shutdown then Playing else Over
      ensures phase == Over ==> victory == old(victory) && board == old(board)
      ensures phase == Playing ==>
                && !victory
                && board == levels[currentLevel].(pac := levels[currentLevel].pac.(alive := true, points := points))
    {
      if currentLevel < |levels| && !shutdown {
        victory := false;
        board := levels[currentLevel].(pac := levels[currentLevel].pac.(alive := true, points := points));
        phase := Playing;
      } else {
        phase := Over;
      }
    }

    /** Leaving the inner loop: a victory moves on to the next level, anything else repeats this one. */
    method LeaveLevel()
      requires Valid() && phase == Playing && (victory || gameOver)
      modifies this`phase, this`currentLevel
      ensures Valid() && phase == Choosing
      ensures currentLevel == old(currentLevel) + if victory then 1 else 0
    {
      if victory {
        currentLevel := currentLevel + 1;
      }
      phase := Choosing;
    }

    /** OP_CODE_PLAY: move the pacman, take over its points, note a victory or a defeat. */
    method PlayMove(command: char, rnd: nat)
      requires Valid() && phase == Playing && !victory && !gameOver
      modifies this`board, this`points, this`victory, this`gameOver, this`portals, this`eaten, this`executed
      ensures Valid()
      ensures points + Dots(board.cells) == old(points) + Dots(old(board).cells) && points >= old(points)
      ensures executed == old(executed) + [Play(command, rnd)]
      ensures var t := Do(old(board), PacCall(Command(command, 1, 0), rnd));
              && board == t.s && points == t.s.pac.points
              && victory == (t.out == ReachedPortal) && gameOver == (t.out == DeadPacman)
    {
      var t := PacmanTurn(board, Command(command, 1, 0), rnd);
      DoConservesDots(board, PacCall(Command(command, 1, 0), rnd));
      eaten := eaten + Dots(board.cells) - Dots(t.s.cells);
      board := t.s;
      points := board.pac.points;
      executed := executed + [Play(command, rnd)];
      if t.out == ReachedPortal {
        victory := true;
        portals := portals + 1;
      } else if t.out == DeadPacman {
        gameOver := true;
      }
    }

    /** A ghost thread's turn while the level is being played. */
    method GhostTurnMeanwhile(g: nat, rnd: nat)
      requires Valid() && phase == Playing && g < |board.ghosts|
      modifies this`board
      ensures Valid() && Dots(board.cells) == Dots(old(board).cells)
      ensures board == Do(old(board), GhostCall(g, rnd)).s
    {
      GhostCallOnlyKills(board, g, rnd);
      var r := GhostCallOn(board, g, rnd);
      DotsSame(board.cells, r.s.cells);
      board := r.s;
    }

    /** One round of the inner loop, or a ghost's turn meanwhile. */
    method PlayOn(e: Event)
      requires Valid() && phase == Playing
      modifies this
      ensures Valid() && points >= old(points) && portals >= old(portals) && (old(gameOver) ==> portals == old(portals))
      ensures shutdown == old(shutdown)
      ensures e.GhostMoves? ==>
                Now() == if e.g < |old(board).ghosts| then
                           old(Now()).(board := Do(old(board), GhostCall(e.g, e.rnd)).s)
                         else old(Now())
      ensures !e.GhostMoves? && (old(victory) || old(gameOver)) ==>
                Now() == old(Now()).(phase := Choosing,
                                     currentLevel := old(currentLevel) + if old(victory) then 1 else 0)
      ensures !e.GhostMoves? && !old(victory) && !old(gameOver) && (shutdown || e.Closed?) ==>
                Now() == old(Now()).(gameOver := true)
      ensures old(Open(Now())) && (e.Nothing? || e.Shutdown?) ==> Now() == old(Now())
      ensures old(Open(Now())) && e.Play? ==>
                var r := Do(old(board), PacCall(Command(e.command, 1, 0), e.rnd));
                Now() == old(Now()).(board := r.s, points := r.s.pac.points, executed := old(executed) + [e],
                                     victory := r.out == ReachedPortal, gameOver := r.out == DeadPacman)
    {
      hide Do;
      if e.GhostMoves? {
        if e.g < |board.ghosts| {
          GhostTurnMeanwhile(e.g, e.rnd);
        }
      } else if victory || gameOver {
        LeaveLevel();
      } else if shutdown || e.Closed? {
        gameOver := true;
      } else if e.Play? {
        PlayMove(e.command, e.rnd);
      }
    }

    /** One step of the session: what each event does in each phase, and that it does nothing else. */
    method Step(e: Event)
      requires Valid()
      modifies this
      ensures Valid() && points >= old(points) && portals >= old(portals) && (old(gameOver) ==> portals == old(portals))
      ensures shutdown == (old(shutdown) || e.Shutdown?)
      ensures old(phase) == Over ==> Now() == old(Now()).(shutdown := shutdown)
      ensures old(phase) == Choosing ==>
                Now() == if currentLevel < |levels| && !shutdown then
                           var loaded := levels[currentLevel];
                           old(Now()).(phase := Playing, victory := false, shutdown := shutdown,
                                       board := loaded.(pac := loaded.pac.(alive := true, points := points)))
                         else old(Now()).(phase := Over, shutdown := shutdown)
      ensures old(phase) == Playing && e.GhostMoves? ==>
                Now() == if e.g < |old(board).ghosts| then
                           old(Now()).(board := Do(old(board), GhostCall(e.g, e.rnd)).s)
                         else old(Now())
      ensures old(phase) == Playing && !e.GhostMoves? && (old(victory) || old(gameOver)) ==>
                Now() == old(Now()).(phase := Choosing, shutdown := shutdown,
                                     currentLevel := old(currentLevel) + if old(victory) then 1 else 0)
      ensures old(phase) == Playing && !e.GhostMoves? && !old(victory) && !old(gameOver) && (shutdown || e.Closed?) ==>
                Now() == old(Now()).(gameOver := true, shutdown := shutdown)
      ensures old(Open(Now())) && e.Nothing? ==> Now() == old(Now())
      ensures old(Open(Now())) && e.Play? ==>
                var r := Do(old(board), PacCall(Command(e.command, 1, 0), e.rnd));
                Now() == old(Now()).(board := r.s, points := r.s.pac.points, executed := old(executed) + [e],
                                     victory := r.out == ReachedPortal, gameOver := r.out == DeadPacman)
    {
      hide Do, WellFormed;
      if e.Shutdown? {
        shutdown := true;
      }
      match phase {
        case Over =>
        case Choosing => ChooseLevel();
        case Playing => PlayOn(e);
      }
    }

    /**
      A whole run. The level index counts the portals reached and stays within range, the points
      are the dots eaten, and once `gameOver` is set nothing moves the pacman, the points or the
      level any more, though the session goes on until the server shuts down. The moves executed are
      exactly those that met an open level, in order, with their own commands; and a level that nothing
      ends is played as it is asked for, the client's moves and the ghosts' turns one after the other.
     */
    method Run(events: seq<Event>) returns (ghost st: seq<Status>)
      requires Valid()
      modifies this
      ensures Valid() && points >= old(points) && portals >= old(portals)
      ensures phase != Playing || !victory ==> currentLevel == portals
      ensures currentLevel <= |levels| && points == eaten
      ensures old(gameOver) ==>
                && gameOver && points == old(points) && currentLevel == old(currentLevel)
                && executed == old(executed)
      ensures old(gameOver) && old(phase) != Over && !shutdown && currentLevel < |levels| ==> phase != Over
      ensures |st| == |events| + 1 && st[0] == old(Now()) && st[|events|] == Now()
      ensures executed == old(executed) + MovesMet(st, events)
      ensures old(Open(Now())) && PlayedThrough(old(board), events) ==>
                && Open(Now()) && currentLevel == old(currentLevel)
                && board == Maze.Run(old(board), ActionsOf(events, |old(board).ghosts|))
    {
      hide Do, Maze.Run, GoesOn, WellFormed, MovesMet, PlayedThrough;
      NothingMet([Now()]);
      var i := 0;
      st := [Now()];
      NothingPlayed(board);
      assert events[..0] == [];
      while i < |events|
        invariant 0 <= i <= |events|
        invariant Valid() && points >= old(points) && portals >= old(portals)
        invariant old(gameOver) ==>
                    && gameOver && points == old(points) && currentLevel == old(currentLevel)
                    && executed == old(executed)
        invariant old(gameOver) && old(phase) != Over && !shutdown && currentLevel < |levels| ==> phase != Over
        invariant |st| == i + 1 && st[0] == old(Now()) && st[i] == Now()
        invariant executed == old(executed) + MovesMet(st, events[..i])
        invariant old(Open(Now())) && PlayedThrough(old(board), events[..i]) ==>
                    && Open(Now()) && currentLevel == old(currentLevel)
                    && board == Maze.Run(old(board), ActionsOf(events[..i], |old(board).ghosts|))
      {
        ghost var before := st;
        Step(events[i]);
        st := st + [Now()];
        assert events[..i + 1][..i] == events[..i];
        MetLast(before, Now(), events[..i + 1]);
        if old(Open(Now())) && PlayedThrough(old(board), events[..i + 1]) {
          PlayedBefore(old(board), events[..i + 1]);
        }
        i := i + 1;
      }
      assert events[..i] == events;
    }
  }

  lemma NothingMet(st: seq<Status>)
    requires |st| == 1
    ensures MovesMet(st, []) == []
  {
  }

  lemma MetLast(st: seq<Status>, last: Status, events: seq<Event>)
    requires |st| == |events| > 0
    ensures var n := |events| - 1;
            MovesMet(st + [last], events) ==
            MovesMet(st, events[..n]) + if events[n].Play? && Open(st[n]) then [events[n]] else []
  {
    SameMet(st, st + [last], events[..|events| - 1]);
  }

  lemma {:induction false} SameMet(st: seq<Status>, longer: seq<Status>, events: seq<Event>)
    requires |events| <= |st| - 1 <= |longer| - 1 && longer[..|st|] == st
    ensures MovesMet(longer, events) == MovesMet(st, events)
    decreases |events|
  {
    if events != [] {
      assert longer[|events| - 1] == longer[..|st|][|events| - 1];
      SameMet(st, longer, events[..|events| - 1]);
    }
  }
}
