# PacmanIST, verified

A Dafny model of PacmanIST: the maze game engine, the server that plays it with one thread per ghost
and one session thread per client, the queue that hands clients to session threads, the level and
script parsers, and the bytes on the pipes.

| modules | part of the system |
|---|---|
| `Maze`, `Effects` | one level as an atomic transition system, and the exact effect of every call, cell by cell |
| `Agreement`, `Charge`, `Fate`, `Walks`, `Script` | what every run of it keeps, and how charges and scripts behave |
| `GameBoards` | the engine's own in-place code, loop by loop, proved to do what `Maze` says |
| `Threads`, `ThreadLocks`, `ThreadProgress` | the server's threads on one level, one lock, read or write at a time; who holds what, and what can get stuck |
| `Landing`, `ThreadView`, `ThreadEffect`, `ThreadRefinement`, `ThreadGuarantees` | those threads against the atomic game: where each call takes effect, the refinement, and what it means for the board |
| `ThreadPlay` | the converse: every run of the atomic game is an execution of the threads |
| `ThreadSchedules` | what the threads keep under every schedule whatever, racing charges included |
| `ThreadWitness`, `WitnessLevels` | executions that mark where the guarantees for threads end, and the loaded levels they start from |
| `RequestRing`, `Queue`, `QueueInvariant`, `QueueGuarantees`, `QueueService` | the ring of session requests with its semaphores, mutex and shutdown; what never goes wrong, and what gets done |
| `Wire`, `Pipes` | frames, streams and connection records, and the code that reads and writes them |
| `Loader`, `AgentFiles`, `ScriptParser` | the grid, the agents' files and marks, and their move lines |
| `Session` | level after level, points and game over |

How the parts fit. `Maze` gives every move as a function of the level, and `Effects` says of each call,
without the functions it is made of, what it leaves of every cell and every record. `Agreement`, `Fate`, `Walks` and
`Script` prove what all runs of these moves keep; `Charge` proves that the charged slide is the
iteration of ordinary steps; `GameBoards` proves that the engine's loops and assignments compute these
functions. `Threads` then takes the same calls apart into single lock operations, reads and writes
by any number of threads, each ghost playing its own script. `ThreadRefinement` puts them together
again: through a view that shows each call at its point of effect, an interleaving is a run of
`Maze` itself, waiting, charges and the portal exit included; `ThreadGuarantees` says what that means
for the board in the middle of moves. `ThreadPlay` goes the other way: whatever is asked for is done, so
that the threads have all the runs of the atomic game and not fewer. `ThreadSchedules` needs no refinement and no condition on the
schedule: scripts, dots, the one death, walls and portals, reachability and speed, for all executions.

Where the code does not do what one would expect, the model keeps the code's behaviour, and theorems
say how far the expected property goes:

- Reaching the portal leaves `pos_x` and `pos_y` behind, so agreement survives a call if and only if the
  call is not a live pacman's active step onto a portal cell (`Agreement.AgreeSurvivesExactly`), and a
  run agrees throughout if and only if it has no such step (`Agreement.RunAgreesExactly`).
- The server's portal exit returns with two cell mutexes locked. Whatever random numbers the ghosts
  draw, the moves in flight can be completed if and only if none of them needs such a mutex, neither
  those already planned nor those that scripts are about to plan (`ThreadProgress.DrainsExactly`); and
  exactly then the level can still be unloaded (`ThreadProgress.UnloadsExactly`). An execution on a
  freshly loaded level after which no thread can step is in `ThreadWitness.PortalExitCanDeadlock`.
- The server's charged move writes the board after it has released its mutexes. Every execution in which
  no ghost reads a cell that another ghost has yet to leave or to take is a run of the atomic game
  (`ThreadRefinement.ExecutionRefines`); ghosts whose scripts never charge meet that under every
  schedule (`ThreadGuarantees.UnchargedRefines`). Without it two scripted charges on a freshly loaded
  level can leave two ghosts on one cell (`ThreadWitness.ChargesCanCollide`). Everything in
  `ThreadSchedules` holds of those executions too.
- A comment line inside the grid or the moves is never left by the reading loop: exactly which grids and
  which move lines hang is in `Loader.ReadGrid` and `ScriptParser.HangsExactly`. `strtok` has cut the
  line that ends a file's header; the move on it is lost exactly when it is a wait
  (`ScriptParser.CutExactly`). A short grid line shows what the buffer held before
  (`Loader.RowShowsLine`).
- A charge leaves the cells it slides over as they are, where ordinary moves would blank them, so the
  two leave the same level if and only if those cells are blank (`Charge.ChargeIsIteratedSteps`). On a
  level with a line for every row they always are (`Loader.LoadedIsPlain`); a level loaded from too few
  lines where they are not is in `Loader.ShortGridChargeDiffers`.
- After `game_over` the session goes round the same level until the server shuts down
  (`Session.GameSession.Run`).

Random numbers, the client's operations, the order of the threads, the number of bytes a read or write
takes and whether it fails are parameters or non-deterministic choices, so every statement holds for
all of them. Nothing is bounded: boards, ghosts, threads, producers, consumers, runs, scripts and
streams are arbitrary.

## Model

| member | source | states |
|---|---|---|
| `Maze.IndexInjective` | standalone-game/src/board.c:27-34 | Two valid positions have the same row-major index only if they are the same position |
| `Maze.GhostCallMoves` | standalone-game/src/board.c:288-323 | A ghost thread's call with a direction is one step, or one charge, of the ghost with its wait restarted and its script advanced, and changes no move of the script |
| `Maze.GhostCallWaits` | standalone-game/src/board.c:245-286 | Any other call changes nothing but that ghost's timing: no cell, no position, no pacman, and it reports neither a death nor the portal |
| `Effects.DirectionsDrawn` | standalone-game/src/board.c:61-64 | 'R' stands for up, down, left or right as the random number leaves 0, 1, 2 or 3 when divided by four; any other letter stands for itself |
| `Effects.PacmanAdvances` | standalone-game/src/board.c:121-131 | An active call towards a cell on the board with no portal, wall or ghost: the pacman is there, has one point more exactly if the cell had a dot, the cell shows 'P' without a dot, the old cell is blank, no other cell and no ghost changes, and the call is valid |
| `Effects.PacmanRefused` | standalone-game/src/board.c:94-114 | At the edge of the board or a wall nothing changes but the pacman's timing, and the move is invalid |
| `Effects.PacmanMeetsGhost` | standalone-game/src/board.c:116-119 | At a ghost the pacman dies where it is: its cell is blanked, points, coordinates and all other cells stay |
| `Effects.PacmanTakesPortal` | standalone-game/src/board.c:103-107 | At a portal, whatever stands on it, the old cell is blanked and the portal cell shows 'P'; coordinates, points, dots and all other cells stay |
| `Effects.PacmanStays` | standalone-game/src/board.c:43-89 | Every other call: a dead pacman changes nothing, a waiting one waits, a 'T' counts, any other letter is invalid; each with its code and its exact record |
| `Effects.GhostRests` | standalone-game/src/board.c:245-286 | Every ghost call without a direction changes that ghost's record alone: a wait, a charge, a 'T' with more turns or with its last one, an unknown letter; each with its code and its exact record |
| `Effects.GhostRefused` | standalone-game/src/board.c:293-305 | A ghost without a charge at the edge, a wall or a ghost: nothing but its timing, and the move is invalid |
| `Effects.GhostAdvances` | standalone-game/src/board.c:308-323 | On any other cell it lands: 'M' there, its old cell blank, its record exact, no other cell changed, and the pacman dead exactly if it is found there alive |
| `Effects.SlideEnds` | standalone-game/src/board.c:135-210 | Every slide has an end: the first 'P', or the last cell before a wall, a ghost or the edge |
| `Effects.ChargeRefused` | standalone-game/src/board.c:137-210 | A charged ghost with the edge before it loses its charge, and nothing else happens |
| `Effects.ChargeLands` | standalone-game/src/board.c:135-238 | Any other charged ghost lands, in the same exact sense, where its slide ends, and kills exactly if it ends on a 'P' that the live pacman stands on |
| `GameBoards.GameBoard.KillThePacman` | standalone-game/src/board.c:326-336 | The in-place kill has exactly the effect of `KillPacman` on the whole level |
| `GameBoards.GameBoard.FindAndKillPacman` | standalone-game/src/board.c:14-24 | Level and result are those of `FindAndKill`: a kill exactly for a live pacman at that position |
| `GameBoards.GameBoard.ChargedDirection` | standalone-game/src/board.c:135-210 | All four scanning loops stop where the recursive slide stops, refuse exactly at the edge of the board, and kill exactly when the slide hits a 'P' that the pacman stands on |
| `GameBoards.GameBoard.MoveGhostCharged` | standalone-game/src/board.c:212-238 | The whole new level and the returned code are those of `GhostCharge` |
| `GameBoards.GameBoard.PlayGhost` | standalone-game/src/board.c:252-323 | Decoding, the countdown of a wait, the script index, charge and step: level, countdown and code are those of `GhostTurn` for a ghost done waiting |
| `GameBoards.GameBoard.MoveGhost` | standalone-game/src/board.c:240-324 | The whole new level, the command's countdown and the returned code are those of `GhostTurn`, in every branch |
| `GameBoards.GameBoard.GhostThreadTurn` | standalone-game/src/game.c:286-290 | One turn of the thread under the board lock is one atomic ghost call, with the countdown written back into the ghost's script |
| `GameBoards.GameBoard.StepPacman` | standalone-game/src/board.c:94-131 | The tail of the pacman's move has exactly the effect of `PacmanStep`, whose cases `Effects` spells out: portal, wall, ghost, dot and ordinary cells |
| `GameBoards.GameBoard.PlayPacman` | standalone-game/src/board.c:59-131 | The same for the pacman: level, countdown and code are those of `PacmanTurn` once it is done waiting |
| `GameBoards.GameBoard.MovePacman` | standalone-game/src/board.c:43-132 | The whole new level, the countdown and the returned code are those of `PacmanTurn`; a negative index is refused and changes nothing |
| `Agreement.FindingPKills` | standalone-game/src/board.c:14-24 | On a level that agrees with its agents, a 'P' found at a position always leads to a kill there |
| `Agreement.GhostStepKeepsAgree` | standalone-game/src/board.c:293-323 | An uncharged ghost move keeps agreement, walls and portals |
| `Agreement.GhostChargeKeepsAgree` | standalone-game/src/board.c:135-238 | A charge keeps agreement, walls and portals |
| `Agreement.PacmanStepKeepsAgree` | standalone-game/src/board.c:94-131 | A pacman move that does not reach the portal keeps agreement, walls and portals |
| `Agreement.PortalBreaksAgree` | standalone-game/src/board.c:103-107 | A move that reaches the portal never leaves an agreeing level: a 'P' stands where the pacman's coordinates are not |
| `Agreement.PortalExactly` | standalone-game/src/board.c:94-107 | A call reports the portal if and only if it is the active call of a live pacman, its resolved letter is a direction, and the cell in that direction is on the board and has a portal |
| `Agreement.AgreeSurvivesExactly` | standalone-game/src/board.c:43-324 | Agreement survives a call if and only if the call is not such a step onto a portal, which can be told before the call; otherwise walls and portals stay too |
| `Agreement.RunKeepsAgree` | standalone-game/src/board.c:43-336 | Over every run before the portal, 'M' cells are exactly the pairwise distinct ghost positions, the only 'P' is the live pacman's, and walls and portals stay |
| `Agreement.RunAgreesExactly` | standalone-game/src/board.c:43-336 | A run leaves an agreeing level after each of its calls if and only if it never reaches the portal |
| `Charge.SlideIsIterated` | standalone-game/src/board.c:135-238 | The slide ends in the same place, and kills in the same cases, as the uncharged move repeated until it is refused or kills; the cells are the same if and only if every cell passed over is blank |
| `Charge.ChargeIsIteratedSteps` | standalone-game/src/board.c:212-238 | A charge in any direction leaves the same ghosts and pacman as the iterated ordinary moves, returns a death exactly when they kill and a refusal exactly at the edge, and leaves the same cells if and only if every cell passed over is blank |
| `Charge.ChargeIsIteratedStepsInPlay` | standalone-game/src/board.c:288-323 | On every level that play can lead to from a fully loaded one, the charge and the iterated moves leave the whole level equal |
| `Fate.GhostCallOnlyKills` | server/src/board.c:394-412 | A ghost call leaves every dot and the pacman's record alone, except that it ends the pacman's life exactly when it reports a death |
| `Fate.RunConservesDots` | server/src/board.c:132-141 | Over every run, portal included, points plus remaining dots never change and points never decrease |
| `Fate.DeadStaysDead` | standalone-game/src/board.c:43-46 | After a death every pacman call returns a death and changes nothing, and no ghost call reports one again |
| `Fate.DeathFreezes` | standalone-game/src/board.c:43-46 | From any well-formed level, once the pacman is dead no run changes its record or any dot, and no ghost reports a death |
| `Fate.DeathIsFinal` | standalone-game/src/board.c:14-24 | On an agreeing level a dead pacman also leaves no 'P' anywhere, after every run |
| `Fate.DeathHappensOnce` | standalone-game/src/board.c:309-323 | In every run from any well-formed level, portal included, at most one ghost call reports a death, and then the pacman was alive before and is dead after; nobody comes back to life |
| `Walks.RunStaysGrounded` | standalone-game/src/board.c:91-323 | If no agent stands on a wall and no portal cell is one, that stays so over every run, portal included, and walls and portals stay where they are |
| `Walks.GhostStaysJoined` | standalone-game/src/board.c:141-209 | After every run from a level with no agent on a wall, portal and charges included, each ghost is joined to its start by a four-neighbour walk over cells inside the board that are not walls |
| `Walks.PacmanStaysJoined` | standalone-game/src/board.c:91-131 | After every such run the pacman is joined to its start by such a walk, with at most one step per active call |
| `Walks.GhostWalksSlowly` | standalone-game/src/board.c:288-323 | After every such run a ghost without charges is joined to its start by a walk with at most one step per active call |
| `Walks.ActiveExactly` | standalone-game/src/board.c:245-250 | k calls from a wait of w contain none that is active if k <= w, and (k-w-1)/(passo+1)+1 otherwise |
| `Walks.PacActiveExactly` | standalone-game/src/board.c:52-57 | A run's active pacman calls are exactly that many while the pacman lives, and never more |
| `Walks.GhostActiveExactly` | standalone-game/src/board.c:245-250 | A run's active calls of a ghost are exactly that many, whatever else happens between them |
| `Walks.JoinedBoundsDistance` | standalone-game/src/board.c:259-272 | A walk of at most n steps covers a Manhattan distance of at most n |
| `Walks.PacmanSpeedLimit` | standalone-game/src/board.c:52-131 | In every run from any well-formed level the pacman is never farther from its start, in Manhattan distance, than its number of calls and its `passo` allow |
| `Walks.GhostSpeedLimit` | standalone-game/src/board.c:245-323 | The same for a ghost that never charges, in every run from any well-formed level |
| `Script.OneRound` | server/src/board.c:313-318 | passo+1 calls are one active call, and the wait stands where it stood |
| `Script.OneMove` | server/src/board.c:341-357 | A move takes n active calls for 'T n' and one otherwise, and leaves the script as it found it |
| `Script.ScriptHasPeriod` | server/src/board.c:313-359 | After (passo+1) times the sum of the costs, from a script boundary, `current_move` has grown by exactly the number of moves, and every countdown and the wait are as before |
| `Script.CountersStayInRange` | server/src/board.c:345-351 | Every `turns_left` of a 'T' stays between 1 and its `turns` |
| `Script.CompletesExactlyWhenPlayable` | server/src/board.c:327-354 | From a boundary a script completes a cycle if and only if each of its commands is a letter of the interpreter or a 'T' of at least one turn |
| `Script.RunTicks` | server/src/game.c:75 | Over any run of the board a ghost's script advances by exactly its own calls |
| `Script.ScriptHasPeriodOnBoard` | server/src/board.c:313-359 | The period holds on the board, whatever the other agents do between the ghost's calls |
| `ScriptParser.ReadMoves` | server/src/parser.c:281-306 | The loop returns exactly the parsed moves, at most 20, or never ends, and it never ends exactly when a comment line is reached; `ReadsExactly` and `WaitLine` say which moves these are |
| `ScriptParser.HangsExactly` | server/src/parser.c:283-304 | Reading hangs if and only if some line is a comment, no earlier line is empty or a comment, and fewer moves than there is room for come before it |
| `ScriptParser.ReadsExactly` | server/src/parser.c:281-306 | What is read are the moves of the lines before the first empty or comment line, in order, as many as there is room for |
| `ScriptParser.LineMove` | server/src/parser.c:285-303 | A line that starts with a letter gives that letter for one turn; any other accepted line starts with 'T ' and gives a wait with as many turns to go as it has |
| `ScriptParser.LettersAccepted` | server/src/parser.c:204-210 | The letters let through are A D W S R C in a ghost's file, and A D W S R G Q in the pacman's |
| `ScriptParser.AtoiReadsDecimal` | server/src/parser.c:296 | The number read is the one written in decimal, behind white space, with or without a sign, and before anything that is no digit |
| `ScriptParser.WaitLine` | server/src/parser.c:295-302 | The line 'T n' is a wait of exactly n turns with n to go, and no move for zero or a negative number |
| `ScriptParser.ParsedIsPlayable` | server/src/parser.c:285-303 | Every move that the filter lets through can be played, with its countdown wound up and in range |
| `ScriptParser.ParsedScriptHasPeriod` | server/src/parser.c:254-303 | Every parsed script with at least one move has its exact period, for every `passo` |
| `ScriptParser.CutExactly` | server/src/parser.c:251-303 | Cutting a line behind its first word changes its move if and only if the move is a wait, and then there is none |
| `ScriptParser.FirstLineExactly` | server/src/parser.c:278-305 | A file whose header ends in a wait is parsed as if that line were not there; any other as if it had not been cut |
| `ThreadLocks.LocksAscend` | server/src/board.c:191-269 | Every move, charged ones included, takes its cell mutexes in strictly ascending index order along rows and columns |
| `ThreadLocks.StepKeepsLockInv` | server/src/game.c:66-77 | Every step keeps: the read lock is held by exactly the ghosts in flight, the write lock excludes them, each cell mutex is held by the thread whose program counter says so, and ghosts told to stop start no move |
| `ThreadLocks.LockInvAlways` | server/src/board.c:177-435 | The same over every execution, for any number of ghosts, charged or not, portal included |
| `ThreadProgress.EffortShrinks` | server/src/board.c:370-434 | Every step of a thread inside its move lowers a measure that is never negative, whatever random number it draws, so no move goes on for ever |
| `ThreadProgress.FindRunnable` | server/src/board.c:371-378 | Following the holders of the mutexes, in ascending order, always leads to a ghost that can step |
| `ThreadProgress.FlightProgress` | server/src/board.c:104-111 | While any move is in flight and needs no mutex kept by the portal exit, some thread in flight can step |
| `ThreadProgress.Drains` | server/src/board.c:177-435 | If no move in flight, or about to be planned by a script with the given random numbers, needs a kept mutex, they can be completed by steps of their own threads with exactly those numbers, in at most as many steps as the measure says |
| `ThreadProgress.PortalExitBlocksForGood` | server/src/board.c:115-119 | A ghost that needs a mutex left locked by the portal exit stays in flight under every schedule, and the level is never unloaded |
| `ThreadProgress.EnteredBlocks` | server/src/game.c:66-77 | A ghost that has entered its turn, and whose scripted move will need a kept mutex, never lets the flight end under any schedule with those random numbers |
| `ThreadProgress.DrainsExactly` | server/src/board.c:103-119 | For every choice of the random numbers, the moves in flight can be completed if and only if none needs a mutex that the portal exit left locked, where a ghost that has entered plays the move its script gives |
| `ThreadProgress.NeverStuckBeforePortal` | server/src/board.c:177-435 | In every state reachable from a loaded level before the portal exit some thread can step, and the moves in flight can be completed for every choice of the random numbers |
| `ThreadProgress.FlightAlwaysFinishes` | server/src/board.c:177-435 | While no mutex is kept, every schedule of the moves in flight, with any random numbers, is bounded by the measure, and one that cannot be continued has completed them all |
| `ThreadProgress.WriterExcludesGhosts` | server/src/server_main.c:346-348 | While the main thread holds the write lock no ghost is inside its turn: pacman moves never overlap ghost moves |
| `ThreadProgress.StopFreezesBoard` | server/src/game.c:19-27 | Once `shutdown` is set under the write lock, no step of any thread writes the board of the level again |
| `ThreadProgress.UnloadedIsOver` | server/src/server_main.c:368-369 | When the level is unloaded every ghost thread has exited, no thread has a step left, `shutdown` is reset, the read-write lock is free, and nothing is locked but what a portal exit kept |
| `ThreadProgress.StopAlwaysFinishes` | server/src/game.c:19-27 | From the moment `shutdown` is set every schedule is finite, with a bound on its steps, and one that cannot be continued has unloaded the level |
| `ThreadProgress.UnloadsExactly` | server/src/board.c:103-119 | For every choice of the random numbers, some schedule unloads the level if and only if no ghost needs a mutex that the portal exit left locked |
| `Landing.CallLands` | server/src/board.c:308-412 | A call of `Maze` that moves, uncharged or charged, is: the private work on the timing, then a landing on the cell where its plan stops, with a kill exactly if the pacman is found there |
| `ThreadEffect.LookSeesView` | server/src/board.c:366-380 | A ghost that holds its mutexes, and reads no cell that another ghost has yet to leave or to take, reads what the view shows, on the cell ahead and on all those it has read before |
| `ThreadEffect.WritingKeepsView` | server/src/board.c:393-412 | The single writes and unlocks that complete a move past its point of effect leave the view as it is, a charge's writes without its mutexes too |
| `ThreadEffect.DecisionIsCall` | server/src/board.c:380-412 | The read that settles where a move ends performs, on the view, exactly the ghost's call of `Maze`, with its kill and its timing |
| `ThreadEffect.RefusalIsCall` | server/src/board.c:382-390 | Reading a wall or a ghost performs the refused call on the view |
| `ThreadEffect.RestIsCall` | server/src/board.c:313-357 | A turn that moves nothing on the board, because it waits, charges up or leaves the board, is the whole call of `Maze` on the view at once |
| `ThreadRefinement.StepRefines` | server/src/board.c:308-435 | Each step of each thread that reads no such cell is one call of `Maze` on the view or none, and keeps the view's invariant |
| `ThreadRefinement.ExecutionRefines` | server/src/board.c:308-435 | Every execution made of such steps shows, through the view, exactly the run of `Maze` made of its calls in the order of their points of effect: scripts, waiting, charges, pacman moves and the portal exit. That no run is missing is `ThreadPlay` |
| `ThreadRefinement.QuietBoardIsRun` | server/src/game.c:66-77 | From a loaded level to any moment with no move in flight, the board itself is the one that run of `Maze` leaves |
| `ThreadGuarantees.UnchargedRefines` | server/src/board.c:308-412 | If no script charges, every interleaving whatever is such a run, and with nothing in flight the board is the run's |
| `ThreadGuarantees.GhostsNeverShare` | server/src/board.c:406-412 | At no step, in the middle of moves either, do two ghosts share a position |
| `ThreadGuarantees.BoardAtEveryStep` | server/src/board.c:366-435 | At every step of every such execution, portal exit included: ghosts apart, each ghost that is not writing on an 'M' unless its cell is kept by the portal exit, and each 'M' the position of a ghost |
| `ThreadPlay.PlayIsAnswered` | server/src/server_main.c:345-353 | From a level at rest every request of the client is carried out by steps of the main thread alone: exactly that call, with its own letter and random number, is made on the board; then the main thread waits for the next request with everything unlocked, or, after a portal or a death, goes to stop the ghosts |
| `ThreadPlay.TurnIsTaken` | server/src/game.c:66-77 | From a level at rest a ghost takes its turn by steps of its own thread alone: exactly its scripted call is made, and everything is unlocked again |
| `ThreadPlay.AloneRun` | server/src/board.c:308-435 | However far the turn of a ghost that is alone has got, every way to go on ends with the board that its call was going to leave |
| `ThreadPlay.EveryRunIsExecuted` | server/src/server_main.c:290-362 | For every list of requests and ghosts' turns in which no request ends the level, there is an execution that leaves exactly the board of that run of `Maze`, with nothing in flight and nothing locked |
| `ThreadPlay.RunsFromTheStart` | server/src/server_main.c:288-362 | The same from every loaded level whose threads are about to start |
| `ThreadSchedules.StepTicks` | server/src/board.c:313-359 | A step moves a ghost's timing by one tick of its script if it is the ghost beginning a turn, and not at all otherwise |
| `ThreadSchedules.ThreadTicks` | server/src/game.c:66-77 | Under every schedule, at any point of a move, a ghost's timing is its script ticked by the number of turns it has begun |
| `ThreadSchedules.ThreadScriptHasPeriod` | server/src/board.c:313-359 | Under every schedule, a ghost that has begun as many turns as its script's period has gone through its script exactly once and its timing stands where it stood |
| `ThreadSchedules.ThreadsConserveDots` | server/src/board.c:132-141 | Under every schedule points plus remaining dots never change and points never decrease |
| `ThreadSchedules.StepKeepsRaceInv` | server/src/board.c:380-412 | Every step keeps the locks right, the pacman's request in hand, and the pacman on the cell where a ghost about to kill has found it |
| `ThreadSchedules.WritesUnderMutex` | server/src/board.c:366-435 | Wherever an execution from a loaded level stands, a cell is written only by the thread that holds its mutex, except by the last writes of a charge, which has given its mutexes back |
| `ThreadSchedules.ThreadsKillOnce` | server/src/board.c:394-412 | Under every schedule the pacman is killed, by a ghost or by walking into one, exactly once if it starts alive and ends dead or found, and otherwise never; it never comes back |
| `ThreadSchedules.ThreadSpeedLimit` | server/src/board.c:313-412 | Under every schedule, in the middle of moves too, a ghost that never charges is never farther from its start than the turns it has begun and its `passo` allow, however the others race |
| `ThreadSchedules.StepKeepsMaze` | server/src/board.c:366-435 | Every step keeps walls and portals, agents off walls, and every cell that a ghost has read as free of a wall free of it |
| `ThreadSchedules.ThreadsKeepMaze` | server/src/board.c:366-435 | Under every schedule, portal exit and racing charges included, walls and portals stay exactly where they were and no agent comes to stand on a wall |
| `ThreadSchedules.ThreadGhostStaysJoined` | server/src/board.c:191-307 | Under every schedule each ghost's stored position is joined to its start by a four-neighbour walk over open cells, and that of a ghost that never charges by one with at most one step per active turn |
| `ThreadSchedules.ThreadPacmanStaysJoined` | server/src/board.c:44-152 | Under every schedule the pacman is joined to its start by such a walk with no more steps than the client's requests and its `passo` allow |
| `ThreadSchedules.ThreadPacmanSpeedLimit` | server/src/board.c:44-152 | The same bound on the pacman's distance from its start, from every loaded level |
| `ThreadWitness.PortalExitCanDeadlock` | server/src/board.c:115-119 | From the level that the loader makes of the line o@o and a ghost's file, whatever its buffer held, an execution over the portal exit, with the move the ghost's script gives, to a state in which no thread can step and the level is not unloaded |
| `ThreadWitness.ChargesCanCollide` | server/src/board.c:288-304 | From the level that the loader makes of two lines ooo, whatever its buffer held, and ghosts' files with C D and C A, an execution of these scripts after which, with nothing in flight, two ghosts stand on one cell |
| `RequestRing.Ring.Put` | server/src/server_main.c:199-200 | Storing at `rq_tail` appends the request to the unread contents and disturbs none of them |
| `RequestRing.Ring.Get` | server/src/server_main.c:212-213 | Reading at `rq_head` returns the oldest unread request and leaves the others in order |
| `QueueInvariant.StoreHasRoom` | server/src/server_main.c:195-204 | A producer about to store always finds a free slot, and `rq_tail` is the next place of the history |
| `QueueInvariant.ReadHasItem` | server/src/server_main.c:206-218 | Before any extra post a session thread about to read finds an item, and `rq_head` holds the oldest unread request |
| `QueueInvariant.StepKeepsInv` | server/src/server_main.c:195-218 | Every step, shutdown included, keeps the token accounts, the mutex, the indices, the serial numbers and, before any extra post, the FIFO |
| `QueueInvariant.InvAlways` | server/src/server_main.c:195-218 | The same over every execution, for any number of producers and consumers |
| `QueueGuarantees.StepIsFifo` | server/src/server_main.c:195-218 | Each step appends one request to an abstract queue of capacity 64, removes its oldest, or leaves it alone |
| `QueueGuarantees.ReadsArePrefix` | server/src/server_main.c:195-218 | The requests read are a prefix of those written, no unread slot is overwritten, and written minus read plus free slots plus threads in between is 64 |
| `QueueGuarantees.RingShowsUnread` | server/src/server_main.c:195-218 | Whenever no thread is inside a critical section, array and indices hold exactly the requests written and not yet read, in order, as `Ring` has it |
| `QueueGuarantees.NeverAllBlocked` | server/src/server_main.c:195-218 | Before any extra post, with one producer and one live session thread, some thread of the queue can step |
| `QueueGuarantees.GatesOpen` | server/src/server_main.c:519-520 | With every thread at a semaphore, the two semaphores hold 64 tokens together |
| `QueueGuarantees.ServedWereEnqueued` | server/src/server_main.c:376-379 | Despite the extra posts, every request that passes the guard was really enqueued, and no enqueued request is served twice |
| `QueueGuarantees.TokensSuffice` | server/src/server_main.c:58-64 | Once all extra posts are made there is a token for every session thread still waiting |
| `QueueGuarantees.ShutdownWakesEveryone` | server/src/server_main.c:51-64 | From then on every schedule of the session threads is bounded, and one that cannot be continued has brought all of them to their exit, none left blocked |
| `QueueGuarantees.ExitIsReachable` | server/src/server_main.c:51-64 | Such a schedule can always be found, within the bound |
| `QueueService.RequestGetsIn` | server/src/server_main.c:195-204 | With a free slot a producer gets its request into the place at `rq_tail`, and nothing else changes but the tail, the two semaphores and the history |
| `QueueService.RequestGetsOut` | server/src/server_main.c:206-218 | With an item a session thread gets the request at `rq_head` out and serves it, and nothing else changes but the head, the two semaphores, its own place and the histories |
| `QueueService.SessionEnds` | server/src/server_main.c:373-432 | After a session its thread goes back to the loop for the next request, unless it has died in it |
| `QueueService.ExitsExactly` | server/src/server_main.c:376-433 | A session thread ends exactly at a test of `server_shutdown` that finds it set, or by dying in a session |
| `QueueService.AllAreServed` | server/src/server_main.c:373-432 | From any state at rest, every list of requests can be enqueued and served, each once and in order, and the state is at rest again |
| `QueueService.ServedFromTheStart` | server/src/server_main.c:519-520 | The same from the start, with at least one producer and one session thread |
| `QueueService.QueueFills` | server/src/server_main.c:195-204 | 64 requests are taken before anybody has asked for one |
| `QueueService.FullQueueBlocks` | server/src/server_main.c:196 | Without a free slot a producer waits |
| `Wire.IntRoundTrip` | server/src/server_main.c:262-267 | An int written as four bytes is read back, for every 32-bit value |
| `Wire.FrameLayout` | server/src/server_main.c:261-272 | A frame byte by byte: the opcode 4, width, height, tempo, victory, game over and points as four bytes each, least significant first, and the data |
| `Wire.NoFrame` | client/src/client/api.c:184-206 | The answer to an empty stream, to another opcode and to a short header, and what is left unread |
| `Wire.HeaderDecides` | client/src/client/api.c:198-226 | The fields received are what the bytes hold; an area, taken modulo 2 to the 32, below 1 or above 2048 is refused, missing data gives no board, and otherwise exactly that much data is the board's |
| `Wire.FrameRoundTrip` | client/src/client/api.c:174-227 | A frame at the front of a stream is received whole, and the rest stays, if and only if its area is between 1 and 2048; otherwise its size is refused |
| `Wire.CutFrameRefused` | client/src/client/api.c:198-222 | A frame cut anywhere gives no board and leaves nothing unread |
| `Wire.TruncatedStream` | client/src/client/api.c:174-227 | A stream of frames cut anywhere gives exactly its complete frames and then no board |
| `Wire.TruncatedStreamDrained` | client/src/client/api.c:174-227 | After the complete frames of a cut stream, the call that gives no board leaves nothing unread |
| `Wire.StreamRoundTrip` | client/src/client/api.c:174-227 | A whole stream gives back every frame in order |
| `Wire.GlyphExactly` | server/src/server_main.c:225-228 | The byte of a cell is its content, and for a blank cell '.' with a dot, else 'O' with a portal, else ' ' |
| `Wire.GlyphShowsContent` | server/src/server_main.c:225-228 | The character sent for a cell determines its content, and for a blank cell whether it has a dot, and without a dot whether it is the portal |
| `Wire.ConnectLayout` | client/src/client/api.c:66-72 | A connection record byte by byte: the opcode 1, and each name in a field of 40 bytes filled up with zeros |
| `Wire.OthersIgnored` | server/src/server_main.c:154-166 | Exactly the records that have not 81 bytes or not the opcode 1 are ignored |
| `Wire.ConnectRoundTrip` | client/src/client/api.c:68-72 | The server gets both pipe names back from a connection record if and only if each has at most 40 bytes |
| `Pipes.Pipe.ReadAll` | client/src/client/api.c:28-38 | However the reads split the bytes, the loop returns all the bytes asked for and leaves the rest, or returns 0 with the pipe drained, or returns -1 at the first read that fails |
| `Pipes.Pipe.ReceiveBoardUpdate` | client/src/client/api.c:174-227 | Under every way of splitting the reads, the reply and the bytes left are those of `Receive`; a failed read gives no board |
| `Pipes.Pipe.ReceiveAll` | client/src/client/api.c:174-227 | Repeated calls until no board return exactly the frames of the stream, and the first ones of them if a read fails |
| `Pipes.Pipe.ReceiveCutStream` | client/src/client/api.c:174-227 | Of a stream of frames cut anywhere the client receives exactly the complete frames, and the next call finds the end of the stream |
| `Pipes.SerializeBoard` | server/src/server_main.c:220-231 | Every cell's byte lands at the cell's row-major index: its content, or for a blank cell '.', 'O' or ' ' |
| `Pipes.SendBoardUpdate` | server/src/server_main.c:233-278 | The separate writes put on the pipe a prefix of the encoding of a frame that shows the level, and the code is 0 if and only if it is the whole frame: no write failed or fell short |
| `Pipes.SendThenReceive` | server/src/server_main.c:233-278 | The client gets a board if and only if the server sent the whole frame and no read failed, and it is the dimensions, the flags, the points and, at each row-major index, the byte that shows that cell |
| `Pipes.BuildConnect` | client/src/client/api.c:65-72 | The record built in place is the opcode and the two fields of 40 bytes, padded with zeros |
| `Loader.RowShowsLine` | server/src/parser.c:319-335 | The line buffer shows the line just read, a zero behind it, and past that whatever earlier lines left |
| `Loader.ReadGrid` | server/src/parser.c:94-123 | The loop fills exactly the cells that the rows describe, or never ends if and only if a comment line comes before the line after the grid |
| `Loader.ReadPacman` | server/src/parser.c:135-237 | With a file the pacman stands where its last position line says and every position is stamped; without one it takes the first free cell in row-major order, or none; the points are carried over, and reading hangs if and only if the file's move lines do |
| `AgentFiles.ReadHeader` | server/src/parser.c:247-276 | Every position line stamps its cell, and exactly those cells; the agent's record keeps the last position and the last `passo` |
| `AgentFiles.PassoIsLast` | server/src/parser.c:254-260 | `passo` is the number of the last PASSO line, wherever it stands, and 0 without one |
| `AgentFiles.PositionIsLast` | server/src/parser.c:262-271 | The position is that of the last POS line, and (0, 0) without one |
| `AgentFiles.GhostAsFileSays` | server/src/parser.c:240-306 | A ghost starts on that position with that `passo` and a full wait of it, uncharged, at the first of its moves |
| `AgentFiles.MarkedCell` | server/src/parser.c:262-271 | After all ghosts' files a cell shows 'M' if and only if some position line names it or it did before, and nothing else about it has changed |
| `AgentFiles.ReadGhosts` | server/src/parser.c:240-317 | The files' headers are stamped in order and each ghost is the one its file describes, uncharged, with the moves of its lines; reading hangs if and only if the move lines of some file do |
| `Loader.LoadedCells` | server/src/parser.c:102-118 | Every cell of the loaded level: 'M' where a ghost's file names it, else 'P' where the pacman's does or on the first free cell, else what the grid says, with dots and portals untouched |
| `Loader.LoadedAsFilesSay` | server/src/parser.c:135-306 | Every agent of a loaded level has position, `passo` and wait from the last lines of its own file, each ghost the first 20 moves of its lines; a pacman without a file does not wait |
| `Loader.LoadedMaze` | server/src/parser.c:106-118 | Walls are exactly the 'X' cells on which no agent was stamped, portals exactly the '@' cells, and dots on every other cell that is no 'X' |
| `Loader.LoadedIsPlain` | server/src/parser.c:90-123 | A grid with a line for every row leaves no cell unset, so that only blanks, walls, ghosts and the pacman are on the board |
| `Loader.LoadedAgreesExactly` | server/src/parser.c:135-276 | The loaded level agrees with its agents if and only if the ghosts stand apart, a ghost stands on every cell stamped 'M', and the cell left with the pacman's stamp is its own and the only one |
| `Loader.DefaultAgreesExactly` | server/src/parser.c:140-160 | Without a pacman file and with one position line per ghost, that is so if and only if there is a free cell and the ghosts stand apart from each other and from it |
| `Loader.PlayableExactly` | server/src/parser.c:306 | A loaded level can be played, without taking an index modulo zero, if and only if each ghost's file gives at least one move |
| `Loader.LoadedGroundedExactly` | server/src/parser.c:106-112 | No agent of the loaded level stands on a wall if and only if each stands on a cell that was no wall or that has been stamped over |
| `Loader.LoadedAgreesIsGrounded` | server/src/parser.c:106-118 | A loaded level that agrees with its agents has none of them on a wall, and no portal in one |
| `Loader.ShortGridChargeDiffers` | server/src/parser.c:96-123 | A level loaded from one line for four rows, on which a ghost's scripted charge leaves other cells than the iterated ordinary moves |
| `Loader.LoadLevel` | server/src/board.c:470-498 | Loading hangs exactly when the grid or a file does, and a load that ends gives the level described by grid, pacman file and ghosts' files, with the points carried over |
| `Session.GameSession.ChooseLevel` | server/src/server_main.c:285-288 | The next level is loaded with the points so far and without a victory, exactly while levels remain and the server runs |
| `Session.GameSession.LeaveLevel` | server/src/server_main.c:364-369 | A victory moves on by one level, anything else repeats the level |
| `Session.GameSession.PlayMove` | server/src/server_main.c:345-353 | The client's points grow by exactly the dots eaten; a portal is a victory, a death a game over |
| `Session.GameSession.PlayOn` | server/src/server_main.c:290-362 | One round of the inner loop, event by event: the client's own move is made and its result noted, a closed pipe or a shutdown ends the game, nothing sent changes nothing, and an ended level is left |
| `Session.GameSession.Step` | server/src/server_main.c:285-370 | The whole new session after each event in each phase: choosing, playing, leaving and over |
| `Session.GameSession.Run` | server/src/server_main.c:280-371 | Over every run the moves executed are exactly the client's moves that met an open level, in order, with their own commands; a level that nothing ends has the board of the run of these moves and the ghosts' turns; the level index equals the portals reached and stays in range, points equal the dots eaten and never decrease, and after a game over no move is executed and neither level nor points change, though the session does not end while the server runs |

## Left out

- Drawing and keyboard input with ncurses, logging, sleeping and `print_board`: user interface.
- Creation, opening and closing of FIFOs, signals, directory scanning and memory management: operating-system plumbing. Mutexes, semaphores and the read-write lock have their usual step semantics, without fairness.
- `generate_leaderboard` and `compare_filenames`: thin wrappers around `qsort`.
- `create_backup` and the forked copies of the standalone game: shallow copies of a process.
- `play_board`, `run_single_level`, `load_pacman`, `load_ghost`, `get_board_displayed`: not used by the server.
- Playing the move script of the pacman: the server does not play it, and the standalone thread copies each command, so that a wait never counts down. Its lines are read for what makes the reading hang.
- More than one pacman: the programs always use one.
- Unbounded integers stand for `current_move`, `points` and the numbers in script lines. The area of a frame wraps around at 32 bits, as in the programs.
- Threads: the pacman's update under the write lock and both mutexes is one step, because no other thread can then write the board; the private work of a ghost on its own timing is one step too, because nobody else reads it; the server's taking of the read lock to serialise a board, and of the write lock to note a disconnection, are not steps.
- ThreadRefinement.ExecutionRefines: covers the executions in which no ghost reads a cell that another ghost still stands on to leave it or is about to take, unless it is an 'M' that will stay one. That holds whenever no script charges; with charges it can fail, and then so can the property, as `ThreadWitness.ChargesCanCollide` shows. The condition is sufficient and not claimed to be necessary; what `ThreadSchedules` states does not need it. The server's charged move also returns an uninitialised result when nothing stops the slide; the threads ignore that result, and `Charge` is about the standalone engine, where it is defined.
- ThreadProgress.NeverStuckBeforePortal: ends at the portal exit, because after it a level can deadlock; `ThreadProgress.DrainsExactly` says exactly when.
- Charge.ChargeIsIteratedStepsInPlay: for runs before the portal, because the comparison with iterated steps needs a level that agrees with its agents.
- Whether a serialised board is a snapshot of one moment: it is read under the read lock while ghosts move. The frame codec is verified, not the snapshot.
- The early return of `send_board_update` for an empty board, which keeps the read lock: a well-formed level has at least the pacman's cell.
- `pacman_play` and `pacman_disconnect` write two fixed bytes and one. The reply to a connection request is not modelled.
- Splitting header lines into words, and the header of a level file (DIM, TEMPO, PAC, MON): an agent's header is the list of its PASSO and POS lines with their numbers, and the level's header is the parameters of `Loader.LoadLevel`. Comment lines and lines without arguments in a header have no effect and are not listed.
- Loader.LoadLevel: demands positions inside the board and a width that fits the line buffer, as the code does, which otherwise writes or reads outside its arrays; scripts may be empty, and `Loader.PlayableExactly` says what that means. Files are assumed to open and to be read without errors. The first grid line has been cut by `strtok` at a blank; a blank and the zero it became both make a cell with a dot.
- A host thread blocked in `read` while the server shuts down, and a session thread that dies because a client's FIFO cannot be opened: the latter is the exit after `Serving` in `Queue`.
- Sessions are not claimed to end; after a game over they go on until the server shuts down.
