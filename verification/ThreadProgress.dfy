/**
  What the ascending lock order buys. Before the portal exit the moves in flight end under every
  schedule and every random number. After it they can end exactly when none of them needs a mutex
  that the exit left locked, for the moves their scripts make them do. Stopping the ghosts finishes
  under every schedule, and from then on nothing touches the board.
 */
module ThreadProgress {
  import opened Maze
  import opened Threads
  import opened ThreadLocks

  // ----- a measure on the steps a move still has to make

  function Rank(b: State, pc: Pc): int {
    match pc
    case Sleeping => 0
    case Entered => 3 * (b.width + b.height) + 9
    case Locking(p, k) => 3 * p.reach + 8 - k
    case Look(p, j) => 2 * p.reach + 8 - j
    case Kill1(p, j) => p.reach + 7
    case Kill2(p, j) => p.reach + 6
    case Clear(p, j) => if p.charged then 4 else p.reach + 5
    case SetPos(p, j) => if p.charged then 3 else p.reach + 4
    case Mark(p, j) => if p.charged then 2 else p.reach + 3
    case Unlocking(p, k, j, pending) => p.reach + 2 - k + if pending then 3 else 0
    case Leaving(exit) => 1
    case Done => 0
  }

  function MainRank(m: MainPc): nat {
    match m
    case Playing(d, rnd) => 7
    case MainLocking(p, k) => if k == 0 then 6 else 5
    case Moving(p) => 4
    case MainUnlocking(p, k) => if k == 0 then 3 else 2
    case Releasing(kept) => 1
    case Flagging(kept) => 2
    case Flagged(kept) => 1
    case _ => 0
  }

  function Ranks(b: State, pcs: seq<Pc>): int {
    if pcs == [] then 0 else Rank(b, pcs[0]) + Ranks(b, pcs[1..])
  }

  /** Lock and board steps left to the moves in flight. */
  function Effort(s: Sys): int {
    MainRank(s.main) + Ranks(s.b, s.pc)
  }

  lemma {:induction false} RanksUpdate(b: State, pcs: seq<Pc>, g: nat, pc: Pc)
    requires g < |pcs|
    ensures Ranks(b, pcs[g := pc]) == Ranks(b, pcs) - Rank(b, pcs[g]) + Rank(b, pc)
  {
    if g == 0 {
      assert pcs[g := pc][1..] == pcs[1..];
    } else {
      assert pcs[g := pc][1..] == pcs[1..][g - 1 := pc];
      RanksUpdate(b, pcs[1..], g - 1, pc);
    }
  }

  lemma {:induction false} RanksSameSize(b: State, b': State, pcs: seq<Pc>)
    requires b.width == b'.width && b.height == b'.height
    ensures Ranks(b, pcs) == Ranks(b', pcs)
  {
    if pcs != [] {
      RanksSameSize(b, b', pcs[1..]);
    }
  }

  lemma RankPositive(b: State, pc: Pc)
    requires WellFormed(b) && PcIn(b.width, b.height, pc)
    ensures Rank(b, pc) >= 0
    ensures InFlight(pc) ==> Rank(b, pc) > 0
  {
  }

  lemma {:induction false} RanksPositive(s: Sys, k: nat)
    requires Shaped(s) && k <= |s.pc|
    ensures Ranks(s.b, s.pc[k..]) >= 0
    decreases |s.pc| - k
  {
    if k < |s.pc| {
      RankPositive(s.b, s.pc[k]);
      RanksPositive(s, k + 1);
      assert s.pc[k..][1..] == s.pc[k + 1..];
    }
  }

  lemma EffortPositive(s: Sys)
    requires Shaped(s)
    ensures Effort(s) >= 0
  {
    RanksPositive(s, 0);
    assert s.pc[0..] == s.pc;
  }

  /** A step of a thread that is inside its move, or holds the write lock. */
  predicate ByInFlight(s: Sys, a: Step) {
    match a
    case GhostDoes(g, rnd) => g < |s.pc| && InFlight(s.pc[g])
    case MainDoes(m) => MainWrites(s.main)
  }

  lemma ChosenReach(b: State, gh: Ghost, rnd: nat)
    requires |gh.moves| > 0 && gh.currentMove >= 0 && IsValidPosition(b, gh.x, gh.y)
    ensures Choose(b, gh, rnd).Move? ==> Choose(b, gh, rnd).p.reach < b.width + b.height
  {
  }

  lemma RankShrinks(s: Sys, g: nat, rnd: nat)
    requires Shaped(s) && Enabled(s, GhostDoes(g, rnd)) && InFlight(s.pc[g])
    ensures Rank(s.b, PcAfter(s, g, rnd)) < Rank(s.b, s.pc[g])
  {
    hide Choose;
    ChosenReach(s.b, s.b.ghosts[g], rnd);
  }

  lemma GhostEffortShrinks(s: Sys, g: nat, rnd: nat)
    requires Shaped(s) && Enabled(s, GhostDoes(g, rnd)) && InFlight(s.pc[g])
    ensures Effort(GhostNext(s, g, rnd)) < Effort(s)
  {
    hide PcAfter, BoardAfter, Rank;
    RankShrinks(s, g, rnd);
    RanksUpdate(s.b, s.pc, g, PcAfter(s, g, rnd));
    RanksSameSize(s.b, BoardAfter(s, g, rnd), s.pc[g := PcAfter(s, g, rnd)]);
  }

  lemma MainEffortShrinks(s: Sys, m: MainChoice)
    requires Shaped(s) && Enabled(s, MainDoes(m)) && MainWrites(s.main)
    ensures Effort(MainNext(s, m)) < Effort(s)
  {
    hide PacmanStep, PacmanTurn, ChoosePacman, Rank;
    RanksSameSize(s.b, MainNext(s, m).b, s.pc);
  }

  /** Every step of a move in flight uses up effort: no move can go on for ever. */
  lemma EffortShrinks(s: Sys, a: Step)
    requires Shaped(s) && Enabled(s, a) && ByInFlight(s, a)
    ensures 0 <= Effort(Next(s, a)) < Effort(s)
  {
    EffortPositive(Next(s, a));
    match a
    case GhostDoes(g, rnd) => GhostEffortShrinks(s, g, rnd);
    case MainDoes(m) => MainEffortShrinks(s, m);
  }

  // ----- the portal exit and the ghosts that need its cells

  /** From its k-th mutex on, the plan needs one that the portal exit has left locked. */
  ghost predicate PlanNeedsKept(s: Sys, p: Plan, k: nat)
    requires WellFormed(s.b) && PlanIn(s.b.width, s.b.height, p) && KeptIn(s.b.width, s.b.height, KeptBy(s.main))
  {
    exists i :: k <= i <= p.reach && Holds(s.b.width, s.b.height, KeptSpan(KeptBy(s.main)), LockOf(s, p, i))
  }

  lemma KeptFits(s: Sys)
    requires Shaped(s)
    ensures KeptIn(s.b.width, s.b.height, KeptBy(s.main))
  {
  }

  /** Ghost g is locking, and still has to take such a mutex. */
  ghost predicate NeedsKept(s: Sys, g: nat)
    requires Shaped(s)
  {
    KeptFits(s);
    g < |s.pc| && s.pc[g].Locking? && PlanNeedsKept(s, s.pc[g].p, s.pc[g].k)
  }

  /** Ghost g has entered, and the move that its script and the random number make needs such a mutex. */
  ghost predicate WillNeedKept(s: Sys, g: nat, rnd: nat)
    requires Shaped(s)
  {
    KeptFits(s);
    && g < |s.pc| && s.pc[g].Entered? && !s.shutdown
    && var chosen := Choose(s.b, s.b.ghosts[g], rnd);
       ChosenIn(s.b, s.b.ghosts[g], rnd);
       chosen.Move? && PlanNeedsKept(s, chosen.p, 0)
  }

  /** No ghost in flight needs one, when ghost g draws the random number draw(g). */
  ghost predicate NoneNeedsKept(s: Sys, draw: nat -> nat)
    requires Shaped(s)
  {
    forall g: nat :: !NeedsKept(s, g) && !WillNeedKept(s, g, draw(g))
  }

  predicate Quiet(s: Sys) {
    !MainWrites(s.main) && forall g :: 0 <= g < |s.pc| ==> !InFlight(s.pc[g])
  }

  /** The ghost that holds a cell mutex is in flight, and its program counter says so. */
  lemma OwnerInFlight(s: Sys, c: int)
    requires LockInv(s) && c in s.owner && s.owner[c].GhostThread?
    ensures var o := s.owner[c].g;
            && o < |s.pc| && InFlight(s.pc[o]) && o in s.readers
            && Holds(s.b.width, s.b.height, HeldSpan(s.pc[o]), c)
  {
    assert OwnedBy(s, c, GhostThread(s.owner[c].g));
  }

  /** Outside the write lock all the main thread can hold is what the portal exit kept. */
  lemma MainKeepsOnlyKept(s: Sys, g: nat)
    requires LockInv(s) && !s.writer && g < |s.pc| && s.pc[g].Locking?
    requires OwnedBy(s, LockOf(s, s.pc[g].p, s.pc[g].k), MainThread)
    ensures NeedsKept(s, g)
  {
    var c := LockOf(s, s.pc[g].p, s.pc[g].k);
    KeptFits(s);
    assert Holds(s.b.width, s.b.height, KeptSpan(KeptBy(s.main)), c);
  }

  /** Follow the chain of mutexes, each with a higher index than the one before, to a ghost that can step. */
  lemma {:induction false} FindRunnable(s: Sys, g: nat) returns (r: nat)
    requires LockInv(s) && !s.writer && forall h: nat :: !NeedsKept(s, h)
    requires g < |s.pc| && InFlight(s.pc[g])
    ensures r < |s.pc| && InFlight(s.pc[r]) && forall rnd :: Enabled(s, GhostDoes(r, rnd))
    decreases |s.b.cells| - (if s.pc[g].Locking? then LockOf(s, s.pc[g].p, s.pc[g].k) else |s.b.cells|)
  {
    r := g;
    if s.pc[g].Locking? {
      var w, h := s.b.width, s.b.height;
      var c := LockOf(s, s.pc[g].p, s.pc[g].k);
      if c in s.owner {
        if OwnedBy(s, c, MainThread) {
          MainKeepsOnlyKept(s, g);
        }
        OwnerInFlight(s, c);
        var o := s.owner[c].g;
        if s.pc[o].Locking? {
          var i :| 0 <= i < s.pc[o].k && LockIndex(w, h, s.pc[o].p, i) == c;
          LocksAscend(w, h, s.pc[o].p, i, s.pc[o].k);
        }
        r := FindRunnable(s, o);
      }
    }
  }

  /** As long as anything is in flight, something in flight can step, whatever number it draws. */
  lemma FlightProgress(s: Sys, draw: nat -> nat) returns (a: Step)
    requires LockInv(s) && !Quiet(s) && forall h: nat :: !NeedsKept(s, h)
    ensures Enabled(s, a) && ByInFlight(s, a) && Draws(a, draw)
  {
    if MainWrites(s.main) {
      a := MainDoes(EndLevel);
      if s.main.MainLocking? {
        MainLockFree(s);
      }
    } else {
      var g: nat :| g < |s.pc| && InFlight(s.pc[g]);
      var r := FindRunnable(s, g);
      a := GhostDoes(r, draw(r));
    }
  }

  /** Under the write lock every cell mutex the pacman needs is free. */
  lemma MainLockFree(s: Sys)
    requires LockInv(s) && s.main.MainLocking?
    ensures LockOf(s, s.main.p, s.main.k) !in s.owner
  {
    var w, h := s.b.width, s.b.height;
    var c := LockOf(s, s.main.p, s.main.k);
    if OwnedBy(s, c, MainThread) {
      var i :| 0 <= i < s.main.k && LockIndex(w, h, s.main.p, i) == c;
      LocksAscend(w, h, s.main.p, i, s.main.k);
    }
    if c in s.owner && s.owner[c].GhostThread? {
      OwnerInFlight(s, c);
    }
  }

  /** The step draws the number that `draw` gives its ghost. */
  predicate Draws(a: Step, draw: nat -> nat) {
    a.GhostDoes? ==> a.rnd == draw(a.g)
  }

  /** Steps of threads in flight only. */
  predicate FlightRun(s: Sys, steps: seq<Step>)
    requires Shaped(s)
    decreases |steps|
  {
    steps == []
    || (Enabled(s, steps[0]) && ByInFlight(s, steps[0]) && FlightRun(Next(s, steps[0]), steps[1..]))
  }

  predicate AllDraw(steps: seq<Step>, draw: nat -> nat) {
    forall i :: 0 <= i < |steps| ==> Draws(steps[i], draw)
  }

  /** With these numbers the moves in flight can be completed, by steps of their own threads alone. */
  ghost predicate CanDrain(s: Sys, draw: nat -> nat)
    requires Shaped(s)
  {
    exists steps :: FlightRun(s, steps) && AllDraw(steps, draw) && CanRun(s, steps) && Quiet(Execute(s, steps))
  }

  lemma {:induction false} FlightRunCanRun(s: Sys, steps: seq<Step>)
    requires Shaped(s) && FlightRun(s, steps)
    ensures CanRun(s, steps)
    decreases |steps|
  {
    hide Enabled, Next, ByInFlight;
    if steps != [] {
      FlightRunCanRun(Next(s, steps[0]), steps[1..]);
    }
  }

  /** A plan needs a kept mutex in both of two states with the same board size and the same kept mutexes. */
  lemma SameNeeds(s: Sys, t: Sys, p: Plan, k: nat)
    requires Shaped(s) && Shaped(t) && t.b.width == s.b.width && t.b.height == s.b.height
    requires KeptBy(t.main) == KeptBy(s.main) && PlanIn(s.b.width, s.b.height, p)
    ensures KeptIn(s.b.width, s.b.height, KeptBy(s.main)) && PlanNeedsKept(t, p, k) == PlanNeedsKept(s, p, k)
  {
    KeptFits(s);
    forall i | k <= i <= p.reach ensures LockOf(t, p, i) == LockOf(s, p, i) {
    }
  }

  /** A ghost's step in flight makes no ghost need a kept mutex that did not need one before. */
  lemma NeedIsOld(s: Sys, r: nat, rnd: nat, g: nat)
    requires Shaped(s) && Enabled(s, GhostDoes(r, rnd)) && NeedsKept(GhostNext(s, r, rnd), g)
    ensures NeedsKept(s, g) || (g == r && WillNeedKept(s, g, rnd))
  {
    var t := GhostNext(s, r, rnd);
    var p := t.pc[g].p;
    SameNeeds(s, t, p, t.pc[g].k);
    if !(g == r && s.pc[g].Entered?) {
      assert s.pc[g].Locking? && s.pc[g].p == p && s.pc[g].k <= t.pc[g].k;
      KeptFits(s);
      assert PlanNeedsKept(s, p, s.pc[g].k);
    }
  }

  lemma WillNeedIsOld(s: Sys, r: nat, rnd: nat, g: nat, rnd': nat)
    requires Shaped(s) && Enabled(s, GhostDoes(r, rnd)) && InFlight(s.pc[r])
    requires WillNeedKept(GhostNext(s, r, rnd), g, rnd')
    ensures WillNeedKept(s, g, rnd')
  {
    var t := GhostNext(s, r, rnd);
    assert g != r && s.pc[g] == t.pc[g] && s.b.ghosts[g] == t.b.ghosts[g];
    var gh := s.b.ghosts[g];
    ChosenIn(s.b, gh, rnd');
    assert Choose(t.b, gh, rnd') == Choose(s.b, gh, rnd');
    SameNeeds(s, t, Choose(s.b, gh, rnd').p, 0);
  }

  lemma FlightKeepsNoneNeeds(s: Sys, a: Step, draw: nat -> nat)
    requires LockInv(s) && NoneNeedsKept(s, draw) && Enabled(s, a) && ByInFlight(s, a) && Draws(a, draw)
    ensures NoneNeedsKept(Next(s, a), draw)
  {
    if a.MainDoes? {
      WriterExcludesGhosts(s);
    } else {
      forall g: nat ensures !NeedsKept(Next(s, a), g) && !WillNeedKept(Next(s, a), g, draw(g)) {
        if NeedsKept(Next(s, a), g) {
          NeedIsOld(s, a.g, a.rnd, g);
        }
        if WillNeedKept(Next(s, a), g, draw(g)) {
          WillNeedIsOld(s, a.g, a.rnd, g, draw(g));
        }
      }
    }
  }

  /** In at most as many steps as there is effort left. */
  lemma {:induction false} Drains(s: Sys, draw: nat -> nat) returns (steps: seq<Step>)
    requires LockInv(s) && NoneNeedsKept(s, draw)
    ensures FlightRun(s, steps) && AllDraw(steps, draw) && CanRun(s, steps) && Quiet(Execute(s, steps))
    ensures |steps| <= Effort(s)
    decreases Effort(s)
  {
    hide Enabled, Next, ByInFlight, NeedsKept, WillNeedKept, Effort, Draws;
    EffortPositive(s);
    if Quiet(s) {
      steps := [];
    } else {
      var a := FlightProgress(s, draw);
      EffortShrinks(s, a);
      StepKeepsLockInv(s, a);
      FlightKeepsNoneNeeds(s, a, draw);
      var rest := Drains(Next(s, a), draw);
      steps := [a] + rest;
      assert steps[1..] == rest;
    }
  }

  /** A locking ghost that needs a kept mutex needs it after every step of every thread. */
  lemma NeedsKeptForGood(s: Sys, g: nat, a: Step)
    requires LockInv(s) && NeedsKept(s, g) && Enabled(s, a)
    ensures NeedsKept(Next(s, a), g)
  {
    var w, h := s.b.width, s.b.height;
    var t := Next(s, a);
    var p := s.pc[g].p;
    KeptFits(s);
    var i :| s.pc[g].k <= i <= p.reach && Holds(w, h, KeptSpan(KeptBy(s.main)), LockOf(s, p, i));
    assert OwnedBy(s, LockOf(s, p, i), MainThread) by {
      assert Holds(w, h, MainSpan(s.main), LockOf(s, p, i));
    }
    InFlightFreezesKept(s, g, a);
    StillLocking(s, g, a);
    SameNeeds(s, t, p, t.pc[g].k);
    assert PlanNeedsKept(s, p, t.pc[g].k);
  }

  /** While a ghost is in flight the main thread gets no further, and keeps what it has kept. */
  lemma InFlightFreezesKept(s: Sys, g: nat, a: Step)
    requires LockInv(s) && g < |s.pc| && InFlight(s.pc[g]) && Enabled(s, a) && KeptBy(s.main).Portal?
    ensures KeptBy(Next(s, a).main) == KeptBy(s.main) && Next(s, a).shutdown == s.shutdown
    ensures Next(s, a).b.width == s.b.width && Next(s, a).b.height == s.b.height
  {
    assert g in s.readers;
  }

  lemma StillLocking(s: Sys, g: nat, a: Step)
    requires LockInv(s) && g < |s.pc| && s.pc[g].Locking? && Enabled(s, a)
    requires exists i :: s.pc[g].k <= i <= s.pc[g].p.reach && OwnedBy(s, LockOf(s, s.pc[g].p, i), MainThread)
    ensures var t := Next(s, a);
            g < |t.pc| && t.pc[g].Locking? && t.pc[g].p == s.pc[g].p && s.pc[g].k <= t.pc[g].k
    ensures var t := Next(s, a);
            forall i :: s.pc[g].k <= i <= s.pc[g].p.reach && OwnedBy(s, LockOf(s, s.pc[g].p, i), MainThread) ==>
              t.pc[g].k <= i
  {
  }

  /** Whatever the schedule, that ghost stays in flight and the level is never unloaded. */
  lemma {:induction false} PortalExitBlocksForGood(s: Sys, g: nat, steps: seq<Step>)
    requires LockInv(s) && NeedsKept(s, g) && CanRun(s, steps)
    ensures var t := Execute(s, steps); NeedsKept(t, g) && !Quiet(t) && !t.main.Unloaded?
    decreases |steps|
  {
    if steps == [] {
      assert InFlight(s.pc[g]);
    } else {
      StepKeepsLockInv(s, steps[0]);
      NeedsKeptForGood(s, g, steps[0]);
      PortalExitBlocksForGood(Next(s, steps[0]), g, steps[1..]);
    }
  }

  /** A ghost that has entered and whose next move needs a kept mutex waits for it as soon as it goes on. */
  lemma WillNeedForGood(s: Sys, g: nat, a: Step, rnd: nat)
    requires LockInv(s) && WillNeedKept(s, g, rnd) && Enabled(s, a)
    requires a.GhostDoes? && a.g == g ==> a.rnd == rnd
    ensures NeedsKept(Next(s, a), g) || WillNeedKept(Next(s, a), g, rnd)
  {
    var t, gh := Next(s, a), s.b.ghosts[g];
    ChosenIn(s.b, gh, rnd);
    KeptFits(s);
    InFlightFreezesKept(s, g, a);
    SameNeeds(s, t, Choose(s.b, gh, rnd).p, 0);
    if a == GhostDoes(g, rnd) {
      assert t.pc[g] == Locking(Choose(s.b, gh, rnd).p, 0);
    } else {
      assert t.pc[g] == s.pc[g] && t.b.ghosts[g] == gh;
      assert Choose(t.b, gh, rnd) == Choose(s.b, gh, rnd);
    }
  }

  lemma {:induction false} EnteredBlocks(s: Sys, g: nat, steps: seq<Step>, draw: nat -> nat)
    requires LockInv(s) && WillNeedKept(s, g, draw(g)) && CanRun(s, steps) && AllDraw(steps, draw)
    ensures !Quiet(Execute(s, steps))
    decreases |steps|
  {
    if steps == [] {
      assert InFlight(s.pc[g]);
    } else {
      var t := Next(s, steps[0]);
      StepKeepsLockInv(s, steps[0]);
      WillNeedForGood(s, g, steps[0], draw(g));
      if NeedsKept(t, g) {
        PortalExitBlocksForGood(t, g, steps[1..]);
      } else {
        EnteredBlocks(t, g, steps[1..], draw);
      }
    }
  }

  /**
    Deadlock freedom, exactly, for any random numbers: the moves in flight can be completed if and
    only if none of them needs a mutex that the portal exit left locked, neither a ghost that is
    locking nor one that has entered and is about to do what its script says.
   */
  lemma DrainsExactly(s: Sys, draw: nat -> nat)
    requires LockInv(s)
    ensures CanDrain(s, draw) <==> NoneNeedsKept(s, draw)
  {
    if NoneNeedsKept(s, draw) {
      var steps := Drains(s, draw);
    } else {
      var g: nat :| NeedsKept(s, g) || WillNeedKept(s, g, draw(g));
      forall steps | AllDraw(steps, draw) && CanRun(s, steps) ensures !Quiet(Execute(s, steps)) {
        if NeedsKept(s, g) {
          PortalExitBlocksForGood(s, g, steps);
        } else {
          EnteredBlocks(s, g, steps, draw);
        }
      }
    }
  }

  // ----- before the portal exit

  /** Nothing is kept, or nobody is there to need it. */
  predicate Unhindered(s: Sys) {
    KeptBy(s.main) == Nothing || forall g :: 0 <= g < |s.pc| ==> !InFlight(s.pc[g])
  }

  lemma UnhinderedNeedsNothing(s: Sys)
    requires Shaped(s) && Unhindered(s)
    ensures forall g: nat :: !NeedsKept(s, g)
    ensures forall g: nat, rnd: nat :: !WillNeedKept(s, g, rnd)
  {
  }

  lemma FlightKeepsUnhindered(s: Sys, a: Step)
    requires LockInv(s) && Unhindered(s) && Enabled(s, a) && ByInFlight(s, a)
    ensures Unhindered(Next(s, a))
  {
    if a.MainDoes? {
      WriterExcludesGhosts(s);
    }
  }

  /**
    Before the portal exit every schedule of the threads in flight, with any random numbers, comes
    to an end, within the effort left; and one that cannot be continued has completed every move.
   */
  lemma {:induction false} FlightAlwaysFinishes(s: Sys, steps: seq<Step>)
    requires LockInv(s) && Unhindered(s) && FlightRun(s, steps)
    ensures CanRun(s, steps) && |steps| <= Effort(s)
    ensures var t := Execute(s, steps); (forall a :: Enabled(t, a) ==> !ByInFlight(t, a)) ==> Quiet(t)
    decreases |steps|
  {
    hide Enabled, Next, ByInFlight, Unhindered, Effort, Quiet;
    EffortPositive(s);
    if steps == [] {
      UnhinderedNeedsNothing(s);
      if !Quiet(s) {
        var a := FlightProgress(s, g => 0);
      }
    } else {
      EffortShrinks(s, steps[0]);
      StepKeepsLockInv(s, steps[0]);
      FlightKeepsUnhindered(s, steps[0]);
      FlightAlwaysFinishes(Next(s, steps[0]), steps[1..]);
    }
  }

  /** Unless a ghost needs a kept mutex, or the level is unloaded, some thread can step. */
  lemma NoDeadlock(s: Sys) returns (a: Step)
    requires LockInv(s) && !s.main.Unloaded? && forall h: nat :: !NeedsKept(s, h)
    ensures Enabled(s, a)
  {
    if !Quiet(s) {
      a := FlightProgress(s, g => 0);
    } else if s.main.Joining? && s.main.i < |s.pc| && !s.pc[s.main.i].Done? {
      a := GhostDoes(s.main.i, 0);
    } else {
      a := MainDoes(EndLevel);
      if s.main.Stopping? {
        assert forall g: nat :: g !in s.readers;
      }
    }
  }

  /**
    From a loaded level, in any order of steps up to the portal exit: some thread can always step,
    and whatever numbers are drawn, the moves in flight can be completed by their own threads.
   */
  lemma NeverStuckBeforePortal(s: Sys, steps: seq<Step>, draw: nat -> nat) returns (a: Step)
    requires Initial(s) && CanRun(s, steps)
    requires var t := Execute(s, steps); KeptBy(t.main) == Nothing && !t.main.Unloaded?
    ensures Enabled(Execute(s, steps), a) && CanDrain(Execute(s, steps), draw)
  {
    var t := Execute(s, steps);
    InitialLockInv(s);
    LockInvAlways(s, steps);
    UnhinderedNeedsNothing(t);
    DrainsExactly(t, draw);
    a := NoDeadlock(t);
  }

  // ----- stopping

  /** Pacman moves never overlap a ghost move. */
  lemma WriterExcludesGhosts(s: Sys)
    requires LockInv(s) && MainWrites(s.main)
    ensures forall g :: 0 <= g < |s.pc| ==> !InFlight(s.pc[g])
  {
    forall g | 0 <= g < |s.pc| ensures !InFlight(s.pc[g]) {
      assert g !in s.readers;
    }
  }

  predicate Stopped(m: MainPc) {
    m.Flagged? || m.Joining? || m.Unloaded?
  }

  /** Once `shutdown` is set no thread of the level writes the board again, under any schedule. */
  lemma {:induction false} StopFreezesBoard(s: Sys, steps: seq<Step>)
    requires LockInv(s) && Stopped(s.main) && CanRun(s, steps)
    ensures Execute(s, steps).b == s.b && Stopped(Execute(s, steps).main)
    decreases |steps|
  {
    if steps != [] {
      StepKeepsLockInv(s, steps[0]);
      StopFreezesBoard(Next(s, steps[0]), steps[1..]);
    }
  }

  /** The level is unloaded only when every ghost thread has exited, and then no step is left. */
  lemma UnloadedIsOver(s: Sys, a: Step)
    requires LockInv(s) && s.main.Unloaded?
    ensures (forall g :: 0 <= g < |s.pc| ==> s.pc[g].Done?) && !Enabled(s, a)
    ensures s.readers == {} && !s.writer && !s.shutdown
    ensures KeptBy(s.main) == Nothing ==> s.owner == map[]
  {
    assert forall g: nat :: g !in s.readers;
    if KeptBy(s.main) == Nothing {
      forall c ensures c !in s.owner {
        if c in s.owner {
          assert OwnedBy(s, c, s.owner[c]);
        }
      }
    }
  }

  function WindRank(pc: Pc): nat {
    match pc
    case Sleeping => 3
    case Entered => 2
    case Leaving(exit) => 1
    case _ => 0
  }

  function WindRanks(pcs: seq<Pc>): nat {
    if pcs == [] then 0 else WindRank(pcs[0]) + WindRanks(pcs[1..])
  }

  lemma {:induction false} WindRanksUpdate(pcs: seq<Pc>, g: nat, pc: Pc)
    requires g < |pcs|
    ensures WindRanks(pcs[g := pc]) == WindRanks(pcs) - WindRank(pcs[g]) + WindRank(pc)
  {
    if g == 0 {
      assert pcs[g := pc][1..] == pcs[1..];
    } else {
      assert pcs[g := pc][1..] == pcs[1..][g - 1 := pc];
      WindRanksUpdate(pcs[1..], g - 1, pc);
    }
  }

  /** Steps left in the whole level once `shutdown` is set. */
  function StepsToUnload(s: Sys): int {
    WindRanks(s.pc) +
    match s.main
    case Flagged(kept) => |s.pc| + 2
    case Joining(kept, i) => |s.pc| - i + 1
    case _ => 0
  }

  lemma StopShrinks(s: Sys, a: Step)
    requires LockInv(s) && Stopped(s.main) && Enabled(s, a)
    ensures Stopped(Next(s, a).main) && 0 <= StepsToUnload(Next(s, a)) == StepsToUnload(s) - 1
  {
    if a.GhostDoes? {
      WindRanksUpdate(s.pc, a.g, PcAfter(s, a.g, a.rnd));
    }
  }

  /**
    Stopping finishes under every schedule: a run from the moment `shutdown` is set has at most
    StepsToUnload steps, and one that cannot be continued has unloaded the level.
   */
  lemma {:induction false} StopAlwaysFinishes(s: Sys, steps: seq<Step>)
    requires LockInv(s) && Stopped(s.main) && CanRun(s, steps)
    ensures |steps| <= StepsToUnload(s)
    ensures (forall a :: !Enabled(Execute(s, steps), a)) ==> Execute(s, steps).main.Unloaded?
    decreases |steps|
  {
    if steps == [] {
      if !s.main.Unloaded? {
        StoppedNeedsNothing(s);
        var a := NoDeadlock(s);
      }
    } else {
      StepKeepsLockInv(s, steps[0]);
      StopShrinks(s, steps[0]);
      StopAlwaysFinishes(Next(s, steps[0]), steps[1..]);
    }
  }

  // ----- unloading

  lemma {:induction false} ExecuteJoins(s: Sys, a: seq<Step>, b: seq<Step>)
    requires Shaped(s) && CanRun(s, a) && CanRun(Execute(s, a), b)
    ensures CanRun(s, a + b) && Execute(s, a + b) == Execute(Execute(s, a), b)
    decreases |a|
  {
    hide Next, Enabled;
    if a == [] {
      assert a + b == b;
    } else {
      ExecuteJoins(Next(s, a[0]), a[1..], b);
      assert (a + b)[1..] == a[1..] + b;
    }
  }

  /** With these numbers the level can still be brought to its end. */
  ghost predicate CanUnload(s: Sys, draw: nat -> nat)
    requires Shaped(s)
  {
    exists steps :: CanRun(s, steps) && AllDraw(steps, draw) && Execute(s, steps).main.Unloaded?
  }

  /** The number a ghost draws does not decide whether it can step. */
  function WithDraw(a: Step, draw: nat -> nat): Step {
    if a.GhostDoes? then GhostDoes(a.g, draw(a.g)) else a
  }

  lemma StillEnabled(s: Sys, a: Step, draw: nat -> nat)
    requires Shaped(s) && Enabled(s, a)
    ensures Enabled(s, WithDraw(a, draw)) && Draws(WithDraw(a, draw), draw)
  {
  }

  lemma {:induction false} StopUnloads(s: Sys, draw: nat -> nat) returns (steps: seq<Step>)
    requires LockInv(s) && Stopped(s.main)
    ensures CanRun(s, steps) && AllDraw(steps, draw) && Execute(s, steps).main.Unloaded?
    decreases StepsToUnload(s)
  {
    hide Enabled, Next, StepsToUnload, Draws;
    if s.main.Unloaded? {
      steps := [];
    } else {
      StoppedNeedsNothing(s);
      var b := NoDeadlock(s);
      StillEnabled(s, b, draw);
      var a := WithDraw(b, draw);
      StopShrinks(s, a);
      StepKeepsLockInv(s, a);
      var rest := StopUnloads(Next(s, a), draw);
      steps := [a] + rest;
      assert steps[1..] == rest;
    }
  }

  lemma StoppedNeedsNothing(s: Sys)
    requires LockInv(s) && Stopped(s.main)
    ensures forall g: nat :: !NeedsKept(s, g)
  {
    forall g: nat ensures !NeedsKept(s, g) {
      assert g < |s.pc| ==> WindingDown(s.pc[g]);
    }
  }

  /** With nothing in flight the main thread can end the level, and set the flag, by itself. */
  lemma {:induction false} QuietStops(s: Sys) returns (steps: seq<Step>)
    requires LockInv(s) && forall g :: 0 <= g < |s.pc| ==> !InFlight(s.pc[g])
    requires s.main.Idle? || s.main.Stopping? || s.main.Flagging? || Stopped(s.main)
    ensures CanRun(s, steps) && Stopped(Execute(s, steps).main)
    ensures forall i :: 0 <= i < |steps| ==> steps[i] == MainDoes(EndLevel)
    decreases if s.main.Idle? then 3 else if s.main.Stopping? then 2 else if s.main.Flagging? then 1 else 0
  {
    if Stopped(s.main) {
      steps := [];
    } else {
      assert forall g: nat :: g !in s.readers;
      StepKeepsLockInv(s, MainDoes(EndLevel));
      var rest := QuietStops(Next(s, MainDoes(EndLevel)));
      steps := [MainDoes(EndLevel)] + rest;
      assert steps[1..] == rest;
    }
  }

  /**
    What the portal exit really endangers, exactly: with given random numbers the level can be
    unloaded if and only if no ghost needs a mutex that the exit left locked.
   */
  lemma UnloadsExactly(s: Sys, draw: nat -> nat)
    requires LockInv(s)
    ensures CanUnload(s, draw) <==> NoneNeedsKept(s, draw)
  {
    hide Enabled, Next, NeedsKept, WillNeedKept, Effort, Draws;
    if NoneNeedsKept(s, draw) {
      var drain := Drains(s, draw);
      FlightRunCanRun(s, drain);
      LockInvAlways(s, drain);
      var t := Execute(s, drain);
      var stop := QuietStops(t);
      LockInvAlways(t, stop);
      var unload := StopUnloads(Execute(t, stop), draw);
      ExecuteJoins(t, stop, unload);
      ExecuteJoins(s, drain, stop + unload);
      AllDrawJoined(drain, stop, unload, draw);
    } else {
      var g: nat :| NeedsKept(s, g) || WillNeedKept(s, g, draw(g));
      forall steps | AllDraw(steps, draw) && CanRun(s, steps) ensures !Execute(s, steps).main.Unloaded? {
        LockInvAlways(s, steps);
        if NeedsKept(s, g) {
          PortalExitBlocksForGood(s, g, steps);
        } else {
          EnteredBlocks(s, g, steps, draw);
          if Execute(s, steps).main.Unloaded? {
            UnloadedIsQuiet(Execute(s, steps));
          }
        }
      }
    }
  }

  lemma AllDrawJoined(drain: seq<Step>, stop: seq<Step>, unload: seq<Step>, draw: nat -> nat)
    requires AllDraw(drain, draw) && AllDraw(unload, draw)
    requires forall i :: 0 <= i < |stop| ==> stop[i] == MainDoes(EndLevel)
    ensures AllDraw(drain + (stop + unload), draw)
  {
  }

  lemma UnloadedIsQuiet(s: Sys)
    requires LockInv(s) && s.main.Unloaded?
    ensures Quiet(s)
  {
  }
}
