/**
  What the refinement means for the threads of a level: where the ghosts are at every single step of
  a calm execution. Ghosts whose scripts never charge need no condition on the schedule.
 */
module ThreadGuarantees {
  import opened Maze
  import opened Agreement
  import opened Walks
  import opened Threads
  import opened ThreadLocks
  import opened ThreadProgress
  import opened Landing
  import opened ThreadView
  import opened ThreadEffect
  import opened ThreadRefinement
  import opened ThreadSchedules

  // ----- the board in the middle of moves

  /** Wherever a ghost is in its call, its move rests on the cell it stands on. */
  lemma TouchesOwnCell(s: Sys, g: nat)
    requires Shaped(s) && g < |s.pc| && Local(s, g)
    ensures Touches(s, g, GhostIndex(s.b, g))
  {
    if s.pc[g].Look? {
      assert CellOf(s, s.pc[g].p, 0) == GhostIndex(s.b, g);
    }
  }

  lemma CommittedElsewhere(s: Sys, g: nat, h: nat)
    requires ViewInv(s) && g < |s.pc| && h < |s.pc| && g != h && Committed(s.pc[g])
    ensures GhostIndex(s.b, g) != GhostIndex(s.b, h)
  {
    assert Local(s, g) && Local(s, h);
    TouchesOwnCell(s, g);
    TouchesOwnCell(s, h);
    assert Claims(s, g, GhostIndex(s.b, g));
  }

  /** At no step do two ghosts share a position. */
  lemma GhostsNeverShare(s: Sys, g: nat, h: nat)
    requires ViewInv(s) && g < |s.pc| && h < |s.pc| && g != h
    ensures GhostIndex(s.b, g) != GhostIndex(s.b, h)
  {
    if Committed(s.pc[g]) {
      CommittedElsewhere(s, g, h);
    } else if Committed(s.pc[h]) {
      CommittedElsewhere(s, h, g);
    } else {
      assert Local(s, g) && Local(s, h);
      ViewPosition(s, g);
      ViewPosition(s, h);
      var v := View(s);
      assert GhostsApart(v);
      assert GhostIndex(v, g) != GhostIndex(v, h);
    }
  }

  /** Outside its critical section a ghost stands on an 'M', except on a cell that the portal exit kept. */
  lemma IdleGhostsMarked(s: Sys, g: nat)
    requires ViewInv(s) && g < |s.pc| && !Committed(s.pc[g])
    ensures s.b.cells[GhostIndex(s.b, g)].content == 'M' || KeptAt(s, GhostIndex(s.b, g))
  {
    var c := GhostIndex(s.b, g);
    assert Local(s, g);
    ViewPosition(s, g);
    TouchesOwnCell(s, g);
    ViewOfUnclaimed(s, c);
    assert View(s).cells[c].content == ViewContent(s, c);
  }

  lemma ClaimedMark(s: Sys, h: nat, c: int)
    requires Shaped(s) && Claims(s, h, c) && Local(s, h) && 0 <= c < |s.b.cells|
    ensures s.b.cells[c].content != 'W'
    ensures s.b.cells[c].content == 'M' ==> GhostIndex(s.b, h) == c
  {
  }

  /** Every 'M' on the board is the position of a ghost, and by `GhostsNeverShare` of one only. */
  lemma MarksBelong(s: Sys, c: int)
    requires ViewInv(s) && 0 <= c < |s.b.cells| && s.b.cells[c].content == 'M'
    ensures exists g: nat :: g < |s.pc| && GhostIndex(s.b, g) == c
  {
    var v := View(s);
    if h: nat :| Claims(s, h, c) {
      assert Local(s, h);
      ClaimedMark(s, h, c);
    } else {
      ViewOfUnclaimed(s, c);
      assert v.cells[c].content == 'M';
      assert MarksOwned(v) && OwnedByGhost(v, c);
      var g: nat :| g < |v.ghosts| && GhostIndex(v, g) == c;
      UnclaimedOwner(s, g);
    }
  }

  lemma UnclaimedOwner(s: Sys, g: nat)
    requires Shaped(s) && WellFormed(View(s)) && g < |s.pc| && Local(s, g)
    requires forall h: nat :: !Claims(s, h, GhostIndex(View(s), g))
    ensures GhostIndex(s.b, g) == GhostIndex(View(s), g)
  {
    if Committed(s.pc[g]) {
      assert View(s).ghosts[g] == ViewGhost(s, g);
      assert Claims(s, g, GhostIndex(View(s), g));
    } else {
      ViewPosition(s, g);
    }
  }

  /** Ghosts apart, the idle ones on an 'M' unless on a kept cell, and no other 'M'. */
  ghost predicate GhostsInPlace(t: Sys) {
    && Shaped(t)
    && (forall g: nat, h: nat :: g < h < |t.pc| ==> GhostIndex(t.b, g) != GhostIndex(t.b, h))
    && (forall g: nat :: g < |t.pc| && !Committed(t.pc[g]) ==>
         t.b.cells[GhostIndex(t.b, g)].content == 'M' || KeptAt(t, GhostIndex(t.b, g)))
    && (forall c :: 0 <= c < |t.b.cells| && t.b.cells[c].content == 'M' ==>
         exists g: nat :: g < |t.pc| && GhostIndex(t.b, g) == c)
  }

  lemma ViewPlacesGhosts(t: Sys)
    requires ViewInv(t)
    ensures GhostsInPlace(t)
  {
    hide View, ClaimsApart, GhostsPlaced, Local, Agree, KeptAt;
    forall g: nat, h: nat | g < h < |t.pc| ensures GhostIndex(t.b, g) != GhostIndex(t.b, h) {
      GhostsNeverShare(t, g, h);
    }
    forall g: nat | g < |t.pc| && !Committed(t.pc[g])
      ensures t.b.cells[GhostIndex(t.b, g)].content == 'M' || KeptAt(t, GhostIndex(t.b, g))
    {
      IdleGhostsMarked(t, g);
    }
    forall c | 0 <= c < |t.b.cells| && t.b.cells[c].content == 'M'
      ensures exists g: nat :: g < |t.pc| && GhostIndex(t.b, g) == c
    {
      MarksBelong(t, c);
    }
  }

  /**
    At every step of every calm execution from a loaded level, the portal exit included: the ghosts
    apart, each one outside its critical section on an 'M' unless on a cell that the exit kept, and
    every 'M' a ghost's.
   */
  lemma BoardAtEveryStep(s: Sys, steps: seq<Step>)
    requires Initial(s) && Agree(s.b) && CanRun(s, steps) && Calm(s, steps)
    ensures GhostsInPlace(Execute(s, steps))
  {
    InitialViewInv(s);
    ExecutionRefines(s, steps);
    ViewPlacesGhosts(Execute(s, steps));
  }

  // ----- scripts that never charge

  /** No ghost is charged or ever will be. */
  ghost predicate Tame(s: Sys) {
    && LockInv(s)
    && (forall g :: 0 <= g < |s.pc| ==> NeverCharges(s.b.ghosts[g]))
    && (forall g :: 0 <= g < |s.pc| ==> Plain(s.pc[g]))
  }

  lemma TamePlan(s: Sys, g: nat, rnd: nat)
    requires Shaped(s) && Enabled(s, GhostDoes(g, rnd)) && NeverCharges(s.b.ghosts[g]) && Plain(s.pc[g])
    ensures var t := GhostNext(s, g, rnd); NeverCharges(t.b.ghosts[g]) && Plain(t.pc[g])
  {
    if s.pc[g].Entered? && !s.shutdown {
      TimedNeverCharges(s.b.ghosts[g], rnd);
    }
  }

  lemma StepKeepsTame(s: Sys, a: Step)
    requires Tame(s) && Enabled(s, a)
    ensures Tame(Next(s, a))
  {
    StepKeepsLockInv(s, a);
    var t := Next(s, a);
    match a
    case GhostDoes(g, rnd) =>
      TamePlan(s, g, rnd);
      forall h: nat | h < |s.pc| && h != g ensures NeverCharges(t.b.ghosts[h]) && Plain(t.pc[h]) {
        OtherRecord(s, g, rnd, h);
      }
    case MainDoes(m) =>
      MainKeepsGhosts(s, m);
  }

  /** What an uncharged ghost claims it still holds, so nobody else is reading it. */
  lemma TameIsUndisturbed(s: Sys, a: Step)
    requires Tame(s) && Enabled(s, a)
    ensures Undisturbed(s, a)
  {
    if a.GhostDoes? && s.pc[a.g].Look? {
      forall h: nat | h != a.g ensures !Claims(s, h, CellOf(s, s.pc[a.g].p, s.pc[a.g].j)) {
        if h < |s.pc| && Committed(s.pc[h]) {
          TameClaims(s, a.g, h);
        }
      }
    }
  }

  lemma TameClaims(s: Sys, g: nat, h: nat)
    requires Tame(s) && g < |s.pc| && h < |s.pc| && g != h && s.pc[g].Look? && Committed(s.pc[h])
    ensures !Claims(s, h, CellOf(s, s.pc[g].p, s.pc[g].j))
  {
    assert Plain(s.pc[h]);
    OwnsPlan(s, g, s.pc[g].j);
    OwnsPlan(s, h, 0);
    OwnsPlan(s, h, s.pc[h].j);
  }

  /** Without a charge in any script every execution is calm. */
  lemma {:induction false} TameIsCalm(s: Sys, steps: seq<Step>)
    requires Tame(s) && CanRun(s, steps)
    ensures Calm(s, steps)
    decreases |steps|
  {
    hide Next, Enabled, Undisturbed;
    if steps != [] {
      TameIsUndisturbed(s, steps[0]);
      StepKeepsTame(s, steps[0]);
      TameIsCalm(Next(s, steps[0]), steps[1..]);
    }
  }

  /** So for a level without charges the refinement holds for every interleaving. */
  lemma UnchargedRefines(s: Sys, steps: seq<Step>)
    requires Initial(s) && Agree(s.b) && CanRun(s, steps)
    requires forall g :: 0 <= g < |s.b.ghosts| ==> NeverCharges(s.b.ghosts[g])
    ensures Calm(s, steps) && LegalRun(s.b, Calls(s, steps))
    ensures View(Execute(s, steps)) == Run(s.b, Calls(s, steps))
    ensures Quiet(Execute(s, steps)) ==> Execute(s, steps).b == Run(s.b, Calls(s, steps))
  {
    InitialLockInv(s);
    TameIsCalm(s, steps);
    InitialViewInv(s);
    ExecutionRefines(s, steps);
    if Quiet(Execute(s, steps)) {
      QuietBoardIsRun(s, steps);
    }
  }
}
