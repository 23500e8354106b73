/** What the queue's invariant means for its users: a FIFO, never stuck, and a shutdown that wakes everyone. */
module QueueGuarantees {
  import opened RequestRing
  import opened Queue
  import opened QueueInvariant

  // ----- refinement to an abstract FIFO

  /** The requests written and not yet read. */
  function Unread(s: Sys): seq<Request>
    requires |s.taken| <= |s.written|
  {
    s.written[|s.taken|..]
  }

  /**
    Before any extra post each step appends one request to a queue of capacity 64, removes the
    oldest one, or leaves the queue alone.
   */
  lemma StepIsFifo(s: Sys, a: Step)
    requires Shaped(s) && Inv(s) && Enabled(s, a) && s.posts == 0
    ensures var t := Next(s, a);
            && |s.taken| <= |s.written| && |t.taken| <= |t.written| && |Unread(t)| <= QUEUE_SIZE
            && if a.Produce? && s.producers[a.p].InPut? then
                 |Unread(s)| < QUEUE_SIZE && Unread(t) == Unread(s) + [s.producers[a.p].r]
               else if a.Consume? && s.consumers[a.c].InGet? then
                 && t.consumers[a.c].Fetched?
                 && Unread(s) == [t.consumers[a.c].r] + Unread(t)
               else Unread(t) == Unread(s)
  {
    if a.Produce? && s.producers[a.p].InPut? {
      StoreHasRoom(s, a.p);
    } else if a.Consume? && s.consumers[a.c].InGet? {
      ReadHasItem(s, a.c);
    }
  }

  /** Over any interleaving before the first extra post: what was read is a prefix of what was written. */
  lemma ReadsArePrefix(s: Sys, steps: seq<Step>)
    requires Initial(s) && CanRun(s, steps) && Execute(s, steps).posts == 0
    ensures var t := Execute(s, steps);
            && |t.taken| <= |t.written| <= |t.taken| + QUEUE_SIZE
            && t.taken == t.written[..|t.taken|]
            && |t.ring| == QUEUE_SIZE
            && (forall i :: |t.taken| <= i < |t.written| ==> t.ring[i % QUEUE_SIZE] == t.written[i])
            && |t.written| - |t.taken| + t.slots + Count(t.producers, BeforeStore) + Count(t.consumers, BeforeSlot)
               == QUEUE_SIZE
            && t.items + Count(t.producers, BeforeItem) + Count(t.consumers, BeforeRead)
               == |t.written| - |t.taken|
  {
    InitialInv(s);
    InvAlways(s, steps);
  }

  lemma IndexAdds(a: nat, i: nat)
    ensures (a % QUEUE_SIZE + i) % QUEUE_SIZE == (a + i) % QUEUE_SIZE
  {
  }

  /** With no thread between its write and its index, the indices are exactly those of the histories. */
  lemma FreeIndices(s: Sys)
    requires Inv(s) && s.mutex.Nobody?
    ensures s.head == |s.taken| % QUEUE_SIZE && s.tail == |s.written| % QUEUE_SIZE
  {
    CountNone(s.producers, AtStored);
    CountNone(s.consumers, AtFetched);
  }

  lemma UnreadSlot(s: Sys, i: nat)
    requires Fifo(s) && s.head == |s.taken| % QUEUE_SIZE && i < |Unread(s)|
    ensures s.ring[(s.head + i) % QUEUE_SIZE] == Unread(s)[i]
  {
    IndexAdds(|s.taken|, i);
  }

  lemma UnreadShown(s: Sys)
    requires Fifo(s) && s.head == |s.taken| % QUEUE_SIZE && s.tail == |s.written| % QUEUE_SIZE
    ensures Shows(s.ring, s.head, s.tail, Unread(s))
  {
    hide Fifo;
    FifoFits(s);
    var unread := Unread(s);
    IndexAdds(|s.taken|, |unread|);
    forall i | 0 <= i < |unread| ensures s.ring[(s.head + i) % QUEUE_SIZE] == unread[i] {
      UnreadSlot(s, i);
    }
  }

  lemma FifoFits(s: Sys)
    requires Fifo(s)
    ensures |s.ring| == QUEUE_SIZE && |s.taken| <= |s.written| <= |s.taken| + QUEUE_SIZE
  {
  }

  /**
    Whenever no thread is inside a critical section, the array and the two indices hold exactly the
    unread requests: they are the ring that `Ring.Put` and `Ring.Get` work on.
   */
  lemma RingShowsUnread(s: Sys, steps: seq<Step>)
    requires Initial(s) && CanRun(s, steps)
    requires var t := Execute(s, steps); t.posts == 0 && t.mutex.Nobody?
    ensures var t := Execute(s, steps); |t.taken| <= |t.written| && Shows(t.ring, t.head, t.tail, Unread(t))
  {
    InitialInv(s);
    InvAlways(s, steps);
    FreeIndices(Execute(s, steps));
    UnreadShown(Execute(s, steps));
  }

  // ----- no state is stuck

  predicate ByQueue(a: Step) {
    a.Produce? || a.Consume?
  }

  /** The thread inside the critical section can always go on. */
  lemma HolderSteps(s: Sys) returns (a: Step)
    requires Shaped(s) && Inv(s) && s.mutex.Held?
    ensures Enabled(s, a) && ByQueue(a)
    ensures a.Produce? ==> s.mutex == Held(ByProducer(a.p))
    ensures a.Consume? ==> s.mutex == Held(ByConsumer(a.c))
  {
    match s.mutex.who
    case ByProducer(p) => a := Produce(p, Request("", ""));
    case ByConsumer(c) => a := Consume(c, true);
  }

  /** Before any extra post, with at least one producer and one live session thread, some thread can step. */
  lemma NeverAllBlocked(s: Sys, c: nat) returns (a: Step)
    requires Shaped(s) && Inv(s) && s.posts == 0 && |s.producers| > 0
    requires c < |s.consumers| && !s.consumers[c].Exited?
    ensures Enabled(s, a) && ByQueue(a)
  {
    if s.mutex.Held? {
      a := HolderSteps(s);
    } else if p: nat :| p < |s.producers| && !s.producers[p].Free? {
      a := Produce(p, Request("", ""));
    } else if d: nat :| d < |s.consumers| && !s.consumers[d].Waiting? && !s.consumers[d].Exited? {
      a := Consume(d, true);
    } else {
      GatesOpen(s);
      a := if s.slots > 0 then Produce(0, Request("", "")) else Consume(c, true);
    }
  }

  /** With every thread at a semaphore the tokens are all in the semaphores: 64 of them. */
  lemma GatesOpen(s: Sys)
    requires Inv(s) && s.posts == 0
    requires forall p: nat :: p < |s.producers| ==> s.producers[p].Free?
    requires forall d: nat :: d < |s.consumers| ==> s.consumers[d].Waiting? || s.consumers[d].Exited?
    ensures s.items + s.slots == QUEUE_SIZE
  {
    CountNone(s.producers, BeforeStore);
    CountNone(s.producers, BeforeItem);
    CountNone(s.consumers, BeforeRead);
    CountNone(s.consumers, BeforeSlot);
  }

  // ----- shutdown

  /** However many extra posts there were: every request served was really enqueued, and served once. */
  lemma ServedWereEnqueued(s: Sys, steps: seq<Step>)
    requires Initial(s) && CanRun(s, steps)
    ensures var t := Execute(s, steps);
            && (forall k :: 0 <= k < |t.served| ==>
                 t.served[k].n < |t.written| && t.written[t.served[k].n] == t.served[k].r)
            && (forall j, k :: 0 <= j < k < |t.served| ==> t.served[j].n != t.served[k].n)
  {
    InitialInv(s);
    InvAlways(s, steps);
  }

  /** With all the extra posts made there is a token for every session thread still waiting. */
  lemma TokensSuffice(s: Sys, steps: seq<Step>)
    requires Initial(s) && CanRun(s, steps)
    requires var t := Execute(s, steps); t.shutdown && t.posts == |t.consumers|
    ensures var t := Execute(s, steps); t.items >= Count(t.consumers, AtWaiting)
  {
    InitialInv(s);
    InvAlways(s, steps);
  }

  /** Steps a session thread still makes once shutdown is set. */
  function ExitRank(c: Consumer): nat {
    match c
    case Loop => 1
    case Waiting => 8
    case HasItem => 7
    case InGet => 6
    case Fetched(r, n) => 5
    case Stepped(r, n) => 4
    case GetDone(r, n) => 3
    case Guard(r, n) => 2
    case Serving(r, n) => 2
    case Exited => 0
  }

  /** Steps a producer still makes inside the critical section. */
  function LeaveRank(p: Producer): nat {
    match p
    case InPut(r) => 3
    case Stored => 2
    case Advanced => 1
    case _ => 0
  }

  function Sum<T>(xs: seq<T>, f: T -> nat): nat {
    if xs == [] then 0 else f(xs[0]) + Sum(xs[1..], f)
  }

  lemma {:induction false} SumUpdate<T>(xs: seq<T>, f: T -> nat, i: nat, x: T)
    requires i < |xs|
    ensures Sum(xs[i := x], f) == Sum(xs, f) - f(xs[i]) + f(x)
  {
    if i == 0 {
      assert xs[i := x][1..] == xs[1..];
    } else {
      assert xs[i := x][1..] == xs[1..][i - 1 := x];
      SumUpdate(xs[1..], f, i - 1, x);
    }
  }

  function ExitEffort(s: Sys): nat {
    Sum(s.consumers, ExitRank) + Sum(s.producers, LeaveRank)
  }

  predicate AllExited(s: Sys) {
    forall c :: 0 <= c < |s.consumers| ==> s.consumers[c].Exited?
  }

  /** A session thread, or the producer inside the critical section. */
  predicate TowardsExit(s: Sys, a: Step) {
    match a
    case Consume(c, survives) => true
    case Produce(p, r) => p < |s.producers| && LeaveRank(s.producers[p]) > 0
    case _ => false
  }

  lemma ExitProgress(s: Sys) returns (a: Step)
    requires Shaped(s) && Inv(s) && s.shutdown && s.posts == |s.consumers| && !AllExited(s)
    ensures Enabled(s, a) && TowardsExit(s, a)
  {
    if s.mutex.Held? {
      a := HolderSteps(s);
    } else {
      var c: nat :| c < |s.consumers| && !s.consumers[c].Exited?;
      CountNone(s.consumers, AtWaiting);
      assert s.consumers[c].Waiting? ==> AtWaiting(s.consumers[c]);
      a := Consume(c, true);
    }
  }

  lemma ExitShrinks(s: Sys, a: Step)
    requires Shaped(s) && s.shutdown && Enabled(s, a) && TowardsExit(s, a)
    ensures ExitEffort(Next(s, a)) < ExitEffort(s)
  {
    match a
    case Consume(c, survives) => SumUpdate(s.consumers, ExitRank, c, ConsumerAfter(s, c, survives));
    case Produce(p, r) => SumUpdate(s.producers, LeaveRank, p, ProducerAfter(s, p, r));
  }

  /** Steps of the session threads, and of a producer that is inside the critical section. */
  predicate ExitRun(s: Sys, steps: seq<Step>)
    requires Shaped(s)
    decreases |steps|
  {
    steps == []
    || (Enabled(s, steps[0]) && TowardsExit(s, steps[0]) && ExitRun(Next(s, steps[0]), steps[1..]))
  }

  lemma StepsLeaveShutdown(s: Sys, a: Step)
    requires Shaped(s) && Enabled(s, a) && TowardsExit(s, a)
    ensures var t := Next(s, a);
            t.shutdown == s.shutdown && t.posts == s.posts && |t.consumers| == |s.consumers|
  {
  }

  /**
    After the posts every schedule of these steps comes to an end, within the effort left; and one
    that cannot be continued has brought every session thread to its exit, none left blocked.
   */
  lemma {:induction false} ShutdownWakesEveryone(s: Sys, steps: seq<Step>)
    requires Shaped(s) && Inv(s) && s.shutdown && s.posts == |s.consumers| && ExitRun(s, steps)
    ensures CanRun(s, steps) && |steps| <= ExitEffort(s)
    ensures var t := Execute(s, steps); (forall a :: Enabled(t, a) ==> !TowardsExit(t, a)) ==> AllExited(t)
    decreases |steps|
  {
    if steps == [] {
      if !AllExited(s) {
        var a := ExitProgress(s);
      }
    } else {
      ExitShrinks(s, steps[0]);
      StepKeepsInv(s, steps[0]);
      StepsLeaveShutdown(s, steps[0]);
      ShutdownWakesEveryone(Next(s, steps[0]), steps[1..]);
    }
  }

  /** And there is such a schedule: any that goes on for as long as it can. */
  lemma {:induction false} ExitIsReachable(s: Sys) returns (steps: seq<Step>)
    requires Shaped(s) && Inv(s) && s.shutdown && s.posts == |s.consumers|
    ensures ExitRun(s, steps) && CanRun(s, steps) && AllExited(Execute(s, steps)) && |steps| <= ExitEffort(s)
    decreases ExitEffort(s)
  {
    if AllExited(s) {
      steps := [];
    } else {
      var a := ExitProgress(s);
      ExitShrinks(s, a);
      StepKeepsInv(s, a);
      StepsLeaveShutdown(s, a);
      var rest := ExitIsReachable(Next(s, a));
      steps := [a] + rest;
      assert steps[1..] == rest;
    }
  }
}
