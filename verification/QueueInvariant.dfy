/** Every step of every thread keeps the queue's invariant, before and after shutdown. */
module QueueInvariant {
  import opened RequestRing
  import opened Queue

  lemma ProducerKeepsAccounts(s: Sys, p: nat, r: Request)
    requires Shaped(s) && Accounts(s) && Enabled(s, Produce(p, r))
    ensures Accounts(ProducerNext(s, p, r))
  {
    var x := ProducerAfter(s, p, r);
    CountUpdate(s.producers, BeforeStore, p, x);
    CountUpdate(s.producers, BeforeItem, p, x);
  }

  lemma ConsumerKeepsAccounts(s: Sys, c: nat, survives: bool)
    requires Shaped(s) && Accounts(s) && Enabled(s, Consume(c, survives))
    ensures Accounts(ConsumerNext(s, c, survives))
  {
    var x := ConsumerAfter(s, c, survives);
    CountUpdate(s.consumers, BeforeRead, c, x);
    CountUpdate(s.consumers, BeforeSlot, c, x);
  }

  lemma ProducerKeepsMutex(s: Sys, p: nat, r: Request)
    requires Shaped(s) && MutexRight(s) && Enabled(s, Produce(p, r))
    ensures MutexRight(ProducerNext(s, p, r))
  {
  }

  lemma ConsumerKeepsMutex(s: Sys, c: nat, survives: bool)
    requires Shaped(s) && MutexRight(s) && Enabled(s, Consume(c, survives))
    ensures MutexRight(ConsumerNext(s, c, survives))
  {
  }

  lemma NextIndex(a: nat)
    ensures (a + 1) % QUEUE_SIZE == (a % QUEUE_SIZE + 1) % QUEUE_SIZE
  {
  }

  /** Only the thread inside the critical section has an index waiting to move. */
  lemma NoneStored(s: Sys)
    requires MutexRight(s)
    ensures (forall p: nat :: p < |s.producers| && s.mutex == Held(ByProducer(p)) ==> !s.producers[p].Stored?)
              ==> Count(s.producers, AtStored) == 0
    ensures (forall c: nat :: c < |s.consumers| && s.mutex == Held(ByConsumer(c)) ==> !s.consumers[c].Fetched?)
              ==> Count(s.consumers, AtFetched) == 0
  {
    CountNone(s.producers, AtStored);
    CountNone(s.consumers, AtFetched);
  }

  lemma ProducerKeepsIndices(s: Sys, p: nat, r: Request)
    requires Shaped(s) && IndicesRight(s) && Enabled(s, Produce(p, r))
    ensures IndicesRight(ProducerNext(s, p, r))
  {
    CountUpdate(s.producers, AtStored, p, ProducerAfter(s, p, r));
    if s.producers[p].Stored? {
      NextIndex(|s.written| - Count(s.producers, AtStored));
    }
  }

  lemma ConsumerKeepsIndices(s: Sys, c: nat, survives: bool)
    requires Shaped(s) && IndicesRight(s) && Enabled(s, Consume(c, survives))
    ensures IndicesRight(ConsumerNext(s, c, survives))
  {
    CountUpdate(s.consumers, AtFetched, c, ConsumerAfter(s, c, survives));
    if s.consumers[c].Fetched? {
      NextIndex(|s.taken| - Count(s.consumers, AtFetched));
    }
  }

  /** A producer about to store finds a slot of its own: the ring is not full and `rq_tail` is its next place. */
  lemma StoreHasRoom(s: Sys, p: nat)
    requires Shaped(s) && Inv(s) && p < |s.producers| && s.producers[p].InPut?
    ensures |s.written| + Count(s.consumers, BeforeSlot) < |s.taken| + QUEUE_SIZE
    ensures s.tail == |s.written| % QUEUE_SIZE
  {
    CountNone(s.producers, BeforeStore);
    assert BeforeStore(s.producers[p]);
    NoneStored(s);
  }

  /** Before any extra post a consumer about to read finds an item, and `rq_head` is the oldest one. */
  lemma ReadHasItem(s: Sys, c: nat)
    requires Shaped(s) && Inv(s) && c < |s.consumers| && s.consumers[c].InGet? && s.posts == 0
    ensures |s.taken| < |s.written| && s.head == |s.taken| % QUEUE_SIZE
    ensures s.ring[s.head] == s.written[|s.taken|]
  {
    CountNone(s.consumers, BeforeRead);
    assert BeforeRead(s.consumers[c]);
    NoneStored(s);
  }

  lemma OtherSlot(i: nat, n: nat)
    requires i < n < i + QUEUE_SIZE
    ensures i % QUEUE_SIZE != n % QUEUE_SIZE
  {
  }

  lemma ProducerKeepsFifo(s: Sys, p: nat, r: Request)
    requires Shaped(s) && Inv(s) && Enabled(s, Produce(p, r)) && s.posts == 0
    ensures Fifo(ProducerNext(s, p, r))
  {
    if s.producers[p].InPut? {
      StoreHasRoom(s, p);
      var t := ProducerNext(s, p, r);
      forall i | |t.taken| <= i < |t.written| ensures t.ring[i % QUEUE_SIZE] == t.written[i] {
        if i < |s.written| {
          OtherSlot(i, |s.written|);
        }
      }
    }
  }

  lemma ConsumerKeepsFifo(s: Sys, c: nat, survives: bool)
    requires Shaped(s) && Inv(s) && Enabled(s, Consume(c, survives)) && s.posts == 0
    ensures Fifo(ConsumerNext(s, c, survives))
  {
    if s.consumers[c].InGet? {
      ReadHasItem(s, c);
      assert s.written[..|s.taken| + 1] == s.written[..|s.taken|] + [s.written[|s.taken|]];
    }
  }

  lemma ProducerKeepsSerials(s: Sys, p: nat, r: Request)
    requires Shaped(s) && SerialsRight(s) && Enabled(s, Produce(p, r))
    ensures SerialsRight(ProducerNext(s, p, r))
  {
    var t := ProducerNext(s, p, r);
    assert t.consumers == s.consumers && t.taken == s.taken && t.served == s.served && s.written <= t.written;
  }

  /** A read in progress keeps its serial number; a new read gets the next one. */
  lemma ConsumerKeepsSerials(s: Sys, c: nat, survives: bool)
    requires Shaped(s) && SerialsRight(s) && Enabled(s, Consume(c, survives)) && !s.consumers[c].Guard?
    ensures SerialsRight(ConsumerNext(s, c, survives))
  {
    var t := ConsumerNext(s, c, survives);
    assert t.served == s.served && t.written == s.written && s.taken <= t.taken;
    assert InHand(t.consumers[c]) ==>
             || t.consumers[c].n == |s.taken|
             || (InHand(s.consumers[c]) && t.consumers[c].n == s.consumers[c].n);
  }

  /** Passing the guard means nothing had been posted yet, so the request was really enqueued. */
  lemma GuardKeepsSerials(s: Sys, c: nat, survives: bool)
    requires Shaped(s) && SerialsRight(s) && Enabled(s, Consume(c, survives)) && s.consumers[c].Guard?
    requires TokensRight(s) && (s.posts == 0 ==> Fifo(s))
    ensures SerialsRight(ConsumerNext(s, c, survives))
  {
    var t := ConsumerNext(s, c, survives);
    var n := s.consumers[c].n;
    assert InHand(s.consumers[c]) && !InHand(t.consumers[c]);
    assert !s.shutdown ==> s.taken[n] == s.written[n];
  }

  lemma ConsumerKeepsTokens(s: Sys, c: nat, survives: bool)
    requires Shaped(s) && TokensRight(s) && Enabled(s, Consume(c, survives))
    ensures TokensRight(ConsumerNext(s, c, survives))
  {
    CountUpdate(s.consumers, AtWaiting, c, ConsumerAfter(s, c, survives));
  }

  lemma ProducerKeepsInv(s: Sys, p: nat, r: Request)
    requires Shaped(s) && Inv(s) && Enabled(s, Produce(p, r))
    ensures Inv(ProducerNext(s, p, r))
  {
    ProducerKeepsAccounts(s, p, r);
    ProducerKeepsMutex(s, p, r);
    ProducerKeepsIndices(s, p, r);
    ProducerKeepsSerials(s, p, r);
    if s.posts == 0 {
      ProducerKeepsFifo(s, p, r);
    }
  }

  lemma ConsumerKeepsInv(s: Sys, c: nat, survives: bool)
    requires Shaped(s) && Inv(s) && Enabled(s, Consume(c, survives))
    ensures Inv(ConsumerNext(s, c, survives))
  {
    ConsumerKeepsAccounts(s, c, survives);
    ConsumerKeepsMutex(s, c, survives);
    ConsumerKeepsIndices(s, c, survives);
    ConsumerKeepsTokens(s, c, survives);
    if s.consumers[c].Guard? {
      GuardKeepsSerials(s, c, survives);
    } else {
      ConsumerKeepsSerials(s, c, survives);
    }
    if s.posts == 0 {
      ConsumerKeepsFifo(s, c, survives);
    }
  }

  lemma StepKeepsInv(s: Sys, a: Step)
    requires Shaped(s) && Inv(s) && Enabled(s, a)
    ensures Inv(Next(s, a))
  {
    hide ProducerNext, ConsumerNext;
    match a
    case Produce(p, r) => ProducerKeepsInv(s, p, r);
    case Consume(c, survives) => ConsumerKeepsInv(s, c, survives);
    case SetShutdown =>
    case Post =>
  }

  lemma InitialInv(s: Sys)
    requires Initial(s)
    ensures Inv(s)
  {
    CountNone(s.producers, BeforeStore);
    CountNone(s.producers, BeforeItem);
    CountNone(s.producers, AtStored);
    CountNone(s.consumers, BeforeRead);
    CountNone(s.consumers, BeforeSlot);
    CountNone(s.consumers, AtFetched);
  }

  lemma {:induction false} InvAlways(s: Sys, steps: seq<Step>)
    requires Shaped(s) && Inv(s) && CanRun(s, steps)
    ensures Inv(Execute(s, steps))
    decreases |steps|
  {
    if steps != [] {
      StepKeepsInv(s, steps[0]);
      InvAlways(Next(s, steps[0]), steps[1..]);
    }
  }
}
