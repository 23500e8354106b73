/**
  What the queue's threads achieve: a producer with a free slot gets its request in, a session thread
  gets the oldest one out, serves it and comes back for the next, and so every request of any list is
  served, in order, before shutdown.
 */
module QueueService {
  import opened RequestRing
  import opened Queue
  import opened QueueInvariant
  import opened QueueGuarantees

  ghost predicate Reaches(s: Sys, t: Sys)
    requires Shaped(s)
  {
    exists steps :: CanRun(s, steps) && Execute(s, steps) == t
  }

  lemma {:induction false} Extend(s: Sys, steps: seq<Step>, a: Step)
    requires Shaped(s) && CanRun(s, steps) && Enabled(Execute(s, steps), a)
    ensures CanRun(s, steps + [a]) && Execute(s, steps + [a]) == Next(Execute(s, steps), a)
    decreases |steps|
  {
    hide Next, Enabled;
    if steps == [] {
      assert CanRun(Next(s, a), []);
      assert (steps + [a])[1..] == [];
    } else {
      Extend(Next(s, steps[0]), steps[1..], a);
      assert (steps + [a])[1..] == steps[1..] + [a];
    }
  }

  lemma ReachSelf(s: Sys)
    requires Shaped(s)
    ensures Reaches(s, s)
  {
    assert CanRun(s, []) && Execute(s, []) == s;
  }

  lemma Go(s: Sys, t: Sys, a: Step) returns (u: Sys)
    requires Shaped(s) && Shaped(t) && Reaches(s, t) && Enabled(t, a)
    ensures Shaped(u) && Reaches(s, u) && u == Next(t, a)
  {
    hide Next, Enabled;
    u := Next(t, a);
    var steps :| CanRun(s, steps) && Execute(s, steps) == t;
    Extend(s, steps, a);
  }

  lemma ReachesKeepsInv(s: Sys, t: Sys)
    requires Shaped(s) && Inv(s) && Reaches(s, t)
    ensures Shaped(t) && Inv(t)
  {
    var steps :| CanRun(s, steps) && Execute(s, steps) == t;
    InvAlways(s, steps);
  }

  // ----- one request in, one request out

  /** A slot, and the mutex. */
  lemma ProducerEnters(o: Sys, s: Sys, p: nat, r: Request) returns (t: Sys)
    requires Shaped(o) && Shaped(s) && Reaches(o, s)
    requires p < |s.producers| && s.producers[p] == Free && s.slots > 0 && s.mutex == Nobody
    ensures Shaped(t) && Reaches(o, t)
    ensures t == s.(slots := s.slots - 1, mutex := Held(ByProducer(p)), producers := s.producers[p := InPut(r)])
  {
    t := Go(o, s, Produce(p, r));
    t := Go(o, t, Produce(p, r));
    assert t.producers == s.producers[p := InPut(r)];
  }

  /** The critical section. */
  lemma ProducerStores(o: Sys, s: Sys, p: nat, r: Request) returns (t: Sys)
    requires Shaped(o) && Shaped(s) && Reaches(o, s) && p < |s.producers| && s.producers[p] == InPut(r)
    ensures Shaped(t) && Reaches(o, t)
    ensures t == s.(ring := s.ring[s.tail := r], tail := if s.tail == 63 then 0 else s.tail + 1,
                    written := s.written + [r], producers := s.producers[p := Advanced])
  {
    t := Go(o, s, Produce(p, r));
    t := Go(o, t, Produce(p, r));
    assert t.producers == s.producers[p := Advanced];
  }

  /** Unlocking and posting. */
  lemma ProducerLeaves(o: Sys, s: Sys, p: nat, r: Request) returns (t: Sys)
    requires Shaped(o) && Shaped(s) && Reaches(o, s) && p < |s.producers| && s.producers[p] == Advanced
    ensures Shaped(t) && Reaches(o, t)
    ensures t == s.(mutex := Nobody, items := s.items + 1, producers := s.producers[p := Free])
  {
    t := Go(o, s, Produce(p, r));
    t := Go(o, t, Produce(p, r));
    assert t.producers == s.producers[p := Free];
  }

  /** `enqueue_request`, done without interruption. */
  lemma RequestGetsIn(o: Sys, s: Sys, p: nat, r: Request) returns (t: Sys)
    requires Shaped(o) && Shaped(s) && Reaches(o, s)
    requires p < |s.producers| && s.producers[p] == Free && s.slots > 0 && s.mutex == Nobody
    ensures Shaped(t) && Reaches(o, t)
    ensures t == s.(ring := s.ring[s.tail := r], tail := if s.tail == 63 then 0 else s.tail + 1,
                    written := s.written + [r], slots := s.slots - 1, items := s.items + 1)
  {
    t := ProducerEnters(o, s, p, r);
    t := ProducerStores(o, t, p, r);
    t := ProducerLeaves(o, t, p, r);
    assert t.producers == s.producers;
  }

  /** The test, an item, and the mutex. */
  lemma ConsumerEnters(o: Sys, s: Sys, c: nat) returns (t: Sys)
    requires Shaped(o) && Shaped(s) && Reaches(o, s)
    requires c < |s.consumers| && s.consumers[c] == Loop && s.items > 0 && s.mutex == Nobody && !s.shutdown
    ensures Shaped(t) && Reaches(o, t)
    ensures t == s.(items := s.items - 1, mutex := Held(ByConsumer(c)), consumers := s.consumers[c := InGet])
  {
    t := Go(o, s, Consume(c, true));
    t := Go(o, t, Consume(c, true));
    t := Go(o, t, Consume(c, true));
    assert t.consumers == s.consumers[c := InGet];
  }

  /** The critical section. */
  lemma ConsumerReads(o: Sys, s: Sys, c: nat) returns (t: Sys)
    requires Shaped(o) && Shaped(s) && Reaches(o, s) && c < |s.consumers| && s.consumers[c] == InGet
    ensures Shaped(t) && Reaches(o, t)
    ensures var r, n := s.ring[s.head], |s.taken|;
            t == s.(head := if s.head == 63 then 0 else s.head + 1, taken := s.taken + [r],
                    consumers := s.consumers[c := Stepped(r, n)])
  {
    t := Go(o, s, Consume(c, true));
    t := Go(o, t, Consume(c, true));
    assert t.consumers == s.consumers[c := Stepped(s.ring[s.head], |s.taken|)];
  }

  /** Unlocking, posting, and the guard. */
  lemma ConsumerServes(o: Sys, s: Sys, c: nat, r: Request, n: nat) returns (t: Sys)
    requires Shaped(o) && Shaped(s) && Reaches(o, s) && c < |s.consumers| && s.consumers[c] == Stepped(r, n)
    requires !s.shutdown
    ensures Shaped(t) && Reaches(o, t)
    ensures t == s.(mutex := Nobody, slots := s.slots + 1, served := s.served + [Served(r, n)],
                    consumers := s.consumers[c := Serving(r, n)])
  {
    t := Go(o, s, Consume(c, true));
    t := Go(o, t, Consume(c, true));
    t := Go(o, t, Consume(c, true));
    assert t.consumers == s.consumers[c := Serving(r, n)];
  }

  /** `dequeue_request`, and the guard after it, done without interruption. */
  lemma RequestGetsOut(o: Sys, s: Sys, c: nat) returns (t: Sys)
    requires Shaped(o) && Shaped(s) && Reaches(o, s)
    requires c < |s.consumers| && s.consumers[c] == Loop && s.items > 0 && s.mutex == Nobody && !s.shutdown
    ensures Shaped(t) && Reaches(o, t)
    ensures var r, n := s.ring[s.head], |s.taken|;
            t == s.(head := if s.head == 63 then 0 else s.head + 1, taken := s.taken + [r],
                    slots := s.slots + 1, items := s.items - 1, served := s.served + [Served(r, n)],
                    consumers := s.consumers[c := Serving(r, n)])
  {
    var r, n := s.ring[s.head], |s.taken|;
    t := ConsumerEnters(o, s, c);
    t := ConsumerReads(o, t, c);
    t := ConsumerServes(o, t, c, r, n);
    assert t.consumers == s.consumers[c := Serving(r, n)];
  }

  /** After a session its thread goes on to the next request, unless it has died of it. */
  lemma SessionEnds(s: Sys, c: nat, survives: bool)
    requires Shaped(s) && c < |s.consumers| && s.consumers[c].Serving?
    ensures Enabled(s, Consume(c, survives))
    ensures Next(s, Consume(c, survives)) == s.(consumers := s.consumers[c := if survives then Loop else Exited])
  {
  }

  /** A session thread ends in no other way than by shutdown or by dying in a session. */
  lemma ExitsExactly(s: Sys, c: nat, survives: bool)
    requires Shaped(s) && Enabled(s, Consume(c, survives))
    ensures Next(s, Consume(c, survives)).consumers[c] == Exited <==>
            if s.consumers[c].Serving? then !survives
            else s.shutdown && (s.consumers[c].Loop? || s.consumers[c].Guard?)
  {
  }

  // ----- all requests

  /** Nobody between two operations, nothing waiting, the server running, and session thread c about to ask. */
  ghost predicate Ready(s: Sys, c: nat) {
    && Shaped(s) && Inv(s) && !s.shutdown && s.posts == 0 && s.mutex == Nobody
    && (forall p :: 0 <= p < |s.producers| ==> s.producers[p] == Free)
    && c < |s.consumers| && s.consumers[c] == Loop
    && (forall d :: 0 <= d < |s.consumers| ==> !BeforeRead(s.consumers[d]) && !BeforeSlot(s.consumers[d]))
    && |s.taken| == |s.written|
  }

  lemma ReadyTokens(s: Sys, c: nat)
    requires Ready(s, c)
    ensures s.items == 0 && s.slots == 64 && s.head == s.tail
  {
    CountNone(s.producers, BeforeStore);
    CountNone(s.producers, BeforeItem);
    CountNone(s.consumers, BeforeRead);
    CountNone(s.consumers, BeforeSlot);
    FreeIndices(s);
  }

  /** A request put in at rest is the one that is served, and then all is as ready as before. */
  lemma OneIsServed(o: Sys, s: Sys, p: nat, c: nat, r: Request) returns (t: Sys)
    requires Shaped(o) && Inv(o) && Ready(s, c) && Reaches(o, s) && p < |s.producers|
    ensures Ready(t, c) && Reaches(o, t) && t.producers == s.producers
    ensures t.written == s.written + [r] && t.served == s.served + [Served(r, |s.written|)]
  {
    ReadyTokens(s, c);
    hide Inv, Enabled, Next;
    var u := RequestGetsIn(o, s, p, r);
    t := RequestGetsOut(o, u, c);
    SessionEnds(t, c, true);
    t := Go(o, t, Consume(c, true));
    ReadyAgain(o, s, t, p, c, r);
  }

  lemma ReadyAgain(o: Sys, s: Sys, t: Sys, p: nat, c: nat, r: Request)
    requires Shaped(o) && Ready(s, c) && Shaped(t) && Reaches(o, s) && Reaches(o, t)
    requires t.producers == s.producers && t.consumers == s.consumers && t.mutex == s.mutex && t.shutdown == s.shutdown
    requires t.posts == s.posts && |t.taken| == |t.written|
    requires Inv(o)
    ensures Ready(t, c)
  {
    ReachesKeepsInv(o, t);
  }

  /** Every list of requests is served, one after the other, in the order they came. */
  lemma {:induction false} AllAreServed(o: Sys, s: Sys, p: nat, c: nat, rs: seq<Request>) returns (t: Sys)
    requires Shaped(o) && Inv(o) && Ready(s, c) && Reaches(o, s) && p < |s.producers|
    ensures Ready(t, c) && Reaches(o, t) && t.producers == s.producers
    ensures t.written == s.written + rs && |t.served| == |s.served| + |rs| && t.served[..|s.served|] == s.served
    ensures forall i :: 0 <= i < |rs| ==> t.served[|s.served| + i] == Served(rs[i], |s.written| + i)
    decreases |rs|
  {
    hide Ready, Reaches, Inv;
    if rs == [] {
      t := s;
    } else {
      var n := |rs| - 1;
      var u := AllAreServed(o, s, p, c, rs[..n]);
      t := OneIsServed(o, u, p, c, rs[n]);
      assert rs == rs[..n] + [rs[n]];
    }
  }

  /** From the start, with at least one producer and one session thread. */
  lemma ServedFromTheStart(s: Sys, p: nat, c: nat, rs: seq<Request>) returns (t: Sys)
    requires Initial(s) && p < |s.producers| && c < |s.consumers|
    ensures Reaches(s, t) && Ready(t, c)
    ensures |t.served| == |rs| && forall i :: 0 <= i < |rs| ==> t.served[i] == Served(rs[i], i)
  {
    InitialInv(s);
    ReachSelf(s);
    t := AllAreServed(s, s, p, c, rs);
  }

  /** The queue takes 64 requests that nobody has asked for yet. */
  lemma {:induction false} QueueFills(s: Sys, p: nat, rs: seq<Request>) returns (t: Sys)
    requires Initial(s) && p < |s.producers| && |rs| <= 64
    ensures Reaches(s, t) && t.producers == s.producers && t.mutex == Nobody
    ensures t.written == rs && t.taken == [] && t.items == |rs| && t.slots == 64 - |rs|
    decreases |rs|
  {
    if rs == [] {
      t := s;
      ReachSelf(s);
    } else {
      var n := |rs| - 1;
      var u := QueueFills(s, p, rs[..n]);
      t := RequestGetsIn(s, u, p, rs[n]);
      assert rs == rs[..n] + [rs[n]];
    }
  }

  /** A producer without a slot waits; the 65th request has to. */
  lemma FullQueueBlocks(s: Sys, p: nat, r: Request)
    requires Shaped(s) && p < |s.producers| && s.producers[p] == Free && s.slots == 0
    ensures !Enabled(s, Produce(p, r))
  {
  }
}
