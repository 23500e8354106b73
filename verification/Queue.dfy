/**
  The request queue's protocol, step by step, for any number of producers and consumers: two
  counting semaphores, one mutex, the ring they guard, and the shutdown that posts `rq_items` once
  per session thread. Histories of what was written, read and served are kept beside the state.
 */
module Queue {
  import opened RequestRing

  /** A producer in `enqueue_request`. */
  datatype Producer =
    | Free                      // about to wait for a slot
    | HasSlot(r: Request)       // about to lock the mutex
    | InPut(r: Request)         // holds it, about to store
    | Stored                    // about to advance `rq_tail`
    | Advanced                  // about to unlock
    | PutDone                   // about to post `rq_items`

  /** A session thread; n counts the reads before its own. */
  datatype Consumer =
    | Loop                      // about to test `server_shutdown`
    | Waiting                   // in `sem_wait(&rq_items)`
    | HasItem                   // about to lock the mutex
    | InGet                     // holds it, about to read
    | Fetched(r: Request, n: nat)    // about to advance `rq_head`
    | Stepped(r: Request, n: nat)    // about to unlock
    | GetDone(r: Request, n: nat)    // about to post `rq_slots`
    | Guard(r: Request, n: nat)      // about to test `server_shutdown` again
    | Serving(r: Request, n: nat)
    | Exited

  datatype Who = ByProducer(p: nat) | ByConsumer(c: nat)

  datatype Holder = Nobody | Held(who: Who)

  datatype Served = Served(r: Request, n: nat)

  datatype Sys = Sys(
    items: int, slots: int, mutex: Holder, ring: seq<Request>, head: nat, tail: nat,
    producers: seq<Producer>, consumers: seq<Consumer>,
    shutdown: bool, posts: nat,
    written: seq<Request>, taken: seq<Request>, served: seq<Served>)

  /** What a thread does next: the request a producer brings, whether a served session's thread survives. */
  datatype Step = Produce(p: nat, r: Request) | Consume(c: nat, survives: bool) | SetShutdown | Post

  predicate Shaped(s: Sys) {
    |s.ring| == QUEUE_SIZE && s.head < QUEUE_SIZE && s.tail < QUEUE_SIZE
  }

  predicate Enabled(s: Sys, a: Step) {
    match a
    case Produce(p, r) =>
      && p < |s.producers|
      && (s.producers[p].Free? ==> s.slots > 0)
      && (s.producers[p].HasSlot? ==> s.mutex.Nobody?)
    case Consume(c, survives) =>
      && c < |s.consumers| && !s.consumers[c].Exited?
      && (s.consumers[c].Waiting? ==> s.items > 0)
      && (s.consumers[c].HasItem? ==> s.mutex.Nobody?)
    case SetShutdown => true
    case Post => s.shutdown && s.posts < |s.consumers|
  }

  function ProducerAfter(s: Sys, p: nat, r: Request): Producer
    requires p < |s.producers|
  {
    match s.producers[p]
    case Free => HasSlot(r)
    case HasSlot(r) => InPut(r)
    case InPut(r) => Stored
    case Stored => Advanced
    case Advanced => PutDone
    case PutDone => Free
  }

  function ProducerNext(s: Sys, p: nat, r: Request): (t: Sys)
    requires Shaped(s) && p < |s.producers|
    ensures Shaped(t)
  {
    var pc := s.producers[p];
    s.(producers := s.producers[p := ProducerAfter(s, p, r)],
       slots := if pc.Free? then s.slots - 1 else s.slots,
       mutex := if pc.HasSlot? then Held(ByProducer(p)) else if pc.Advanced? then Nobody else s.mutex,
       ring := if pc.InPut? then s.ring[s.tail := pc.r] else s.ring,
       written := if pc.InPut? then s.written + [pc.r] else s.written,
       tail := if pc.Stored? then (s.tail + 1) % QUEUE_SIZE else s.tail,
       items := if pc.PutDone? then s.items + 1 else s.items)
  }

  function ConsumerAfter(s: Sys, c: nat, survives: bool): Consumer
    requires Shaped(s) && c < |s.consumers|
  {
    match s.consumers[c]
    case Loop => if s.shutdown then Exited else Waiting
    case Waiting => HasItem
    case HasItem => InGet
    case InGet => Fetched(s.ring[s.head], |s.taken|)
    case Fetched(r, n) => Stepped(r, n)
    case Stepped(r, n) => GetDone(r, n)
    case GetDone(r, n) => Guard(r, n)
    case Guard(r, n) => if s.shutdown then Exited else Serving(r, n)
    case Serving(r, n) => if survives then Loop else Exited
    case Exited => Exited
  }

  function ConsumerNext(s: Sys, c: nat, survives: bool): (t: Sys)
    requires Shaped(s) && c < |s.consumers|
    ensures Shaped(t)
  {
    var pc := s.consumers[c];
    s.(consumers := s.consumers[c := ConsumerAfter(s, c, survives)],
       items := if pc.Waiting? then s.items - 1 else s.items,
       mutex := if pc.HasItem? then Held(ByConsumer(c)) else if pc.Stepped? then Nobody else s.mutex,
       taken := if pc.InGet? then s.taken + [s.ring[s.head]] else s.taken,
       head := if pc.Fetched? then (s.head + 1) % QUEUE_SIZE else s.head,
       slots := if pc.GetDone? then s.slots + 1 else s.slots,
       served := if pc.Guard? && !s.shutdown then s.served + [Served(pc.r, pc.n)] else s.served)
  }

  function Next(s: Sys, a: Step): (t: Sys)
    requires Shaped(s) && Enabled(s, a)
    ensures Shaped(t)
  {
    match a
    case Produce(p, r) => ProducerNext(s, p, r)
    case Consume(c, survives) => ConsumerNext(s, c, survives)
    case SetShutdown => s.(shutdown := true)
    case Post => s.(items := s.items + 1, posts := s.posts + 1)
  }

  predicate CanRun(s: Sys, steps: seq<Step>)
    requires Shaped(s)
    decreases |steps|
  {
    steps == [] || (Enabled(s, steps[0]) && CanRun(Next(s, steps[0]), steps[1..]))
  }

  function Execute(s: Sys, steps: seq<Step>): (t: Sys)
    requires Shaped(s) && CanRun(s, steps)
    ensures Shaped(t)
    decreases |steps|
  {
    if steps == [] then s else Execute(Next(s, steps[0]), steps[1..])
  }

  predicate Initial(s: Sys) {
    && Shaped(s) && s.items == 0 && s.slots == QUEUE_SIZE && s.mutex.Nobody? && s.head == 0 && s.tail == 0
    && (forall p :: 0 <= p < |s.producers| ==> s.producers[p] == Free)
    && (forall c :: 0 <= c < |s.consumers| ==> s.consumers[c] == Loop)
    && !s.shutdown && s.posts == 0 && s.written == [] && s.taken == [] && s.served == []
  }

  // ----- counting threads

  function Count<T>(xs: seq<T>, f: T -> bool): (n: nat)
    ensures n <= |xs|
  {
    if xs == [] then 0 else (if f(xs[0]) then 1 else 0) + Count(xs[1..], f)
  }

  lemma {:induction false} CountUpdate<T>(xs: seq<T>, f: T -> bool, i: nat, x: T)
    requires i < |xs|
    ensures Count(xs[i := x], f) == Count(xs, f) - (if f(xs[i]) then 1 else 0) + (if f(x) then 1 else 0)
  {
    if i == 0 {
      assert xs[i := x][1..] == xs[1..];
    } else {
      assert xs[i := x][1..] == xs[1..][i - 1 := x];
      CountUpdate(xs[1..], f, i - 1, x);
    }
  }

  lemma {:induction false} CountNone<T>(xs: seq<T>, f: T -> bool)
    ensures Count(xs, f) == 0 <==> forall i :: 0 <= i < |xs| ==> !f(xs[i])
  {
    if xs != [] {
      CountNone(xs[1..], f);
      assert forall i :: 0 < i < |xs| ==> xs[i] == xs[1..][i - 1];
      assert (forall i :: 0 <= i < |xs| ==> !f(xs[i])) ==> forall i :: 0 <= i < |xs[1..]| ==> !f(xs[1..][i]);
    }
  }

  /** Holds a slot, has not stored. */
  predicate BeforeStore(p: Producer) {
    p.HasSlot? || p.InPut?
  }

  /** Has stored, has not posted the item. */
  predicate BeforeItem(p: Producer) {
    p.Stored? || p.Advanced? || p.PutDone?
  }

  predicate AtStored(p: Producer) {
    p.Stored?
  }

  /** Has taken an item, has not read. */
  predicate BeforeRead(c: Consumer) {
    c.HasItem? || c.InGet?
  }

  /** Has read, has not posted the slot. */
  predicate BeforeSlot(c: Consumer) {
    c.Fetched? || c.Stepped? || c.GetDone?
  }

  predicate AtFetched(c: Consumer) {
    c.Fetched?
  }

  predicate AtWaiting(c: Consumer) {
    c.Waiting?
  }

  // ----- the accounts

  /**
    Items and slots against the histories. Before any extra post: written minus read, plus free
    slots, plus producers yet to store, plus consumers yet to post, is the size of the ring.
   */
  ghost predicate Accounts(s: Sys) {
    && s.items >= 0 && s.slots >= 0
    && s.items + Count(s.consumers, BeforeRead) + |s.taken|
       == |s.written| - Count(s.producers, BeforeItem) + s.posts
    && s.slots + Count(s.producers, BeforeStore) + |s.written|
       == QUEUE_SIZE + |s.taken| - Count(s.consumers, BeforeSlot)
  }

  /** The mutex is held by exactly the thread inside a critical section. */
  ghost predicate MutexRight(s: Sys) {
    && (forall p: nat :: p < |s.producers| ==>
         ((s.producers[p].InPut? || s.producers[p].Stored? || s.producers[p].Advanced?)
          <==> s.mutex == Held(ByProducer(p))))
    && (forall c: nat :: c < |s.consumers| ==>
         ((s.consumers[c].InGet? || s.consumers[c].Fetched? || s.consumers[c].Stepped?)
          <==> s.mutex == Held(ByConsumer(c))))
    && (s.mutex.Held? ==>
         match s.mutex.who
         case ByProducer(p) => p < |s.producers|
         case ByConsumer(c) => c < |s.consumers|)
  }

  /** The indices count the histories modulo the size of the ring. */
  ghost predicate IndicesRight(s: Sys) {
    && Shaped(s)
    && s.tail == (|s.written| - Count(s.producers, AtStored)) % QUEUE_SIZE
    && s.head == (|s.taken| - Count(s.consumers, AtFetched)) % QUEUE_SIZE
    && Count(s.producers, AtStored) <= |s.written| && Count(s.consumers, AtFetched) <= |s.taken|
  }

  /** As long as nothing was posted beyond the requests: a FIFO, nothing unread overwritten. */
  ghost predicate Fifo(s: Sys) {
    && |s.ring| == QUEUE_SIZE
    && |s.taken| <= |s.written| <= |s.taken| + QUEUE_SIZE
    && s.taken == s.written[..|s.taken|]
    && forall i :: |s.taken| <= i < |s.written| ==> s.ring[i % QUEUE_SIZE] == s.written[i]
  }

  ghost predicate InHand(c: Consumer) {
    c.Fetched? || c.Stepped? || c.GetDone? || c.Guard?
  }

  /** Every read in a consumer's hands or served is a different one. */
  ghost predicate SerialsRight(s: Sys) {
    && (forall c :: 0 <= c < |s.consumers| && InHand(s.consumers[c]) ==>
         s.consumers[c].n < |s.taken| && s.taken[s.consumers[c].n] == s.consumers[c].r)
    && (forall c, d :: 0 <= c < d < |s.consumers| && InHand(s.consumers[c]) && InHand(s.consumers[d]) ==>
         s.consumers[c].n != s.consumers[d].n)
    && (forall c, k :: 0 <= c < |s.consumers| && InHand(s.consumers[c]) && 0 <= k < |s.served| ==>
         s.served[k].n != s.consumers[c].n)
    && (forall k :: 0 <= k < |s.served| ==>
         s.served[k].n < |s.taken| && s.served[k].n < |s.written| && s.written[s.served[k].n] == s.served[k].r)
    && (forall j, k :: 0 <= j < k < |s.served| ==> s.served[j].n != s.served[k].n)
  }

  /** Enough tokens for every session thread that still has to wait. */
  ghost predicate TokensRight(s: Sys) {
    && (s.posts > 0 ==> s.shutdown) && s.posts <= |s.consumers|
    && (s.shutdown ==> s.items + |s.consumers| - Count(s.consumers, AtWaiting) >= s.posts)
  }

  ghost predicate Inv(s: Sys) {
    && Accounts(s) && MutexRight(s) && IndicesRight(s) && SerialsRight(s) && TokensRight(s)
    && (s.posts == 0 ==> Fifo(s))
  }
}
