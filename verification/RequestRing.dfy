/**
  The 64-slot ring of session requests: the two critical sections that write and read it, on the
  array and the two indices themselves.
 */
module RequestRing {

  const QUEUE_SIZE: nat := 64

  datatype Request = Request(reqPipe: string, notifPipe: string)

  /** The slots from `head` on hold the unread requests, oldest first, and `tail` is the place of the next one. */
  predicate Shows(slots: seq<Request>, head: nat, tail: nat, contents: seq<Request>) {
    && |slots| == QUEUE_SIZE && head < QUEUE_SIZE && tail < QUEUE_SIZE && |contents| <= QUEUE_SIZE
    && tail == (head + |contents|) % QUEUE_SIZE
    && forall i :: 0 <= i < |contents| ==> slots[(head + i) % QUEUE_SIZE] == contents[i]
  }

  class Ring {
    const slots: array<Request>
    var head: nat
    var tail: nat
    ghost var contents: seq<Request>   // written and not yet read, oldest first

    constructor ()
      ensures Valid() && contents == [] && fresh(slots)
    {
      slots := new Request[QUEUE_SIZE](i => Request("", ""));
      head, tail, contents := 0, 0, [];
    }

    ghost predicate Valid()
      reads this, slots
    {
      && slots.Length == QUEUE_SIZE && head < QUEUE_SIZE && tail < QUEUE_SIZE && |contents| <= QUEUE_SIZE
      && tail == (head + |contents|) % QUEUE_SIZE
      && forall i :: 0 <= i < |contents| ==> slots[(head + i) % QUEUE_SIZE] == contents[i]
    }

    lemma ValidShows()
      requires Valid()
      ensures Shows(slots[..], head, tail, contents)
    {
    }

    /** The critical section of `enqueue_request`; the free slot is what `rq_slots` guarantees. */
    method Put(req: Request)
      requires Valid() && |contents| < QUEUE_SIZE
      modifies this`tail, this`contents, slots
      ensures Valid() && contents == old(contents) + [req]
    {
      slots[tail] := req;
      tail := (tail + 1) % QUEUE_SIZE;
      contents := contents + [req];
    }

    /** The critical section of `dequeue_request`; the item is what `rq_items` guarantees. */
    method Get() returns (req: Request)
      requires Valid() && contents != []
      modifies this`head, this`contents
      ensures Valid() && [req] + contents == old(contents)
    {
      req := slots[head];
      head := (head + 1) % QUEUE_SIZE;
      contents := contents[1..];
    }
  }
}
