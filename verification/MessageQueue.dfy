/**
 The queues of skynet/skynet-src/skynet_mq.c as data structures: the growing ring of one service and
 the intrusive linked list of queues with work.  Each method is the body its spinlock protects.
 */
module MessageQueue {
  import opened Arithmetic
  import opened Rings
  import opened Scheduler

  const DEFAULT_QUEUE_SIZE := 64
  const MQ_OVERLOAD := 1024

  /** The least number that is not below `length` and comes from `limit` by doubling. */
  ghost predicate Covers(limit: nat, threshold: nat, length: nat) {
    length <= threshold && exists k: nat :: threshold == limit * TwoTo(k) && (k > 0 ==> threshold < 2 * length)
  }

  /** struct message_queue. */
  class Queue {
    var ring: array<Message>
    var head: nat
    var tail: nat
    var inGlobal: bool
    var release: bool
    var overload: nat
    var threshold: nat

    ghost predicate Valid()
      reads this, ring
    {
      head < ring.Length && tail < ring.Length && threshold >= MQ_OVERLOAD
    }

    /** What a reader of the queue sees, oldest first. */
    ghost function Contents(): (s: seq<Message>)
      requires Valid()
      reads this, ring
    {
      Ring(ring[..], head, Length(head, tail, ring.Length))
    }

    constructor (fill: Message)
      ensures Valid() && fresh(ring) && Contents() == [] && inGlobal && !release
      ensures ring.Length == 64 && threshold == 1024 && overload == 0
    {
      ring := new Message[DEFAULT_QUEUE_SIZE](_ => fill);
      head, tail := 0, 0;
      inGlobal, release := true, false;
      overload, threshold := 0, MQ_OVERLOAD;
    }

    /** expand_queue, called when the ring is full and head has met tail. */
    method Expand()
      requires Valid() && head == tail
      modifies this`ring, this`head, this`tail
      ensures Valid() && fresh(ring) && ring.Length == 2 * old(ring.Length)
      ensures Contents() == Ring(old(ring[..]), old(head), old(ring.Length))
    {
      var cap := ring.Length;
      var fill := ring[0];
      var bigger := new Message[cap * 2](_ => fill);
      ghost var all := Ring(ring[..], head, cap);
      var i := 0;
      while i < cap
        invariant 0 <= i <= cap && head < cap && ring.Length == cap && all == Ring(ring[..], head, cap)
        invariant forall k :: 0 <= k < i ==> bigger[k] == all[k]
      {
        WrapOnce(head + i, cap);
        bigger[i] := ring[(head + i) % cap];
        assert bigger[i] == all[i];
        i := i + 1;
      }
      assert bigger[..cap] == all;
      RingFromZero(bigger[..], cap);
      assert bigger[..][..cap] == bigger[..cap];
      head := 0;
      tail := cap;
      ring := bigger;
    }

    /** skynet_mq_push; `enqueue` tells whether the queue must also go to the global queue. */
    method Push(m: Message) returns (enqueue: bool)
      requires Valid()
      modifies this`ring, this`head, this`tail, this`inGlobal, ring
      ensures Valid() && (ring == old(ring) || fresh(ring))
      ensures Contents() == old(Contents()) + [m]
      ensures inGlobal && enqueue == !old(inGlobal)
      ensures release == old(release) && threshold == old(threshold) && overload == old(overload)
    {
      ghost var n := Length(head, tail, ring.Length);
      ghost var before := ring[..];
      WrapOnce(head + n, ring.Length);
      RingPush(before, head, n, tail, m);
      ring[tail] := m;
      assert ring[..] == before[tail := m];
      tail := tail + 1;
      if tail >= ring.Length {
        tail := 0;
      }
      if head == tail {
        assert n + 1 == ring.Length;
        Expand();
      } else {
        assert Length(head, tail, ring.Length) == n + 1;
      }
      enqueue := !inGlobal;
      inGlobal := true;
    }

    /** The threshold doubles until it covers the length; passing it leaves a report in `overload`. */
    method NoteOverload(length: nat)
      requires Valid()
      modifies this`overload, this`threshold
      ensures Valid() && Covers(old(threshold), threshold, length)
      ensures overload == if length > old(threshold) then length else old(overload)
    {
      ghost var limit := threshold;
      ghost var k := 0;
      while length > threshold
        invariant MQ_OVERLOAD <= limit <= threshold && threshold == limit * TwoTo(k) && (k > 0 ==> threshold < 2 * length)
        invariant if threshold > limit then length > limit && overload == length else overload == old(overload)
        decreases length - threshold
      {
        overload := length;
        threshold := threshold * 2;
        k := k + 1;
      }
    }

    /** skynet_mq_pop: the oldest message, or None and the queue gives up its place. */
    method Pop() returns (empty: bool, m: Message)
      requires Valid()
      modifies this`head, this`inGlobal, this`overload, this`threshold
      ensures Valid() && empty == (old(Contents()) == [])
      ensures empty ==> Contents() == [] && !inGlobal && threshold == 1024 && overload == old(overload)
      ensures !empty ==> [m] + Contents() == old(Contents()) && inGlobal == old(inGlobal)
      ensures !empty ==> Covers(old(threshold), threshold, |Contents()|)
      ensures !empty ==> overload == (if |Contents()| > old(threshold) then |Contents()| else old(overload))
    {
      m := ring[0];
      empty := head == tail;
      if !empty {
        ghost var n := Length(head, tail, ring.Length);
        ghost var all := Ring(ring[..], head, n);
        RingPop(ring[..], head, n);
        WrapOnce(head + 1, ring.Length);
        m := ring[head];
        head := head + 1;
        if head >= ring.Length {
          head := 0;
        }
        var length: int := tail - head;
        if length < 0 {
          length := length + ring.Length;
        }
        assert length == n - 1 == Length(head, tail, ring.Length);
        assert all == [all[0]] + all[1..];
        assert Contents() == all[1..];
        NoteOverload(length);
      } else {
        threshold := MQ_OVERLOAD;
      }
      if empty {
        inGlobal := false;
      }
    }

    /** skynet_mq_mark_release; `enqueue` as in Push. */
    method MarkRelease() returns (enqueue: bool)
      requires Valid() && !release
      modifies this`release
      ensures Valid() && release && enqueue == !inGlobal
    {
      release := true;
      enqueue := !inGlobal;
    }
  }

  // ----- the global queue

  /** The link field of a message_queue, as the global queue uses it. */
  class Link {
    const handle: Handle
    var next: Link?

    constructor (handle: Handle)
      ensures this.handle == handle && next == null
    {
      this.handle := handle;
      next := null;
    }
  }

  /** struct global_queue. */
  class GlobalQueue {
    var head: Link?
    var tail: Link?
    ghost var links: seq<Link>

    ghost predicate Valid()
      reads this, links
    {
      && (forall i, j :: 0 <= i < j < |links| ==> links[i] != links[j])
      && (forall i :: 0 <= i < |links| - 1 ==> links[i].next == links[i + 1])
      && (links == [] ==> head == null && tail == null)
      && (links != [] ==> head == links[0] && tail == links[|links| - 1] && links[|links| - 1].next == null)
    }

    constructor ()
      ensures Valid() && links == []
    {
      head, tail := null, null;
      links := [];
    }

    /** skynet_globalmq_push of a queue that is not in the list. */
    method Push(q: Link)
      requires Valid() && q !in links && q.next == null
      modifies this, links
      ensures Valid() && links == old(links) + [q]
    {
      if tail != null {
        tail.next := q;
        tail := q;
      } else {
        head := q;
        tail := q;
      }
      links := links + [q];
    }

    /** skynet_globalmq_pop. */
    method Pop() returns (q: Link?)
      requires Valid()
      modifies this, links
      ensures Valid()
      ensures old(links) == [] ==> q == null && links == []
      ensures old(links) != [] ==> q != null && [q] + links == old(links) && q.next == null && q !in links
    {
      q := head;
      if q != null {
        ghost var rest := links[1..];
        assert links == [q] + rest;
        assert |links| > 1 ==> links[0].next == links[1];
        head := q.next;
        if head == null {
          assert |links| == 1;
          tail := null;
        }
        q.next := null;
        links := rest;
      }
    }
  }
}
