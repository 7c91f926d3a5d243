/**
 What every step of the TCP write path keeps: lock ownership, the shape of the two lists, and what
 a worker has learned from the reads it has made so far.
 */
module SocketInvariant {
  import opened Basics
  import opened WriteStream
  import opened SocketServer

  // ----- everything that still waits to reach the fd, in flush order

  /** The rest of a direct write between the write and the parking. */
  function Kept(s: State): seq<Buffer> {
    if s.lock.HeldByWorker? && s.Of(s.lock.w).Parking?
    then [Buffer(s.Of(s.lock.w).pkg, s.Of(s.lock.w).sent)] else []
  }

  function ParkedBuffers(o: Option<Buffer>): seq<Buffer> {
    match o case None => [] case Some(b) => [b]
  }

  function Hand(pc: Server): seq<Buffer> {
    if pc.Appending? then [Buffer(pc.pkg, 0)] else []
  }

  function PipeBuffers(pipe: seq<Request>): seq<Buffer> {
    if pipe == [] then []
    else (match pipe[0] case SendRequest(p) => [Buffer(p, 0)] case CloseRequest(_) => []) + PipeBuffers(pipe[1..])
  }

  /** Packages not yet handed to a list. */
  function Requested(s: State): seq<Buffer> { Hand(s.server) + PipeBuffers(s.pipe) }

  /** What waits before the lists. */
  function Front(s: State): seq<Buffer> { Kept(s) + ParkedBuffers(s.parked) }

  function Cat(front: seq<Buffer>, high: seq<Buffer>, low: seq<Buffer>, rest: seq<Buffer>): seq<Buffer> {
    front + high + low + rest
  }

  function Waiting(s: State): seq<Buffer> { Cat(Front(s), s.high, s.low, Requested(s)) }

  lemma {:induction false} PipeAppend(pipe: seq<Request>, r: Request)
    ensures PipeBuffers(pipe + [r]) == PipeBuffers(pipe) + (if r.SendRequest? then [Buffer(r.pkg, 0)] else [])
  {
    if pipe == [] {
      assert pipe + [r] == [r];
    } else {
      PipeAppend(pipe[1..], r);
      assert (pipe + [r])[1..] == pipe[1..] + [r];
    }
  }

  lemma {:induction false} PipeFresh(pipe: seq<Request>)
    ensures forall i :: 0 <= i < |PipeBuffers(pipe)| ==> PipeBuffers(pipe)[i].off == 0
  {
    if pipe != [] {
      PipeFresh(pipe[1..]);
    }
  }

  // ----- who holds dw_lock

  predicate HoldsLock(pc: Worker) {
    (pc.Checking? && pc.locked) || pc.Writing? || pc.Parking? || pc.Watching? || pc.Releasing? || pc.Retreating?
  }

  predicate ServerHoldsLock(pc: Server) {
    match pc
    case TakingParked(_) => true
    case FlushingHigh(_) => true
    case FlushingLow(_) => true
    case Raising(_) => true
    case Finishing(_) => true
    case Unlocking(_) => true
    case FreeingHigh(l) => l
    case FreeingLow(l) => l
    case CloseLocking(l) => l
    case ClosingFd => true
    case _ => false
  }

  ghost predicate LockInv(s: State) {
    && (forall w :: HoldsLock(s.Of(w)) <==> s.lock == HeldByWorker(w))
    && (ServerHoldsLock(s.server) <==> s.lock.HeldByServer?)
  }

  // ----- the lists

  /** force_close has begun to free the lists, or is over. */
  predicate Discarding(s: State) {
    s.server.FreeingLow? || s.server.CloseLocking? || s.server.ClosingFd? || s.kind.Invalid?
  }

  predicate FlushPc(pc: Server) {
    pc.FlushingHigh? || pc.FlushingLow? || pc.Raising? || pc.Finishing?
  }

  /** Only the flush of the low list may leave a partly sent low head, and it raises it at once. */
  predicate LowInv(s: State) {
    && (forall i :: 0 <= i < |s.low| ==> s.low[i].pkg.priority.Low?)
    && (forall i :: 0 <= i < |s.low| && (i == 0 ==> !s.server.Raising?) ==> s.low[i].off == 0)
    && (s.parked.Some? ==> s.parked.value.pkg.priority.High?)
  }

  predicate PcInv(s: State) {
    && (s.server.Raising? ==> s.high == [] && s.low != [])
    && (FlushPc(s.server) ==> s.parked.None?)
    && (s.server.FlushingLow? ==> s.high == [])
    && (s.server.Finishing? ==> s.high == [] && s.low == [])
    && (s.kind.Invalid? ==>
        && s.high == [] && s.low == [] && s.parked.None?
        && (s.server.Polling? || s.server.Appending? || s.server.Acking? || s.server == Unlocking(ToPoll)))
    && (s.server.CloseLocking? || s.server.ClosingFd? ==> s.high == [] && s.low == [])
    && (s.server.FreeingLow? ==> s.high == [])
  }

  predicate ListInv(s: State) { LowInv(s) && PcInv(s) }

  // ----- what a worker knows

  predicate HasPackage(pc: Worker) {
    !pc.Idle? && !pc.Watching? && !pc.Releasing?
  }

  /** The worker has read a zero `sending` count in its first check: nothing of it is in the pipe. */
  predicate SawNoRequests(pc: Worker) {
    (pc.Checking? && (pc.locked || pc.next == TypeField)) || pc.Locking? || pc.Writing?
  }

  /** The worker has read an empty high list while holding the lock. */
  predicate SawNoHigh(pc: Worker) {
    (pc.Checking? && pc.locked && pc.next != HighHead) || pc.Writing?
  }

  /** The worker has read a null dw_buffer while holding the lock. */
  predicate SawNoParked(pc: Worker) {
    (pc.Checking? && pc.locked && pc.next in {SendingCount, TypeField}) || pc.Writing? || pc.Parking?
  }

  predicate NoneOf(q: seq<Buffer>, w: nat) {
    forall i :: 0 <= i < |q| ==> q[i].pkg.owner != w
  }

  predicate WorkerKnows(s: State, w: nat) {
    var pc := s.Of(w);
    && (HasPackage(pc) ==> pc.pkg.owner == w && pc.pkg.seqno < |s.log| && s.log[pc.pkg.seqno] == pc.pkg)
    && (pc.Checking? || pc.Locking? || pc.Writing? || pc.Parking? || pc.Retreating? ==> pc.pkg.priority.High?)
    && (SawNoRequests(pc) ==> NoneOf(Requested(s), w))
    && (SawNoHigh(pc) ==> NoneOf(s.high, w) && (s.high == [] || s.high[0].off == 0))
    && (SawNoParked(pc) ==> s.parked.None?)
    && (pc.Parking? ==> pc.sent < |pc.pkg.data|)
    && (pc.Writing? || pc.Parking? || pc.Watching? ==> !s.kind.Invalid?)
  }

  ghost predicate WorkerInv(s: State) {
    forall w :: WorkerKnows(s, w)
  }

  // ----- the low 16 bits of `sending`

  function PostingSet(workers: map<nat, Worker>): set<nat> {
    set w | w in workers && workers[w].Posting?
  }

  function InFlight(s: State): nat {
    |PostingSet(s.workers)| + |PipeBuffers(s.pipe)| + (if s.server.Appending? || s.server.Acking? then 1 else 0)
  }

  predicate CountInv(s: State) {
    s.sending / COUNT_BASE == s.tag && s.sending % COUNT_BASE == InFlight(s)
  }

  // ----- wb_size and write interest

  function Unsent(q: seq<Buffer>): int {
    if q == [] then 0 else q[0].Rest() + Unsent(q[1..])
  }

  lemma {:induction false} UnsentConcat(a: seq<Buffer>, b: seq<Buffer>)
    ensures Unsent(a + b) == Unsent(a) + Unsent(b)
  {
    if a == [] {
      assert a + b == b;
    } else {
      UnsentConcat(a[1..], b);
      assert (a + b)[1..] == a[1..] + b;
    }
  }

  predicate SizeInv(s: State) {
    !Discarding(s) ==> s.wbSize == Unsent(s.high) + Unsent(s.low)
  }

  predicate InterestInv(s: State) {
    !Discarding(s) ==>
      && (s.high != [] || s.low != [] ==> s.interest)
      && (s.parked.Some? ==> s.interest || (s.lock.HeldByWorker? && s.Of(s.lock.w).Watching?))
  }

  // ----- steps of the socket thread never touch the workers, and one worker steps at a time

  lemma ServerFrame(s: State, a: Action)
    requires ServerEnabled(s, a)
    ensures ServerApply(s, a).workers == s.workers && ServerApply(s, a).log == s.log && ServerApply(s, a).tag == s.tag
  {
  }

  lemma OtherWorkers(s: State, a: Action, w: nat)
    requires WorkerEnabled(s, a) && !a.CallClose? && w != a.w
    ensures WorkerApply(s, a).Of(w) == s.Of(w)
  {
  }

  // ----- preservation: lock

  lemma LockKeptByWorker(s: State, a: Action)
    requires LockInv(s) && WorkerEnabled(s, a)
    ensures LockInv(WorkerApply(s, a))
  {
    var t := WorkerApply(s, a);
    forall w ensures HoldsLock(t.Of(w)) <==> t.lock == HeldByWorker(w) {
      if !a.CallClose? && w != a.w {
        OtherWorkers(s, a, w);
        assert HoldsLock(s.Of(w)) <==> s.lock == HeldByWorker(w);
        assert HoldsLock(s.Of(a.w)) <==> s.lock == HeldByWorker(a.w);
      } else if a.CallClose? {
        assert t.Of(w) == s.Of(w);
      } else {
        assert HoldsLock(s.Of(w)) <==> s.lock == HeldByWorker(w);
      }
    }
    if !a.CallClose? {
      assert HoldsLock(s.Of(a.w)) <==> s.lock == HeldByWorker(a.w);
    }
  }

  lemma LockKeptByServer(s: State, a: Action)
    requires LockInv(s) && ServerEnabled(s, a)
    ensures LockInv(ServerApply(s, a))
  {
    var t := ServerApply(s, a);
    ServerFrame(s, a);
    forall w ensures HoldsLock(t.Of(w)) <==> t.lock == HeldByWorker(w) {
      assert t.Of(w) == s.Of(w);
      assert HoldsLock(s.Of(w)) <==> s.lock == HeldByWorker(w);
    }
  }

  // ----- preservation: lists

  lemma ListKeptByWorker(s: State, a: Action)
    requires LockInv(s) && ListInv(s) && WorkerInv(s) && WorkerEnabled(s, a)
    ensures ListInv(WorkerApply(s, a))
  {
    if a.Park? {
      assert WorkerKnows(s, a.w);
      assert HoldsLock(s.Of(a.w)) <==> s.lock == HeldByWorker(a.w);
    }
  }

  lemma LowKeptByServer(s: State, a: Action)
    requires LowInv(s) && PcInv(s) && ServerEnabled(s, a)
    ensures LowInv(ServerApply(s, a))
  {
    var t := ServerApply(s, a);
    if a.Append? || a.FlushLow? || a.Raise? || a.FreeLow? {
    } else {
      assert t.low == s.low && (t.parked == s.parked || t.parked.None?) && !t.server.Raising? && !s.server.Raising?;
    }
  }

  lemma PcKeptByServer(s: State, a: Action)
    requires PcInv(s) && ServerEnabled(s, a)
    ensures PcInv(ServerApply(s, a))
  {
  }

  lemma ListKeptByServer(s: State, a: Action)
    requires ListInv(s) && ServerEnabled(s, a)
    ensures ListInv(ServerApply(s, a))
  {
    LowKeptByServer(s, a);
    PcKeptByServer(s, a);
  }

  // ----- preservation: what workers know

  lemma NoneOfConcat(a: seq<Buffer>, b: seq<Buffer>, w: nat)
    ensures NoneOf(a + b, w) <==> NoneOf(a, w) && NoneOf(b, w)
  {
    if NoneOf(a + b, w) {
      forall i | 0 <= i < |a| ensures a[i].pkg.owner != w { assert (a + b)[i] == a[i]; }
      forall i | 0 <= i < |b| ensures b[i].pkg.owner != w { assert (a + b)[|a| + i] == b[i]; }
    }
  }

  /** A request of thread `w` is only ever added by `w` itself. */
  lemma RequestsOfOthers(s: State, a: Action, w: nat)
    requires WorkerEnabled(s, a) && (a.Post? ==> a.w != w) && WorkerInv(s)
    requires NoneOf(Requested(s), w)
    ensures NoneOf(Requested(WorkerApply(s, a)), w)
  {
    if a.Post? {
      PipeAppend(s.pipe, SendRequest(s.Of(a.w).pkg));
      assert WorkerKnows(s, a.w);
      NoneOfConcat(Requested(s), [Buffer(s.Of(a.w).pkg, 0)], w);
      assert Requested(WorkerApply(s, a)) == Requested(s) + [Buffer(s.Of(a.w).pkg, 0)];
    } else if a.CallClose? {
      PipeAppend(s.pipe, CloseRequest(a.shutdown));
      assert Requested(WorkerApply(s, a)) == Requested(s);
    }
  }

  lemma EmptyRequests(s: State, w: nat)
    requires CountInv(s) && s.sending % COUNT_BASE == 0
    ensures NoneOf(Requested(s), w)
  {
    assert PipeBuffers(s.pipe) == [];
  }

  lemma KnowledgeKeptByWorker(s: State, a: Action, w: nat)
    requires LockInv(s) && WorkerInv(s) && CountInv(s) && WorkerEnabled(s, a)
    ensures WorkerKnows(WorkerApply(s, a), w)
  {
    assert WorkerKnows(s, w);
    assert HoldsLock(s.Of(w)) <==> s.lock == HeldByWorker(w);
    if a.CallClose? {
      if SawNoRequests(s.Of(w)) { RequestsOfOthers(s, a, w); }
    } else if a.w != w {
      OtherWorkers(s, a, w);
      assert HoldsLock(s.Of(a.w)) <==> s.lock == HeldByWorker(a.w);
      if SawNoRequests(s.Of(w)) { RequestsOfOthers(s, a, w); }
    } else {
      OwnStep(s, a);
    }
  }

  lemma OwnStep(s: State, a: Action)
    requires WorkerInv(s) && CountInv(s) && WorkerEnabled(s, a) && !a.CallClose?
    ensures WorkerKnows(WorkerApply(s, a), a.w)
  {
    assert WorkerKnows(s, a.w);
    var t := WorkerApply(s, a);
    if a.ReadField? && s.Of(a.w).next == SendingCount && Passes(s, SendingCount) {
      EmptyRequests(s, a.w);
    }
    if SawNoRequests(t.Of(a.w)) {
      assert Requested(t) == Requested(s);
    }
  }

  /** The socket thread moves requests on, never back. */
  lemma RequestsMoveOn(s: State, a: Action, w: nat)
    requires ServerEnabled(s, a) && NoneOf(Requested(s), w)
    ensures NoneOf(Requested(ServerApply(s, a)), w)
  {
    var t := ServerApply(s, a);
    NoneOfConcat(Hand(s.server), PipeBuffers(s.pipe), w);
    if a.PopRequest? {
      assert Requested(t) == PipeBuffers(s.pipe);
    } else {
      assert Hand(t.server) == [] && t.pipe == s.pipe;
      assert Requested(t) == PipeBuffers(s.pipe);
    }
  }

  lemma KnowledgeKeptByServer(s: State, a: Action, w: nat)
    requires LockInv(s) && WorkerInv(s) && ListInv(s) && ServerEnabled(s, a)
    ensures WorkerKnows(ServerApply(s, a), w)
  {
    ServerFrame(s, a);
    var t := ServerApply(s, a);
    assert WorkerKnows(s, w) && t.Of(w) == s.Of(w);
    assert HoldsLock(s.Of(w)) <==> s.lock == HeldByWorker(w);
    if SawNoRequests(s.Of(w)) {
      RequestsMoveOn(s, a, w);
      if a.Append? && SawNoHigh(s.Of(w)) {
        NoneOfConcat(Hand(s.server), PipeBuffers(s.pipe), w);
        assert Hand(s.server)[0].pkg.owner != w;
        NoneOfConcat(s.high, Hand(s.server), w);
      }
    }
  }

  // ----- preservation: sending

  lemma PostingStep(workers: map<nat, Worker>, w: nat, pc: Worker)
    ensures w in workers && workers[w].Posting? && !pc.Posting? ==>
              |PostingSet(workers[w := pc])| == |PostingSet(workers)| - 1
    ensures !(w in workers && workers[w].Posting?) && pc.Posting? ==>
              |PostingSet(workers[w := pc])| == |PostingSet(workers)| + 1
    ensures (w in workers && workers[w].Posting?) == pc.Posting? ==>
              PostingSet(workers[w := pc]) == PostingSet(workers)
  {
    var before, after := PostingSet(workers), PostingSet(workers[w := pc]);
    if pc.Posting? {
      assert after == before + {w};
    } else {
      assert after == before - {w};
    }
  }

  lemma CountKeptByWorker(s: State, a: Action)
    requires CountInv(s) && WorkerEnabled(s, a)
    ensures CountInv(WorkerApply(s, a))
  {
    var t := WorkerApply(s, a);
    if a.CallClose? {
      PipeAppend(s.pipe, CloseRequest(a.shutdown));
      assert PipeBuffers(t.pipe) == PipeBuffers(s.pipe);
    } else {
      PostingStep(s.workers, a.w, t.Of(a.w));
      if a.Post? {
        PipeAppend(s.pipe, SendRequest(s.Of(a.w).pkg));
      }
    }
  }

  /** In every state with a correct count, dec_sending_ref finds a count it may take one from. */
  lemma CountKeptByServer(s: State, a: Action)
    requires CountInv(s) && ServerEnabled(s, a)
    ensures CountInv(ServerApply(s, a))
  {
  }

  // ----- preservation: wb_size and interest

  lemma UnsentOne(b: Buffer, rest: seq<Buffer>)
    ensures Unsent([b] + rest) == b.Rest() + Unsent(rest)
  {
    assert ([b] + rest)[1..] == rest;
  }

  /** Taking `n` bytes off the head of a list takes `n` off its unsent bytes, whether or not it leaves. */
  lemma UnsentWrite(q: seq<Buffer>, n: nat)
    requires q != []
    ensures Unsent([Written(q[0], n)] + q[1..]) == Unsent(q) - n
    ensures n == q[0].Rest() ==> Unsent(q[1..]) == Unsent(q) - n
  {
    UnsentOne(Written(q[0], n), q[1..]);
  }

  lemma SizeAppend(s: State)
    requires SizeInv(s) && s.server.Appending?
    ensures SizeInv(ServerApply(s, Append))
  {
    var b := Buffer(s.server.pkg, 0);
    UnsentOne(b, []);
    assert [b] + [] == [b];
    UnsentConcat(s.high, [b]);
    UnsentConcat(s.low, [b]);
  }

  lemma SizeTake(s: State)
    requires SizeInv(s) && s.server.TakingParked?
    ensures SizeInv(ServerApply(s, TakeParked))
  {
    if s.parked.Some? { UnsentOne(s.parked.value, s.high); }
  }

  lemma SizeFlushHigh(s: State, r: WriteResult)
    requires SizeInv(s) && ServerEnabled(s, FlushHigh(r))
    ensures SizeInv(ServerApply(s, FlushHigh(r)))
  {
    if r.Wrote? && s.high != [] { UnsentWrite(s.high, r.n); }
  }

  lemma SizeFlushLow(s: State, r: WriteResult)
    requires SizeInv(s) && ServerEnabled(s, FlushLow(r))
    ensures SizeInv(ServerApply(s, FlushLow(r)))
  {
    if r.Wrote? && s.low != [] { UnsentWrite(s.low, r.n); }
  }

  lemma SizeRaise(s: State)
    requires SizeInv(s) && s.server.Raising? && s.high == [] && s.low != []
    ensures SizeInv(ServerApply(s, Raise))
  {
    UnsentOne(s.low[0], []);
    assert [s.low[0]] + [] == [s.low[0]];
  }

  lemma SizeElse(s: State, a: Action)
    requires SizeInv(s) && PcInv(s) && ServerEnabled(s, a)
    requires !a.Append? && !a.TakeParked? && !a.FlushHigh? && !a.FlushLow? && !a.Raise?
    ensures SizeInv(ServerApply(s, a))
  {
    var t := ServerApply(s, a);
    assert !Discarding(t) ==> !Discarding(s) && t.high == s.high && t.low == s.low && t.wbSize == s.wbSize;
  }

  lemma SizeKeptByServer(s: State, a: Action)
    requires SizeInv(s) && PcInv(s) && ServerEnabled(s, a)
    ensures SizeInv(ServerApply(s, a))
  {
    match a {
      case Append => SizeAppend(s);
      case TakeParked => SizeTake(s);
      case FlushHigh(r) => SizeFlushHigh(s, r);
      case FlushLow(r) => SizeFlushLow(s, r);
      case Raise => SizeRaise(s);
      case _ => SizeElse(s, a);
    }
  }

  lemma InterestKeptByWorker(s: State, a: Action)
    requires InterestInv(s) && LockInv(s) && WorkerEnabled(s, a)
    ensures InterestInv(WorkerApply(s, a))
  {
    if !a.CallClose? {
      assert HoldsLock(s.Of(a.w)) <==> s.lock == HeldByWorker(a.w);
      if s.lock.HeldByWorker? && s.lock.w != a.w {
        OtherWorkers(s, a, s.lock.w);
      }
    }
  }

  lemma InterestKeptByServer(s: State, a: Action)
    requires InterestInv(s) && LockInv(s) && ListInv(s) && ServerEnabled(s, a)
    ensures InterestInv(ServerApply(s, a))
  {
    ServerFrame(s, a);
  }
}
