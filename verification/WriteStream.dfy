/**
 What the bytes on one TCP fd, and the packages still waiting to reach it, must look like
 (skynet/skynet-src/socket_server.c).

 A byte on the wire remembers the package it came from and its offset there, so "no package is
 split by another" and "packages of one thread keep their call order" are properties of the wire
 itself.  The waiting packages of all places (parked direct write, high list, low list, request
 being handled, pipe) are seen as one sequence, in the order in which they would be flushed.
 */
module WriteStream {

  datatype Priority = High | Low

  /** A buffer handed to socket_server_send by thread `owner` as its `seqno`-th call. */
  datatype Package = Package(owner: nat, seqno: nat, priority: Priority, data: seq<bv8>)

  /** One byte written to the fd: byte `off` of `pkg`. */
  datatype WireByte = WireByte(pkg: Package, off: nat)

  /** struct write_buffer: `off` bytes of the package are already written (ptr - buffer). */
  datatype Buffer = Buffer(pkg: Package, off: nat) {
    function Rest(): int { |pkg.data| - off }
  }

  /** The `n` bytes of `b` that a write starting at its current position puts on the wire. */
  function Chunk(b: Buffer, n: nat): (w: seq<WireByte>)
    ensures |w| == n
  {
    seq(n, i requires 0 <= i => WireByte(b.pkg, b.off + i))
  }

  // ----- framing

  /** The wire ends between two packages. */
  predicate Complete(w: seq<WireByte>) {
    w == [] || w[|w| - 1].off + 1 == |w[|w| - 1].pkg.data|
  }

  /** Byte `i` continues the package of byte `i - 1`, or starts a package where another one ended. */
  predicate JoinsAt(w: seq<WireByte>, i: nat)
    requires i < |w|
  {
    if w[i].off == 0 then Complete(w[..i])
    else i > 0 && w[i - 1] == WireByte(w[i].pkg, w[i].off - 1)
  }

  /** The wire is whole packages end to end; only the last one may be a proper prefix. */
  predicate Framed(w: seq<WireByte>) {
    forall i :: 0 <= i < |w| ==> w[i].off < |w[i].pkg.data| && JoinsAt(w, i)
  }

  /** The wire stops exactly where buffer `b` will continue it. */
  predicate Resumes(w: seq<WireByte>, b: Buffer) {
    if b.off == 0 then Complete(w)
    else w != [] && w[|w| - 1] == WireByte(b.pkg, b.off - 1) && b.off < |b.pkg.data|
  }

  /** Only the first waiting buffer may be partly sent, and the wire stops where it continues. */
  predicate FrameInv(w: seq<WireByte>, q: seq<Buffer>) {
    && Framed(w)
    && (forall i :: 0 < i < |q| ==> q[i].off == 0)
    && (if q == [] then Complete(w) else Resumes(w, q[0]))
  }

  // ----- order

  predicate SameClass(p: Package, r: Package) {
    p.owner == r.owner && p.priority == r.priority
  }

  /** `b` was written before anything buffer `q` still has to write. */
  predicate Precedes(b: WireByte, q: Buffer) {
    b.pkg.seqno < q.pkg.seqno || (b.pkg == q.pkg && b.off < q.off)
  }

  predicate Ordered(q: seq<Buffer>) {
    forall i, j :: 0 <= i < j < |q| && SameClass(q[i].pkg, q[j].pkg) ==> q[i].pkg.seqno < q[j].pkg.seqno
  }

  predicate Behind(w: seq<WireByte>, q: seq<Buffer>) {
    forall i, j :: 0 <= i < |w| && 0 <= j < |q| && SameClass(w[i].pkg, q[j].pkg) ==> Precedes(w[i], q[j])
  }

  /** Bytes of one thread and priority appear in call order, each byte at most once. */
  predicate WireOrdered(w: seq<WireByte>) {
    forall i, j :: 0 <= i < j < |w| && SameClass(w[i].pkg, w[j].pkg) ==>
      w[i].pkg.seqno < w[j].pkg.seqno || (w[i].pkg == w[j].pkg && w[i].off < w[j].off)
  }

  predicate OrderInv(w: seq<WireByte>, q: seq<Buffer>) {
    WireOrdered(w) && Ordered(q) && Behind(w, q)
  }

  /** Everything of `p`'s thread and priority on the wire or waiting was sent by an earlier call. */
  predicate Newest(w: seq<WireByte>, q: seq<Buffer>, p: Package) {
    && (forall i :: 0 <= i < |w| && SameClass(w[i].pkg, p) ==> w[i].pkg.seqno < p.seqno)
    && (forall i :: 0 <= i < |q| && SameClass(q[i].pkg, p) ==> q[i].pkg.seqno < p.seqno)
  }

  // ----- framing lemmas

  /** Appending bytes that join keeps the framing; the prefix is never re-judged. */
  lemma FramedPrefix(w: seq<WireByte>, v: seq<WireByte>)
    requires Framed(w + v)
    ensures Framed(w)
  {
    forall i | 0 <= i < |w| ensures w[i].off < |w[i].pkg.data| && JoinsAt(w, i) {
      assert (w + v)[i] == w[i] && (w + v)[..i] == w[..i];
      assert JoinsAt(w + v, i);
    }
  }

  /** A write of `n` bytes of `b` keeps the wire framed exactly when it starts where the wire stops. */
  lemma ChunkFramed(w: seq<WireByte>, b: Buffer, n: nat)
    requires b.off + n <= |b.pkg.data|
    requires b.off > 0 ==> Resumes(w, b)
    ensures Framed(w + Chunk(b, n)) <==> Framed(w) && (n == 0 || Resumes(w, b))
  {
    var c := Chunk(b, n);
    var v := w + c;
    if Framed(v) {
      FramedPrefix(w, c);
      if n > 0 {
        assert v[|w|] == WireByte(b.pkg, b.off) && v[..|w|] == w;
        assert JoinsAt(v, |w|);
      }
    }
    if Framed(w) && (n == 0 || Resumes(w, b)) {
      forall i | 0 <= i < |v| ensures v[i].off < |v[i].pkg.data| && JoinsAt(v, i) {
        if i < |w| {
          assert v[..i] == w[..i] && JoinsAt(w, i);
        } else if i == |w| {
          assert v[..i] == w;
        } else {
          assert v[i] == c[i - |w|] && v[i - 1] == c[i - 1 - |w|];
        }
      }
    }
  }

  /** Where the wire stops after a write that starts where it stopped. */
  lemma ChunkStops(w: seq<WireByte>, b: Buffer, n: nat)
    requires Resumes(w, b) && b.off + n <= |b.pkg.data|
    ensures b.off + n < |b.pkg.data| ==> Resumes(w + Chunk(b, n), b.(off := b.off + n))
    ensures b.off + n == |b.pkg.data| ==> Complete(w + Chunk(b, n))
  {
    var c := Chunk(b, n);
    if n == 0 {
      assert w + c == w;
    } else {
      assert (w + c)[|w + c| - 1] == c[n - 1];
    }
  }

  /** Flushing `n` bytes of the first waiting buffer (it leaves when all of it is written). */
  lemma FlushFrames(w: seq<WireByte>, b: Buffer, rest: seq<Buffer>, n: nat)
    requires FrameInv(w, [b] + rest) && b.off + n <= |b.pkg.data|
    ensures b.off + n < |b.pkg.data| ==> FrameInv(w + Chunk(b, n), [b.(off := b.off + n)] + rest)
    ensures b.off + n == |b.pkg.data| ==> FrameInv(w + Chunk(b, n), rest)
  {
    assert ([b] + rest)[0] == b;
    ChunkFramed(w, b, n);
    ChunkStops(w, b, n);
    forall i | 0 <= i < |rest| ensures rest[i].off == 0 {
      assert ([b] + rest)[i + 1] == rest[i];
    }
  }

  // ----- order lemmas

  /** Waiting sequences split and join without losing the order. */
  lemma OrderedSplit(a: seq<Buffer>, b: seq<Buffer>)
    ensures Ordered(a + b) <==>
            Ordered(a) && Ordered(b) &&
            forall i, j :: 0 <= i < |a| && 0 <= j < |b| && SameClass(a[i].pkg, b[j].pkg) ==> a[i].pkg.seqno < b[j].pkg.seqno
  {
    var q := a + b;
    if Ordered(q) {
      forall i, j | 0 <= i < j < |a| && SameClass(a[i].pkg, a[j].pkg) ensures a[i].pkg.seqno < a[j].pkg.seqno {
        assert q[i] == a[i] && q[j] == a[j];
      }
      forall i, j | 0 <= i < j < |b| && SameClass(b[i].pkg, b[j].pkg) ensures b[i].pkg.seqno < b[j].pkg.seqno {
        assert q[|a| + i] == b[i] && q[|a| + j] == b[j];
      }
      forall i, j | 0 <= i < |a| && 0 <= j < |b| && SameClass(a[i].pkg, b[j].pkg) ensures a[i].pkg.seqno < b[j].pkg.seqno {
        assert q[i] == a[i] && q[|a| + j] == b[j];
      }
    }
  }

  lemma BehindSplit(w: seq<WireByte>, a: seq<Buffer>, b: seq<Buffer>)
    ensures Behind(w, a + b) <==> Behind(w, a) && Behind(w, b)
  {
    var q := a + b;
    if Behind(w, q) {
      forall i, j | 0 <= i < |w| && 0 <= j < |a| && SameClass(w[i].pkg, a[j].pkg) ensures Precedes(w[i], a[j]) {
        assert q[j] == a[j];
      }
      forall i, j | 0 <= i < |w| && 0 <= j < |b| && SameClass(w[i].pkg, b[j].pkg) ensures Precedes(w[i], b[j]) {
        assert q[|a| + j] == b[j];
      }
    }
  }

  /** Dropping a stretch of waiting buffers keeps the order of the others. */
  lemma DropOrder(w: seq<WireByte>, a: seq<Buffer>, b: seq<Buffer>, c: seq<Buffer>)
    requires OrderInv(w, a + b + c)
    ensures OrderInv(w, a + c)
  {
    OrderedSplit(a + b, c);
    OrderedSplit(a, b);
    OrderedSplit(a, c);
    forall i, j | 0 <= i < |a| && 0 <= j < |c| && SameClass(a[i].pkg, c[j].pkg)
      ensures a[i].pkg.seqno < c[j].pkg.seqno
    {
      assert (a + b)[i] == a[i];
    }
    BehindSplit(w, a + b, c);
    BehindSplit(w, a, b);
    BehindSplit(w, a, c);
  }

  /** A new call queues behind everything. */
  lemma PushBackOrder(w: seq<WireByte>, q: seq<Buffer>, p: Package)
    requires OrderInv(w, q) && Newest(w, q, p)
    ensures OrderInv(w, q + [Buffer(p, 0)])
  {
    OrderedSplit(q, [Buffer(p, 0)]);
    BehindSplit(w, q, [Buffer(p, 0)]);
  }

  /** A direct write may go in front when nothing of its thread and priority waits. */
  lemma PushFrontOrder(w: seq<WireByte>, q: seq<Buffer>, p: Package)
    requires OrderInv(w, q) && Newest(w, q, p)
    requires forall i :: 0 <= i < |q| ==> !SameClass(q[i].pkg, p)
    ensures OrderInv(w, [Buffer(p, 0)] + q)
  {
    OrderedSplit([Buffer(p, 0)], q);
    BehindSplit(w, [Buffer(p, 0)], q);
  }

  /** Appending to the high list passes the low list, which holds only other classes. */
  lemma OvertakeOrder(w: seq<WireByte>, a: seq<Buffer>, low: seq<Buffer>, b: Buffer, rest: seq<Buffer>)
    requires OrderInv(w, a + low + [b] + rest)
    requires forall i :: 0 <= i < |low| ==> !SameClass(low[i].pkg, b.pkg)
    ensures OrderInv(w, a + [b] + low + rest)
  {
    OrderedSplit(a + low + [b], rest);
    OrderedSplit(a + low, [b]);
    OrderedSplit(a, low);
    OrderedSplit(a, [b]);
    OrderedSplit(a + [b], low);
    OrderedSplit(a + [b] + low, rest);
    forall i | 0 <= i < |a| ensures (a + low)[i] == a[i] && (a + low + [b])[i] == a[i] && (a + [b])[i] == a[i] {}
    assert (a + low + [b])[|a + low|] == b;
    forall i | 0 <= i < |low| ensures (a + low + [b])[|a| + i] == low[i] {}
    forall i, j | 0 <= i < |a + [b] + low| && 0 <= j < |rest| && SameClass((a + [b] + low)[i].pkg, rest[j].pkg)
      ensures (a + [b] + low)[i].pkg.seqno < rest[j].pkg.seqno
    {
      if i < |a| {
        assert (a + [b] + low)[i] == (a + low + [b])[i];
      } else if i == |a| {
        assert (a + [b] + low)[i] == (a + low + [b])[|a + low|];
      } else {
        assert (a + [b] + low)[i] == (a + low + [b])[i - 1];
      }
    }
    BehindSplit(w, a + low + [b], rest);
    BehindSplit(w, a + low, [b]);
    BehindSplit(w, a, low);
    BehindSplit(w, a, [b]);
    BehindSplit(w, a + [b], low);
    BehindSplit(w, a + [b] + low, rest);
  }

  /** Flushing `n` bytes of the first waiting buffer keeps every order. */
  lemma FlushOrders(w: seq<WireByte>, b: Buffer, rest: seq<Buffer>, n: nat)
    requires OrderInv(w, [b] + rest)
    ensures OrderInv(w + Chunk(b, n), [b.(off := b.off + n)] + rest)
    ensures OrderInv(w + Chunk(b, n), rest)
  {
    var c := Chunk(b, n);
    var v := w + c;
    var b' := b.(off := b.off + n);
    OrderedSplit([b], rest);
    OrderedSplit([b'], rest);
    BehindSplit(w, [b], rest);
    BehindSplit(v, [b'], rest);
    forall i, j | 0 <= i < j < |v| && SameClass(v[i].pkg, v[j].pkg)
      ensures v[i].pkg.seqno < v[j].pkg.seqno || (v[i].pkg == v[j].pkg && v[i].off < v[j].off)
    {
      if j >= |w| {
        assert v[j] == c[j - |w|];
        if i < |w| {
          assert SameClass(w[i].pkg, [b][0].pkg);
        } else {
          assert v[i] == c[i - |w|];
        }
      }
    }
    forall i, j | 0 <= i < |v| && 0 <= j < |rest| && SameClass(v[i].pkg, rest[j].pkg) ensures Precedes(v[i], rest[j]) {
      if i >= |w| {
        assert v[i] == c[i - |w|] && SameClass([b][0].pkg, rest[j].pkg);
      }
    }
    forall i | 0 <= i < |v| && SameClass(v[i].pkg, b'.pkg) ensures Precedes(v[i], b') {
      if i < |w| {
        assert SameClass(w[i].pkg, [b][0].pkg);
      } else {
        assert v[i] == c[i - |w|];
      }
    }
  }
}
