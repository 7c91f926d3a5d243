/**
 Length-prefixed packages in a byte stream, as skynet/lualib-src/lua-netpack.c cuts them out: what the whole
 stream holds, and what arrives when it comes in pieces, mixed with other streams.
 */
module PackageStream {
  import opened Basics

  /** read_size: two bytes, most significant first. */
  function ReadSize(high: Byte, low: Byte): (n: nat)
    ensures n < 0x1_0000
  {
    high * 256 + low
  }

  lemma ReadSizeParts(high: Byte, low: Byte)
    ensures ReadSize(high, low) / 256 == high && ReadSize(high, low) % 256 == low
  {
  }

  predicate HasPackage(s: Bytes) { |s| >= 2 && |s| - 2 >= ReadSize(s[0], s[1]) }

  function First(s: Bytes): Bytes
    requires HasPackage(s)
  {
    s[2..2 + ReadSize(s[0], s[1])]
  }

  function After(s: Bytes): Bytes
    requires HasPackage(s)
  {
    s[2 + ReadSize(s[0], s[1])..]
  }

  /** The complete packages at the front of a stream ... */
  function Packages(s: Bytes): seq<Bytes>
    decreases |s|
  {
    if HasPackage(s) then [First(s)] + Packages(After(s)) else []
  }

  /** ... and the incomplete one at its end. */
  function Rest(s: Bytes): Bytes
    decreases |s|
  {
    if HasPackage(s) then Rest(After(s)) else s
  }

  lemma MoreStaysPackage(a: Bytes, b: Bytes)
    requires HasPackage(a)
    ensures HasPackage(a + b) && First(a + b) == First(a) && After(a + b) == After(a) + b
  {
  }

  /** A stream may be cut anywhere: the rest of the first part goes on with the second. */
  lemma {:induction false} CutAnywhere(a: Bytes, b: Bytes)
    ensures Packages(a + b) == Packages(a) + Packages(Rest(a) + b)
    ensures Rest(a + b) == Rest(Rest(a) + b)
    decreases |a|
  {
    if HasPackage(a) {
      MoreStaysPackage(a, b);
      CutAnywhere(After(a), b);
      assert [First(a)] + (Packages(After(a)) + Packages(Rest(After(a)) + b))
          == [First(a)] + Packages(After(a)) + Packages(Rest(After(a)) + b);
    }
  }

  lemma {:induction false} RestIsIncomplete(s: Bytes)
    ensures !HasPackage(Rest(s)) && Packages(Rest(s)) == [] && Rest(Rest(s)) == Rest(s)
    decreases |s|
  {
    if HasPackage(s) { RestIsIncomplete(After(s)); }
  }

  /** One package, written with its header: what a sender produces. */
  function Framed(p: Bytes): Bytes
    requires |p| < 0x1_0000
  {
    [(|p| / 256) as Byte, (|p| % 256) as Byte] + p
  }

  predicate AllShort(ps: seq<Bytes>) { forall i :: 0 <= i < |ps| ==> |ps[i]| < 0x1_0000 }

  function Wire(ps: seq<Bytes>): Bytes
    requires AllShort(ps)
  {
    if ps == [] then [] else Framed(ps[0]) + Wire(ps[1..])
  }

  /** Writing packages and cutting the stream up again gives them back, with nothing left. */
  lemma {:induction false} RoundTrip(ps: seq<Bytes>)
    requires AllShort(ps)
    ensures Packages(Wire(ps)) == ps && Rest(Wire(ps)) == []
  {
    if ps != [] {
      RoundTrip(ps[1..]);
      var w := Wire(ps);
      assert w[0] as nat == |ps[0]| / 256 && w[1] as nat == |ps[0]| % 256;
      assert w == Framed(ps[0]) + Wire(ps[1..]);
      assert First(w) == ps[0] && After(w) == Wire(ps[1..]);
    }
  }

  // ----- many streams

  /** What the socket layer reports: data for an id, or its end. */
  datatype Event = Data(fd: int, chunk: Bytes) | Close(fd: int)

  datatype Package = Package(fd: int, bytes: Bytes)

  function Tagged(fd: int, ps: seq<Bytes>): seq<Package> {
    if ps == [] then [] else [Package(fd, ps[0])] + Tagged(fd, ps[1..])
  }

  function Held(pending: map<int, Bytes>, fd: int): Bytes {
    if fd in pending then pending[fd] else []
  }

  /** The incomplete packages after an event ... */
  function Keeps(pending: map<int, Bytes>, e: Event): map<int, Bytes> {
    match e
    case Data(fd, chunk) => pending[fd := Rest(Held(pending, fd) + chunk)]
    case Close(fd) => pending[fd := []]
  }

  /** ... and the packages it completes. */
  function Completes(pending: map<int, Bytes>, e: Event): seq<Package> {
    match e
    case Data(fd, chunk) => Tagged(fd, Packages(Held(pending, fd) + chunk))
    case Close(_) => []
  }

  function AllKept(es: seq<Event>): map<int, Bytes> {
    if es == [] then map[] else Keeps(AllKept(es[..|es| - 1]), es[|es| - 1])
  }

  function AllCompleted(es: seq<Event>): seq<Package> {
    if es == [] then []
    else AllCompleted(es[..|es| - 1]) + Completes(AllKept(es[..|es| - 1]), es[|es| - 1])
  }

  /** The packages of one id, in order. */
  function Of(ps: seq<Package>, fd: int): seq<Bytes> {
    if ps == [] then []
    else Of(ps[..|ps| - 1], fd) + if ps[|ps| - 1].fd == fd then [ps[|ps| - 1].bytes] else []
  }

  /** The bytes an id has sent since it was last closed. */
  function Stream(es: seq<Event>, fd: int): Bytes {
    if es == [] then []
    else
      var e := es[|es| - 1];
      if e.fd != fd then Stream(es[..|es| - 1], fd)
      else if e.Data? then Stream(es[..|es| - 1], fd) + e.chunk
      else []
  }

  /** The packages of the connections an id has already closed. */
  function Earlier(es: seq<Event>, fd: int): seq<Bytes> {
    if es == [] then []
    else
      var before := Earlier(es[..|es| - 1], fd);
      if es[|es| - 1] == Close(fd) then before + Packages(Stream(es[..|es| - 1], fd)) else before
  }

  lemma {:induction false} OfAppend(a: seq<Package>, b: seq<Package>, fd: int)
    ensures Of(a + b, fd) == Of(a, fd) + Of(b, fd)
  {
    if b == [] {
      assert a + b == a;
    } else {
      var n := |b| - 1;
      OfAppend(a, b[..n], fd);
      assert (a + b)[..|a + b| - 1] == a + b[..n];
    }
  }

  lemma {:induction false} OfTagged(ps: seq<Bytes>, id: int, fd: int)
    ensures Of(Tagged(id, ps), fd) == if id == fd then ps else []
  {
    if ps != [] {
      OfTagged(ps[1..], id, fd);
      OfAppend([Package(id, ps[0])], Tagged(id, ps[1..]), fd);
      assert Of([Package(id, ps[0])], fd) == if id == fd then [ps[0]] else [] by {
        assert [Package(id, ps[0])][..0] == [];
      }
    }
  }

  /** More data for an id. */
  lemma DataExtends(done: seq<Bytes>, s: Bytes, chunk: Bytes)
    ensures done + Packages(s) + Packages(Rest(s) + chunk) == done + Packages(s + chunk)
    ensures Rest(Rest(s) + chunk) == Rest(s + chunk)
  {
    CutAnywhere(s, chunk);
    assert done + Packages(s) + Packages(Rest(s) + chunk) == done + (Packages(s) + Packages(Rest(s) + chunk));
  }

  lemma CompletesOf(pending: map<int, Bytes>, e: Event, fd: int)
    ensures Of(Completes(pending, e), fd) ==
            if e.Data? && e.fd == fd then Packages(Held(pending, fd) + e.chunk) else []
  {
    if e.Data? { OfTagged(Packages(Held(pending, e.fd) + e.chunk), e.fd, fd); }
  }

  /**
   Whatever way the streams are cut into chunks and mixed, every id gets exactly the packages of its own
   stream, in order, and what is kept for it is the incomplete end of that stream.
   */
  lemma {:induction false} CutsDoNotMatter(es: seq<Event>, fd: int)
    ensures Of(AllCompleted(es), fd) == Earlier(es, fd) + Packages(Stream(es, fd))
    ensures Held(AllKept(es), fd) == Rest(Stream(es, fd))
  {
    if es != [] {
      var n := |es| - 1;
      var before, e := es[..n], es[n];
      var kept, s, done := AllKept(before), Stream(before, fd), Earlier(before, fd);
      CutsDoNotMatter(before, fd);
      OfAppend(AllCompleted(before), Completes(kept, e), fd);
      CompletesOf(kept, e, fd);
      assert Of(AllCompleted(es), fd) == done + Packages(s) + Of(Completes(kept, e), fd);
      assert AllKept(es) == Keeps(kept, e);
      if e.fd == fd && e.Data? {
        DataExtends(done, s, e.chunk);
      }
    }
  }
}
