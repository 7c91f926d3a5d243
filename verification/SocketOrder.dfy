/**
 How each step of the TCP write path changes the wire and the waiting packages, and that every such
 change keeps the framing and the call order of WriteStream.
 */
module SocketOrder {
  import opened Basics
  import opened WriteStream
  import opened SocketServer
  import opened SocketInvariant

  // ----- worker steps

  ghost predicate Held(s: State) { LockInv(s) && ListInv(s) && WorkerInv(s) && CountInv(s) }

  /** Steps other than the direct write and the post leave the waiting packages and the wire alone. */
  lemma QuietWorker(s: State, a: Action)
    requires Held(s) && WorkerEnabled(s, a) && !a.DirectWrite? && !a.Post?
    ensures WorkerApply(s, a).wire == s.wire && Waiting(WorkerApply(s, a)) == Waiting(s)
  {
    var t := WorkerApply(s, a);
    if a.CallClose? {
      PipeAppend(s.pipe, CloseRequest(a.shutdown));
      assert Requested(t) == Requested(s) && Kept(t) == Kept(s);
    } else {
      assert HoldsLock(s.Of(a.w)) <==> s.lock == HeldByWorker(a.w);
      assert WorkerKnows(s, a.w);
      assert Requested(t) == Requested(s);
      if s.lock.HeldByWorker? && s.lock.w != a.w { OtherWorkers(s, a, s.lock.w); }
      if a.Park? {
        assert Kept(s) + ParkedBuffers(s.parked) == Kept(t) + ParkedBuffers(t.parked);
      } else {
        assert Kept(t) == Kept(s);
      }
    }
  }

  lemma DirectWriteWaiting(s: State, a: Action)
    requires Held(s) && WorkerEnabled(s, a) && a.DirectWrite?
    ensures var p := s.Of(a.w).pkg;
            && Kept(s) == [] && s.parked.None?
            && WorkerApply(s, a).wire == s.wire + Chunk(Buffer(p, 0), a.n)
            && Waiting(WorkerApply(s, a)) == (if a.n < |p.data| then [Buffer(p, a.n)] else []) + Waiting(s)
  {
    var t := WorkerApply(s, a);
    var p := s.Of(a.w).pkg;
    assert HoldsLock(s.Of(a.w)) <==> s.lock == HeldByWorker(a.w);
    assert WorkerKnows(s, a.w);
    assert Requested(t) == Requested(s);
    assert Kept(t) == if a.n < |p.data| then [Buffer(p, a.n)] else [];
    assert Front(s) == [] && Front(t) == Kept(t);
    if a.n < |p.data| { CatCons(Buffer(p, a.n), s.high, s.low, Requested(s)); }
  }

  lemma PostWaiting(s: State, a: Action)
    requires Held(s) && WorkerEnabled(s, a) && a.Post?
    ensures WorkerApply(s, a).wire == s.wire
    ensures Waiting(WorkerApply(s, a)) == Waiting(s) + [Buffer(s.Of(a.w).pkg, 0)]
  {
    var t := WorkerApply(s, a);
    PipeAppend(s.pipe, SendRequest(s.Of(a.w).pkg));
    assert HoldsLock(s.Of(a.w)) <==> s.lock == HeldByWorker(a.w);
    if s.lock.HeldByWorker? { OtherWorkers(s, a, s.lock.w); }
    assert Kept(t) == Kept(s);
  }

  // ----- socket thread steps

  predicate Ready(s: State) {
    PcInv(s) && LowInv(s) && (ServerHoldsLock(s.server) <==> s.lock.HeldByServer?)
  }

  lemma CatAppend(f: seq<Buffer>, h: seq<Buffer>, l: seq<Buffer>, b: Buffer, r: seq<Buffer>)
    ensures Cat(f, h, l, [b] + r) == f + h + l + [b] + r == Cat(f, h, l + [b], r)
    ensures Cat(f, h + [b], l, r) == f + h + [b] + l + r
    ensures h == [] && l == [] ==> Cat(f, [b], l, r) == f + h + l + [b] + r
  {
  }

  lemma CatHead(h: seq<Buffer>, l: seq<Buffer>, r: seq<Buffer>)
    ensures h != [] ==> Cat([], h, l, r) == [h[0]] + Cat([], h[1..], l, r)
    ensures l != [] ==> Cat([], [], l, r) == [l[0]] + Cat([], [], l[1..], r)
  {
    if h != [] {
      assert h == [h[0]] + h[1..];
      assert h + l + r == [h[0]] + (h[1..] + l + r);
    }
    if l != [] {
      assert l == [l[0]] + l[1..];
      assert l + r == [l[0]] + (l[1..] + r);
    }
    assert [] + h == h && [] + [] + l == l && [] + h[if h == [] then 0 else 1..] == h[if h == [] then 0 else 1..];
  }

  lemma CatCons(b: Buffer, h: seq<Buffer>, l: seq<Buffer>, r: seq<Buffer>)
    ensures Cat([], [b] + h, l, r) == [b] + Cat([], h, l, r) == Cat([b], h, l, r)
    ensures Cat([], [], [b] + l, r) == [b] + Cat([], [], l, r) == Cat([], [b], l, r)
  {
    assert [] + ([b] + h) + l + r == [b] + (h + l + r);
    assert [b] + h + l + r == [b] + (h + l + r);
    assert [] + h + l + r == h + l + r;
    assert [] + [] + ([b] + l) + r == [b] + (l + r);
    assert [] + [b] + l + r == [b] + (l + r);
    assert [] + [] + l + r == l + r;
  }

  /** Steps that neither add to a list nor take from one. */
  predicate Quiet(a: Action) {
    !a.Append? && !a.TakeParked? && !a.FlushHigh? && !a.FlushLow? && !a.Raise? && !a.FreeHigh? && !a.FreeLow? && !a.CloseFd?
  }

  lemma QuietServer(s: State, a: Action)
    requires Ready(s) && ServerEnabled(s, a) && Quiet(a)
    ensures ServerApply(s, a).wire == s.wire && Waiting(ServerApply(s, a)) == Waiting(s)
  {
    var t := ServerApply(s, a);
    ServerFrame(s, a);
    assert t.high == s.high && t.low == s.low && t.parked == s.parked && t.wire == s.wire;
    if a.PopRequest? {
      assert Requested(t) == PipeBuffers(s.pipe) == Requested(s);
    } else {
      assert t.pipe == s.pipe && Hand(t.server) == Hand(s.server) == [];
    }
    assert Kept(t) == Kept(s);
  }

  lemma ListMoves(s: State, a: Action)
    requires Ready(s) && ServerEnabled(s, a) && (a.TakeParked? || a.Raise?)
    ensures ServerApply(s, a).wire == s.wire && Waiting(ServerApply(s, a)) == Waiting(s)
  {
    var t := ServerApply(s, a);
    assert Kept(t) == Kept(s) == [] && Requested(t) == Requested(s);
    if a.TakeParked? {
      if s.parked.Some? {
        CatCons(s.parked.value, s.high, s.low, Requested(s));
        assert Front(s) == [s.parked.value];
      }
    } else {
      assert Front(s) == [] || s.parked.Some?;
      assert s.low == [s.low[0]] + s.low[1..];
      CatCons(s.low[0], s.high, s.low[1..], Requested(s));
    }
  }

  datatype AppendCase = Overtakes | InPlace | Dropped

  function CaseOfAppend(s: State, p: Package): AppendCase {
    if !s.kind.Connected? then Dropped
    else if (s.high == [] && s.low == []) || p.priority.Low? then InPlace
    else Overtakes
  }

  lemma AppendWaiting(s: State)
    requires s.server.Appending?
    ensures var t := ServerApply(s, Append);
            var b := Buffer(s.server.pkg, 0);
            var rest := PipeBuffers(s.pipe);
            && t.wire == s.wire
            && Waiting(s) == Front(s) + s.high + s.low + [b] + rest
            && match CaseOfAppend(s, s.server.pkg)
               case Overtakes => Waiting(t) == Front(s) + s.high + [b] + s.low + rest
               case InPlace => Waiting(t) == Waiting(s)
               case Dropped => Waiting(t) == Front(s) + s.high + s.low + rest
  {
    var t := ServerApply(s, Append);
    var b := Buffer(s.server.pkg, 0);
    var rest := PipeBuffers(s.pipe);
    assert Kept(t) == Kept(s);
    assert Front(t) == Front(s);
    assert Requested(s) == [b] + rest;
    assert Requested(t) == rest;
    CatAppend(Front(s), s.high, s.low, b, rest);
  }

  /** The list head a flush step writes from is the first waiting package. */
  lemma FlushWaiting(s: State, a: Action)
    requires Ready(s) && ServerEnabled(s, a)
    requires (a.FlushHigh? && s.high != []) || (a.FlushLow? && s.low != [])
    ensures var t := ServerApply(s, a);
            var b := if a.FlushHigh? then s.high[0] else s.low[0];
            && Waiting(s) != [] && Waiting(s)[0] == b && Waiting(s) == [b] + Waiting(s)[1..]
            && if !a.r.Wrote? then t.wire == s.wire && Waiting(t) == Waiting(s)
               else && t.wire == s.wire + Chunk(b, a.r.n)
                    && Waiting(t) == (if a.r.n == b.Rest() then [] else [Written(b, a.r.n)]) + Waiting(s)[1..]
  {
    var t := ServerApply(s, a);
    var b := if a.FlushHigh? then s.high[0] else s.low[0];
    assert Kept(s) == [] == Kept(t) && ParkedBuffers(s.parked) == [] == ParkedBuffers(t.parked);
    assert Front(s) == [] == Front(t);
    assert Requested(t) == Requested(s);
    CatHead(s.high, s.low, Requested(s));
    if a.r.Wrote? {
      if a.FlushHigh? {
        CatCons(Written(b, a.r.n), s.high[1..], s.low, Requested(s));
      } else {
        CatCons(Written(b, a.r.n), [], s.low[1..], Requested(s));
      }
    }
  }

  lemma CatDrop(x: seq<Buffer>, y: seq<Buffer>, h: seq<Buffer>, l: seq<Buffer>, r: seq<Buffer>)
    ensures Cat(x + y, h, l, r) == x + y + (h + l + r) && Cat(x + [], h, l, r) == x + (h + l + r)
    ensures Cat(x, h, l, r) == x + h + (l + r) && Cat(x, [], l, r) == x + (l + r)
    ensures Cat(x, h, [], r) == (x + h) + r
  {
  }

  datatype Cut = Cut(before: seq<Buffer>, gone: seq<Buffer>, after: seq<Buffer>)

  /** force_close drops one stretch of the waiting packages per step. */
  function CutOf(s: State, a: Action): Cut {
    if a.FreeHigh? then Cut(Front(s), s.high, s.low + Requested(s))
    else if a.FreeLow? then Cut(Front(s) + s.high, s.low, Requested(s))
    else Cut(Kept(s), ParkedBuffers(s.parked), s.high + s.low + Requested(s))
  }

  lemma DiscardWaiting(s: State, a: Action)
    requires ServerEnabled(s, a) && (a.FreeHigh? || a.FreeLow? || a.CloseFd?)
    ensures var t := ServerApply(s, a);
            var c := CutOf(s, a);
            t.wire == s.wire && Waiting(s) == c.before + c.gone + c.after && Waiting(t) == c.before + c.after
  {
    var t := ServerApply(s, a);
    assert Kept(t) == Kept(s) && Requested(t) == Requested(s);
    if a.CloseFd? {
      CatDrop(Kept(s), ParkedBuffers(s.parked), s.high, s.low, Requested(s));
      assert Front(t) == Kept(s) + [];
    } else {
      CatDrop(Front(s), [], s.high, s.low, Requested(s));
      assert Front(t) == Front(s);
    }
  }

  // ----- order is kept

  ghost predicate NewestInv(s: State) {
    forall w :: NewestOf(s, w)
  }

  /** Nothing of the thread waits when its direct write passes both checks. */
  lemma NothingOfMineWaits(s: State, w: nat)
    requires Held(s) && s.Of(w).Writing?
    ensures forall i :: 0 <= i < |Waiting(s)| ==> !SameClass(Waiting(s)[i].pkg, s.Of(w).pkg)
    ensures Waiting(s) != [] ==> Waiting(s)[0].off == 0
  {
    assert WorkerKnows(s, w);
    assert HoldsLock(s.Of(w)) <==> s.lock == HeldByWorker(w);
    assert Front(s) == [];
    assert Waiting(s) == s.high + s.low + Requested(s);
    PipeFresh(s.pipe);
    forall i | 0 <= i < |Waiting(s)| ensures !SameClass(Waiting(s)[i].pkg, s.Of(w).pkg) {
      if i < |s.high| {
        assert Waiting(s)[i] == s.high[i];
      } else if i < |s.high| + |s.low| {
        assert Waiting(s)[i] == s.low[i - |s.high|];
      } else {
        assert Waiting(s)[i] == Requested(s)[i - |s.high| - |s.low|];
      }
    }
  }

  lemma OrderKeptByWorker(s: State, a: Action)
    requires Held(s) && OrderInv(s.wire, Waiting(s)) && NewestInv(s) && WorkerEnabled(s, a)
    ensures OrderInv(WorkerApply(s, a).wire, Waiting(WorkerApply(s, a)))
  {
    if a.DirectWrite? {
      var p := s.Of(a.w).pkg;
      assert NewestOf(s, a.w);
      NothingOfMineWaits(s, a.w);
      PushFrontOrder(s.wire, Waiting(s), p);
      FlushOrders(s.wire, Buffer(p, 0), Waiting(s), a.n);
      DirectWriteWaiting(s, a);
      assert [] + Waiting(s) == Waiting(s);
    } else if a.Post? {
      PostWaiting(s, a);
      assert NewestOf(s, a.w);
      PushBackOrder(s.wire, Waiting(s), s.Of(a.w).pkg);
    } else {
      QuietWorker(s, a);
    }
  }

  lemma OrderKeptByServer(s: State, a: Action)
    requires Ready(s) && OrderInv(s.wire, Waiting(s)) && ServerEnabled(s, a)
    ensures OrderInv(ServerApply(s, a).wire, Waiting(ServerApply(s, a)))
  {
    match a {
      case Append => AppendOrders(s);
      case FlushHigh(r) => if s.high != [] { FlushStepOrders(s, a); } else { ListDone(s, a); }
      case FlushLow(r) => if s.low != [] { FlushStepOrders(s, a); } else { ListDone(s, a); }
      case TakeParked => ListMoves(s, a);
      case Raise => ListMoves(s, a);
      case FreeHigh => DiscardOrders(s, a);
      case FreeLow => DiscardOrders(s, a);
      case CloseFd => DiscardOrders(s, a);
      case _ => QuietServer(s, a);
    }
  }

  lemma AppendOrders(s: State)
    requires s.server.Appending? && LowInv(s) && OrderInv(s.wire, Waiting(s))
    ensures OrderInv(s.wire, Waiting(ServerApply(s, Append)))
  {
    AppendWaiting(s);
    var b := Buffer(s.server.pkg, 0);
    match CaseOfAppend(s, s.server.pkg) {
      case Overtakes => OvertakeOrder(s.wire, Front(s) + s.high, s.low, b, PipeBuffers(s.pipe));
      case InPlace =>
      case Dropped => DropOrder(s.wire, Front(s) + s.high + s.low, [b], PipeBuffers(s.pipe));
    }
  }

  lemma FlushStepOrders(s: State, a: Action)
    requires Ready(s) && OrderInv(s.wire, Waiting(s)) && ServerEnabled(s, a)
    requires (a.FlushHigh? && s.high != []) || (a.FlushLow? && s.low != [])
    ensures OrderInv(ServerApply(s, a).wire, Waiting(ServerApply(s, a)))
  {
    FlushWaiting(s, a);
    if a.r.Wrote? {
      WrittenOrders(s.wire, if a.FlushHigh? then s.high[0] else s.low[0], Waiting(s)[1..], a.r.n);
    }
  }

  lemma WrittenOrders(w: seq<WireByte>, b: Buffer, rest: seq<Buffer>, n: nat)
    requires OrderInv(w, [b] + rest)
    ensures OrderInv(w + Chunk(b, n), (if n == b.Rest() then [] else [Written(b, n)]) + rest)
  {
    FlushOrders(w, b, rest, n);
    if n == b.Rest() {
      assert [] + rest == rest;
    }
  }

  lemma ListDone(s: State, a: Action)
    requires ServerEnabled(s, a) && ((a.FlushHigh? && s.high == []) || (a.FlushLow? && s.low == []))
    ensures ServerApply(s, a).wire == s.wire && Waiting(ServerApply(s, a)) == Waiting(s)
  {
    var t := ServerApply(s, a);
    assert Kept(t) == Kept(s) && Requested(t) == Requested(s);
  }

  lemma DiscardOrders(s: State, a: Action)
    requires OrderInv(s.wire, Waiting(s)) && ServerEnabled(s, a) && (a.FreeHigh? || a.FreeLow? || a.CloseFd?)
    ensures OrderInv(ServerApply(s, a).wire, Waiting(ServerApply(s, a)))
  {
    DiscardWaiting(s, a);
    var c := CutOf(s, a);
    DropOrder(s.wire, c.before, c.gone, c.after);
  }

  // ----- packages come only from calls

  /** Every package on the wire or waiting. */
  function Present(s: State): set<Package> {
    (set i | 0 <= i < |s.wire| :: s.wire[i].pkg) + (set i | 0 <= i < |Waiting(s)| :: Waiting(s)[i].pkg)
  }

  lemma PresentSubset(s: State, t: State, extra: set<Package>)
    requires forall i :: 0 <= i < |t.wire| ==> t.wire[i].pkg in Present(s) + extra
    requires forall i :: 0 <= i < |Waiting(t)| ==> Waiting(t)[i].pkg in Present(s) + extra
    ensures Present(t) <= Present(s) + extra
  {
  }

  lemma PresentWorker(s: State, a: Action)
    requires Held(s) && WorkerEnabled(s, a)
    ensures a.DirectWrite? || a.Post? ==> Present(WorkerApply(s, a)) <= Present(s) + {s.Of(a.w).pkg}
    ensures !a.DirectWrite? && !a.Post? ==> Present(WorkerApply(s, a)) == Present(s)
  {
    var t := WorkerApply(s, a);
    if a.DirectWrite? {
      DirectWriteWaiting(s, a);
      PresentSubset(s, t, {s.Of(a.w).pkg});
    } else if a.Post? {
      PostWaiting(s, a);
      PresentSubset(s, t, {s.Of(a.w).pkg});
    } else {
      QuietWorker(s, a);
    }
  }

  lemma MembersStay(q: seq<Buffer>, r: seq<Buffer>, x: seq<Buffer>, y: seq<Buffer>, z: seq<Buffer>)
    requires q == x + y + z && r == x + z
    ensures forall b :: b in r ==> b in q
  {
    forall b | b in r ensures b in q {
      if b !in x { assert b in z; }
    }
  }

  lemma PresentIn(s: State, b: Buffer)
    requires b in Waiting(s)
    ensures b.pkg in Present(s)
  {
    var i :| 0 <= i < |Waiting(s)| && Waiting(s)[i] == b;
    assert Waiting(s)[i].pkg in (set i | 0 <= i < |Waiting(s)| :: Waiting(s)[i].pkg);
  }

  /** A step that writes nothing and invents no waiting buffer invents no package. */
  lemma PresentShrinks(s: State, t: State)
    requires t.wire == s.wire && forall b :: b in Waiting(t) ==> b in Waiting(s)
    ensures Present(t) <= Present(s)
  {
    forall i | 0 <= i < |Waiting(t)| ensures Waiting(t)[i].pkg in Present(s) {
      PresentIn(s, Waiting(t)[i]);
    }
    PresentSubset(s, t, {});
  }

  lemma PresentFlush(s: State, a: Action)
    requires Ready(s) && ServerEnabled(s, a)
    requires (a.FlushHigh? && s.high != []) || (a.FlushLow? && s.low != [])
    ensures Present(ServerApply(s, a)) <= Present(s)
  {
    var t := ServerApply(s, a);
    FlushWaiting(s, a);
    PresentIn(s, Waiting(s)[0]);
    forall i | 0 <= i < |Waiting(t)| ensures Waiting(t)[i].pkg in Present(s) {
      if i > 0 || Waiting(t)[i].pkg != Waiting(s)[0].pkg {
        PresentIn(s, Waiting(t)[i]);
      }
    }
    PresentSubset(s, t, {});
  }

  lemma AppendMembers(s: State, b: Buffer)
    requires s.server.Appending? && b in Waiting(ServerApply(s, Append))
    ensures b in Waiting(s)
  {
    AppendWaiting(s);
  }

  lemma PresentServer(s: State, a: Action)
    requires Ready(s) && ServerEnabled(s, a)
    ensures Present(ServerApply(s, a)) <= Present(s)
  {
    var t := ServerApply(s, a);
    match a {
      case Append =>
        AppendWaiting(s);
        forall b | b in Waiting(t) ensures b in Waiting(s) { AppendMembers(s, b); }
        PresentShrinks(s, t);
      case FlushHigh(r) => if s.high != [] { PresentFlush(s, a); } else { ListDone(s, a); }
      case FlushLow(r) => if s.low != [] { PresentFlush(s, a); } else { ListDone(s, a); }
      case TakeParked => ListMoves(s, a);
      case Raise => ListMoves(s, a);
      case FreeHigh => PresentDiscard(s, a);
      case FreeLow => PresentDiscard(s, a);
      case CloseFd => PresentDiscard(s, a);
      case _ => QuietServer(s, a);
    }
  }

  lemma PresentDiscard(s: State, a: Action)
    requires ServerEnabled(s, a) && (a.FreeHigh? || a.FreeLow? || a.CloseFd?)
    ensures Present(ServerApply(s, a)) <= Present(s)
  {
    var t, c := ServerApply(s, a), CutOf(s, a);
    DiscardWaiting(s, a);
    MembersStay(Waiting(s), Waiting(t), c.before, c.gone, c.after);
    PresentShrinks(s, t);
  }

  predicate Logged(log: seq<Package>, p: Package) {
    p.seqno < |log| && log[p.seqno] == p
  }

  predicate LogInv(s: State) {
    forall p :: p in Present(s) ==> Logged(s.log, p)
  }

  lemma LogKeptByWorker(s: State, a: Action)
    requires Held(s) && LogInv(s) && WorkerEnabled(s, a)
    ensures LogInv(WorkerApply(s, a))
  {
    PresentWorker(s, a);
    LogGrows(s, a);
    if a.DirectWrite? || a.Post? { assert WorkerKnows(s, a.w); }
  }

  lemma LogGrows(s: State, a: Action)
    requires WorkerEnabled(s, a)
    ensures s.log <= WorkerApply(s, a).log
  {
  }

  lemma LogKept(s: State, a: Action)
    requires Held(s) && LogInv(s) && Enabled(s, a)
    ensures LogInv(Apply(s, a))
  {
    if WorkerEnabled(s, a) {
      LogKeptByWorker(s, a);
    } else {
      PresentServer(s, a);
      ServerFrame(s, a);
    }
  }

  lemma NewestMeans(s: State, p: Package)
    ensures Newest(s.wire, Waiting(s), p) <==> forall r :: r in Present(s) && SameClass(r, p) ==> r.seqno < p.seqno
  {
    if forall r :: r in Present(s) && SameClass(r, p) ==> r.seqno < p.seqno {
      forall i | 0 <= i < |s.wire| && SameClass(s.wire[i].pkg, p) ensures s.wire[i].pkg.seqno < p.seqno {
        assert s.wire[i].pkg in Present(s);
      }
      forall i | 0 <= i < |Waiting(s)| && SameClass(Waiting(s)[i].pkg, p) ensures Waiting(s)[i].pkg.seqno < p.seqno {
        assert Waiting(s)[i].pkg in Present(s);
      }
    }
  }

  predicate NewestOf(s: State, w: nat) {
    HasPackage(s.Of(w)) && !s.Of(w).Parking? ==> Newest(s.wire, Waiting(s), s.Of(w).pkg)
  }

  /** Newness of one package survives a step that brings in nothing of its class. */
  lemma NewestStays(s: State, t: State, p: Package, extra: set<Package>)
    requires Newest(s.wire, Waiting(s), p) && Present(t) <= Present(s) + extra
    requires forall r :: r in extra ==> !SameClass(r, p)
    ensures Newest(t.wire, Waiting(t), p)
  {
    NewestMeans(s, p);
    NewestMeans(t, p);
  }

  /** The package of a worker after its own step is the one it had, or the newest call. */
  lemma OwnPackage(s: State, a: Action)
    requires WorkerEnabled(s, a) && !a.CallClose? && HasPackage(WorkerApply(s, a).Of(a.w)) && !WorkerApply(s, a).Of(a.w).Parking?
    ensures !a.DirectWrite? && !a.Post?
    ensures a.CallSend? ==> WorkerApply(s, a).Of(a.w).pkg.seqno == |s.log|
    ensures !a.CallSend? ==> HasPackage(s.Of(a.w)) && !s.Of(a.w).Parking? && WorkerApply(s, a).Of(a.w).pkg == s.Of(a.w).pkg
  {
  }

  lemma NewestByWorker(s: State, a: Action, w: nat)
    requires Held(s) && LogInv(s) && NewestInv(s) && WorkerEnabled(s, a)
    ensures NewestOf(WorkerApply(s, a), w)
  {
    var t := WorkerApply(s, a);
    if HasPackage(t.Of(w)) && !t.Of(w).Parking? {
      var p := t.Of(w).pkg;
      PresentWorker(s, a);
      if a.CallClose? {
        assert NewestOf(s, w);
        NewestStays(s, t, p, {});
      } else if w != a.w {
        OtherWorkers(s, a, w);
        assert WorkerKnows(s, a.w) && WorkerKnows(s, w) && NewestOf(s, w);
        NewestStays(s, t, p, if a.DirectWrite? || a.Post? then {s.Of(a.w).pkg} else {});
      } else {
        OwnPackage(s, a);
        if a.CallSend? {
          NewestMeans(t, p);
        } else {
          assert NewestOf(s, w);
          NewestStays(s, t, p, {});
        }
      }
    }
  }

  lemma NewestByServer(s: State, a: Action, w: nat)
    requires Ready(s) && NewestInv(s) && ServerEnabled(s, a)
    ensures NewestOf(ServerApply(s, a), w)
  {
    var t := ServerApply(s, a);
    ServerFrame(s, a);
    assert t.Of(w) == s.Of(w) && NewestOf(s, w);
    if HasPackage(t.Of(w)) && !t.Of(w).Parking? {
      PresentServer(s, a);
      NewestStays(s, t, t.Of(w).pkg, {});
    }
  }

  lemma NewestKept(s: State, a: Action)
    requires Held(s) && LogInv(s) && NewestInv(s) && Enabled(s, a)
    ensures NewestInv(Apply(s, a))
  {
    forall w ensures NewestOf(Apply(s, a), w) {
      if WorkerEnabled(s, a) { NewestByWorker(s, a, w); } else { NewestByServer(s, a, w); }
    }
  }

  // ----- framing is kept until force_close discards the lists

  predicate FrameAll(s: State) {
    !Discarding(s) ==> FrameInv(s.wire, Waiting(s))
  }

  /** A direct write by a thread for which nothing partly sent waits. */
  lemma DirectFrames(w: seq<WireByte>, q: seq<Buffer>, p: Package, n: nat)
    requires FrameInv(w, q) && n <= |p.data| && (q == [] || q[0].off == 0)
    ensures FrameInv(w + Chunk(Buffer(p, 0), n), (if n < |p.data| then [Buffer(p, n)] else []) + q)
  {
    var b := Buffer(p, 0);
    forall i | 0 < i < |[b] + q| ensures ([b] + q)[i].off == 0 {
      assert ([b] + q)[i] == q[i - 1];
    }
    assert Resumes(w, b);
    FlushFrames(w, b, q, n);
    assert [] + q == q;
  }

  lemma FrameKeptByWorker(s: State, a: Action)
    requires Held(s) && FrameAll(s) && WorkerEnabled(s, a)
    ensures FrameAll(WorkerApply(s, a))
  {
    SameDiscarding(s, a);
    if !Discarding(s) {
      if a.DirectWrite? {
        NothingOfMineWaits(s, a.w);
        DirectWriteWaiting(s, a);
        DirectFrames(s.wire, Waiting(s), s.Of(a.w).pkg, a.n);
      } else if a.Post? {
        PostWaiting(s, a);
        PostFrames(s.wire, Waiting(s), s.Of(a.w).pkg);
      } else {
        QuietWorker(s, a);
      }
    }
  }

  lemma SameDiscarding(s: State, a: Action)
    requires WorkerEnabled(s, a)
    ensures Discarding(WorkerApply(s, a)) == Discarding(s)
  {
  }

  lemma PostFrames(w: seq<WireByte>, q: seq<Buffer>, p: Package)
    requires FrameInv(w, q)
    ensures FrameInv(w, q + [Buffer(p, 0)])
  {
  }

  lemma FrameAppend(s: State)
    requires LowInv(s) && s.server.Appending? && FrameInv(s.wire, Waiting(s))
    ensures FrameInv(s.wire, Waiting(ServerApply(s, Append)))
  {
    AppendWaiting(s);
    var b := Buffer(s.server.pkg, 0);
    match CaseOfAppend(s, s.server.pkg) {
      case Overtakes => OvertakeFrames(s.wire, Front(s) + s.high, s.low, b, PipeBuffers(s.pipe));
      case InPlace =>
      case Dropped => SkipFrames(s.wire, Front(s) + s.high + s.low, b, PipeBuffers(s.pipe));
    }
  }

  lemma OvertakeFrames(w: seq<WireByte>, a: seq<Buffer>, low: seq<Buffer>, b: Buffer, rest: seq<Buffer>)
    requires FrameInv(w, a + low + [b] + rest) && b.off == 0
    requires forall i :: 0 <= i < |low| ==> low[i].off == 0
    ensures FrameInv(w, a + [b] + low + rest)
  {
    var q, r := a + low + [b] + rest, a + [b] + low + rest;
    forall i | 0 < i < |r| ensures r[i].off == 0 {
      if i < |a| || i > |a| + |low| {
        assert r[i] == q[i];
      } else if i > |a| {
        assert r[i] == low[i - |a| - 1];
      }
    }
    if a == [] {
      assert r[0] == b && q[0] == (if low == [] then b else low[0]);
    } else {
      assert r[0] == q[0] == a[0];
    }
  }

  lemma SkipFrames(w: seq<WireByte>, a: seq<Buffer>, b: Buffer, rest: seq<Buffer>)
    requires FrameInv(w, a + [b] + rest) && b.off == 0
    ensures FrameInv(w, a + rest)
  {
    var q, r := a + [b] + rest, a + rest;
    forall i | 0 <= i < |r| && (i > 0 || a == []) ensures r[i].off == 0 {
      if i < |a| { assert r[i] == q[i]; } else { assert r[i] == q[i + 1]; }
    }
    if a == [] {
      assert q[0] == b;
    } else {
      assert r[0] == q[0] == a[0];
    }
  }

  lemma FrameFlush(s: State, a: Action)
    requires Ready(s) && FrameInv(s.wire, Waiting(s)) && ServerEnabled(s, a)
    requires (a.FlushHigh? && s.high != []) || (a.FlushLow? && s.low != [])
    ensures FrameInv(ServerApply(s, a).wire, Waiting(ServerApply(s, a)))
  {
    FlushWaiting(s, a);
    if a.r.Wrote? {
      FlushFrames(s.wire, Waiting(s)[0], Waiting(s)[1..], a.r.n);
      assert [] + Waiting(s)[1..] == Waiting(s)[1..];
    }
  }

  /** Once force_close has begun to discard, the socket stays discarded. */
  lemma StaysDiscarded(s: State, a: Action)
    requires PcInv(s) && ServerEnabled(s, a) && Discarding(s)
    ensures Discarding(ServerApply(s, a))
  {
  }

  lemma FrameKeptByServer(s: State, a: Action)
    requires Ready(s) && FrameAll(s) && ServerEnabled(s, a)
    ensures FrameAll(ServerApply(s, a))
  {
    if Discarding(s) {
      StaysDiscarded(s, a);
    } else {
      match a {
        case Append => FrameAppend(s);
        case FlushHigh(r) => if s.high != [] { FrameFlush(s, a); } else { ListDone(s, a); }
        case FlushLow(r) => if s.low != [] { FrameFlush(s, a); } else { ListDone(s, a); }
        case TakeParked => ListMoves(s, a);
        case Raise => ListMoves(s, a);
        case FreeHigh =>
        case FreeLow =>
        case CloseFd =>
        case _ => QuietServer(s, a);
      }
    }
  }
}
