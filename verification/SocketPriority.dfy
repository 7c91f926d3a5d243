/**
 What the two priorities of the TCP write path mean: a low package that finds something waiting starts only
 when nothing of high priority waits.
 */
module SocketPriority {
  import opened Basics
  import opened WriteStream
  import opened SocketServer
  import opened SocketInvariant
  import opened SocketOrder
  import opened SocketTheorems

  /** send_socket puts the package into one of the lists. */
  predicate Appends(s: State, a: Action) { a.Append? && s.server.Appending? && s.kind.Connected? }

  /** A low package comes while something waits in the lists. */
  predicate Defers(s: State, a: Action) {
    Appends(s, a) && s.server.pkg.priority.Low? && (s.high != [] || s.low != [])
  }

  /** The packages a run has put into the lists ... */
  function Appended(s: State, run: seq<Action>): set<Package>
    requires Runs(s, run)
    decreases |run|
  {
    if run == [] then {}
    else New(s, run[0]) + Appended(Apply(s, run[0]), run[1..])
  }

  /** ... and those of low priority that found something there. */
  function Deferred(s: State, run: seq<Action>): set<Package>
    requires Runs(s, run)
    decreases |run|
  {
    if run == [] then {}
    else NewLow(s, run[0]) + Deferred(Apply(s, run[0]), run[1..])
  }

  predicate NotRequested(s: State, p: Package) {
    forall i :: 0 <= i < |Requested(s)| ==> Requested(s)[i].pkg != p
  }

  /** A package that has been put into the lists does not come again. */
  predicate Past(s: State, p: Package) {
    && Logged(s.log, p) && NotRequested(s, p) && !InHand(s, p)
    && (s.parked.Some? ==> s.parked.value.pkg != p)
  }

  /** A low head that is being raised is partly sent. */
  predicate RaisesPartly(s: State) { s.server.Raising? ==> s.low != [] && s.low[0].off > 0 }

  /** It is not in the high list, unless some of it has been written. */
  predicate KeptLow(s: State, p: Package) {
    p.priority.Low? && forall i :: 0 <= i < |s.high| && s.high[i].pkg == p ==> s.high[i].off > 0
  }

  ghost predicate ListsInv(s: State, appended: set<Package>, deferred: set<Package>) {
    && RaisesPartly(s)
    && (forall p :: p in appended ==> Past(s, p))
    && (forall p :: p in deferred ==> Past(s, p) && KeptLow(s, p))
  }

  // ----- once

  /** The package in the socket thread's hand among those that wait. */
  lemma HandWaits(s: State)
    requires s.server.Appending?
    ensures var k := |Front(s)| + |s.high| + |s.low|;
            && k < |Waiting(s)| && Waiting(s)[k] == Buffer(s.server.pkg, 0)
            && |Waiting(s)| == k + 1 + |PipeBuffers(s.pipe)|
            && forall i :: 0 <= i < |PipeBuffers(s.pipe)| ==> Waiting(s)[k + 1 + i] == PipeBuffers(s.pipe)[i]
  {
    CatPlaces(Front(s), s.high, s.low, Buffer(s.server.pkg, 0), PipeBuffers(s.pipe));
    assert Requested(s) == [Buffer(s.server.pkg, 0)] + PipeBuffers(s.pipe);
  }

  lemma CatPlaces(f: seq<Buffer>, h: seq<Buffer>, l: seq<Buffer>, b: Buffer, rest: seq<Buffer>)
    ensures var q := Cat(f, h, l, [b] + rest);
            var k := |f| + |h| + |l|;
            && |q| == k + 1 + |rest| && q[k] == b
            && forall i :: 0 <= i < |rest| ==> q[k + 1 + i] == rest[i]
  {
  }

  /** Nothing else on its way is that package. */
  lemma NotAgain(s: State)
    requires Ordered(Waiting(s)) && s.server.Appending?
    ensures NotRequested(ServerApply(s, Append), s.server.pkg)
  {
    HandWaits(s);
    assert Requested(ServerApply(s, Append)) == PipeBuffers(s.pipe);
    LaterDiffer(Waiting(s), |Front(s)| + |s.high| + |s.low|, PipeBuffers(s.pipe));
  }

  lemma LaterDiffer(q: seq<Buffer>, k: nat, rest: seq<Buffer>)
    requires Ordered(q) && k < |q| == k + 1 + |rest|
    requires forall i :: 0 <= i < |rest| ==> q[k + 1 + i] == rest[i]
    ensures forall i :: 0 <= i < |rest| ==> rest[i].pkg != q[k].pkg
  {
    forall i | 0 <= i < |rest|
      ensures rest[i].pkg != q[k].pkg
    {
      assert q[k + 1 + i] == rest[i];
    }
  }

  /** What waits before a package is another one. */
  lemma EarlierDiffer(s: State, k: nat)
    requires Ordered(Waiting(s)) && |Front(s)| + |s.high| + |s.low| <= k < |Waiting(s)|
    ensures s.parked.Some? ==> s.parked.value.pkg != Waiting(s)[k].pkg
    ensures forall i :: 0 <= i < |Lists(s)| ==> Lists(s)[i].pkg != Waiting(s)[k].pkg
  {
    var f := Front(s);
    if s.parked.Some? { assert f[|Kept(s)|] == s.parked.value == Waiting(s)[|Kept(s)|]; }
    forall i | 0 <= i < |Lists(s)|
      ensures Lists(s)[i].pkg != Waiting(s)[k].pkg
    {
      assert Waiting(s)[|f| + i] == Lists(s)[i];
    }
  }

  /** Both lists, in the order of a flush. */
  function Lists(s: State): seq<Buffer> { s.high + s.low }

  lemma OnlyOnce(s: State)
    requires LockInv(s) && NewestInv(s) && Ordered(Waiting(s)) && LogInv(s) && s.server.Appending?
    ensures Past(ServerApply(s, Append), s.server.pkg)
  {
    var p := s.server.pkg;
    NotAgain(s);
    HandWaits(s);
    PresentIn(s, Buffer(p, 0));
    assert NewestOf(s, p.owner);
    NotInHand(s, p, |Front(s)| + |s.high| + |s.low|);
    EarlierDiffer(s, |Front(s)| + |s.high| + |s.low|);
    ServerFrame(s, Append);
  }

  /** A worker does not have a package that waits behind others. */
  lemma NotInHand(s: State, p: Package, k: nat)
    requires LockInv(s) && NewestOf(s, p.owner) && Ordered(Waiting(s))
    requires |Kept(s)| <= k < |Waiting(s)| && Waiting(s)[k].pkg == p
    ensures !InHand(s, p)
  {
    var w := p.owner;
    assert HoldsLock(s.Of(w)) <==> s.lock == HeldByWorker(w);
    if InHand(s, p) && s.Of(w).Parking? {
      ParkingWaitsFirst(s, w);
    }
  }

  lemma ParkingWaitsFirst(s: State, w: nat)
    requires s.Of(w).Parking? && s.lock == HeldByWorker(w)
    ensures |Kept(s)| == 1 && Waiting(s) != [] && Waiting(s)[0].pkg == s.Of(w).pkg
  {
  }

  lemma PastByWorker(s: State, a: Action, p: Package)
    requires WorkerEnabled(s, a) && Past(s, p) && (!a.CallClose? ==> WorkerKnows(s, a.w))
    ensures Past(WorkerApply(s, a), p)
  {
    LogGrows(s, a);
    RequestsByWorker(s, a);
    if !a.CallClose? && p.owner != a.w {
      OtherWorkers(s, a, p.owner);
    }
  }

  lemma RequestsByWorker(s: State, a: Action)
    requires WorkerEnabled(s, a)
    ensures Requested(WorkerApply(s, a)) == Requested(s) + if a.Post? then [Buffer(s.Of(a.w).pkg, 0)] else []
  {
    if a.Post? {
      PipeAppend(s.pipe, SendRequest(s.Of(a.w).pkg));
    } else if a.CallClose? {
      PipeAppend(s.pipe, CloseRequest(a.shutdown));
    }
    assert Requested(s) + [] == Requested(s);
  }

  lemma PastByServer(s: State, a: Action, p: Package)
    requires ServerEnabled(s, a) && Past(s, p)
    ensures Past(ServerApply(s, a), p)
  {
    var t := ServerApply(s, a);
    ServerFrame(s, a);
    RequestsByServer(s, a);
    forall i | 0 <= i < |Requested(t)|
      ensures Requested(t)[i].pkg != p
    {
      assert Requested(t)[i] == Requested(s)[if a.Append? then i + 1 else i];
    }
  }

  lemma RequestsByServer(s: State, a: Action)
    requires ServerEnabled(s, a)
    ensures var t := ServerApply(s, a);
            Requested(s) == (if a.Append? then [Buffer(s.server.pkg, 0)] else []) + Requested(t)
  {
    var t := ServerApply(s, a);
    if a.PopRequest? {
      assert PipeBuffers(s.pipe) == Requested(s) == Requested(t);
    } else if a.Append? {
      assert Requested(t) == PipeBuffers(s.pipe);
    } else {
      assert t.pipe == s.pipe && Hand(t.server) == Hand(s.server) == [];
    }
    assert [] + Requested(t) == Requested(t);
  }

  lemma PastKept(s: State, a: Action, p: Package)
    requires WorkerInv(s) && Enabled(s, a) && Past(s, p)
    ensures Past(Apply(s, a), p)
  {
    if WorkerEnabled(s, a) { PastByWorker(s, a, p); } else { PastByServer(s, a, p); }
  }

  // ----- deferred packages stay low

  lemma KeptLowByServer(s: State, a: Action, p: Package)
    requires ServerEnabled(s, a) && KeptLow(s, p) && NotRequested(s, p) && RaisesPartly(s)
    requires s.parked.Some? ==> s.parked.value.pkg.priority.High?
    ensures KeptLow(ServerApply(s, a), p)
  {
    if a.Append? {
      assert Requested(s)[0] == Buffer(s.server.pkg, 0);
    }
  }

  lemma RaisingKept(s: State, a: Action)
    requires Enabled(s, a) && RaisesPartly(s)
    ensures RaisesPartly(Apply(s, a))
  {
    if !WorkerEnabled(s, a) && a.FlushLow? && s.low != [] && a.r.Wrote? {
      assert Written(s.low[0], a.r.n).off == s.low[0].off + a.r.n;
    }
  }

  lemma KeptLowKept(s: State, a: Action, p: Package)
    requires LowInv(s) && Enabled(s, a) && KeptLow(s, p) && Past(s, p) && RaisesPartly(s)
    ensures KeptLow(Apply(s, a), p)
  {
    if WorkerEnabled(s, a) {
      assert WorkerApply(s, a).high == s.high;
    } else {
      KeptLowByServer(s, a, p);
    }
  }

  lemma DeferGoesLow(s: State, a: Action)
    requires Ordered(Waiting(s)) && ServerEnabled(s, a) && Defers(s, a)
    ensures KeptLow(ServerApply(s, a), s.server.pkg)
  {
    var p := s.server.pkg;
    AppendWaiting(s);
    forall i | 0 <= i < |s.high|
      ensures s.high[i].pkg != p
    {
      var f := Front(s);
      assert Waiting(s)[|f| + i] == s.high[i];
      assert Waiting(s)[|f| + |s.high| + |s.low|] == Buffer(p, 0);
    }
  }

  function New(s: State, a: Action): set<Package> { if Appends(s, a) then {s.server.pkg} else {} }

  function NewLow(s: State, a: Action): set<Package> { if Defers(s, a) then {s.server.pkg} else {} }

  lemma ListsKept(s: State, a: Action, appended: set<Package>, deferred: set<Package>)
    requires LockInv(s) && WorkerInv(s) && LowInv(s) && NewestInv(s) && Ordered(Waiting(s)) && LogInv(s)
    requires Enabled(s, a) && ListsInv(s, appended, deferred)
    ensures ListsInv(Apply(s, a), appended + New(s, a), deferred + NewLow(s, a))
  {
    RaisingKept(s, a);
    forall p | p in appended || p in deferred ensures Past(Apply(s, a), p) { PastKept(s, a, p); }
    forall p | p in deferred ensures KeptLow(Apply(s, a), p) { KeptLowKept(s, a, p); }
    if Appends(s, a) { OnlyOnce(s); }
    if Defers(s, a) { DeferGoesLow(s, a); }
  }

  lemma StepLists(s: State, a: Action, appended: set<Package>, deferred: set<Package>)
    requires Inv(s) && Enabled(s, a) && ListsInv(s, appended, deferred)
    ensures Inv(Apply(s, a)) && ListsInv(Apply(s, a), appended + New(s, a), deferred + NewLow(s, a))
  {
    StepKeeps(s, a);
    ListsKept(s, a, appended, deferred);
  }

  lemma Regroup<T>(a: set<T>, b: set<T>, c: set<T>)
    ensures a + b + c == a + (b + c)
  {
  }

  lemma {:induction false} ListsReached(s: State, run: seq<Action>, appended: set<Package>, deferred: set<Package>)
    requires Inv(s) && Runs(s, run) && ListsInv(s, appended, deferred)
    ensures Inv(Final(s, run)) && ListsInv(Final(s, run), appended + Appended(s, run), deferred + Deferred(s, run))
    decreases |run|
  {
    if run == [] {
      assert appended + {} == appended && deferred + {} == deferred;
    } else {
      var a, t := run[0], Apply(s, run[0]);
      StepLists(s, a, appended, deferred);
      ListsReached(t, run[1..], appended + New(s, a), deferred + NewLow(s, a));
      Regroup(appended, New(s, a), Appended(t, run[1..]));
      Regroup(deferred, NewLow(s, a), Deferred(t, run[1..]));
    }
  }

  // ----- what is written when

  /** The step puts the first byte of a package on the fd. */
  predicate Starts(s: State, a: Action, p: Package)
    requires Enabled(s, a)
  {
    |Apply(s, a).wire| > |s.wire| && Apply(s, a).wire[|s.wire|] == WireByte(p, 0)
  }

  lemma WorkersStartHigh(s: State, a: Action, p: Package)
    requires WorkerEnabled(s, a) && (!a.CallClose? ==> WorkerKnows(s, a.w)) && Starts(s, a, p)
    ensures p.priority.High?
  {
  }

  lemma FlushGoesOn(s: State, a: Action, p: Package)
    requires ServerEnabled(s, a) && !WorkerEnabled(s, a) && Starts(s, a, p)
    ensures (a.FlushHigh? && s.high != [] && s.high[0] == Buffer(p, 0)) || (a.FlushLow? && s.low != [])
  {
  }

  lemma WhoStarts(s: State, a: Action, p: Package)
    requires WorkerInv(s) && Enabled(s, a) && p.priority.Low? && KeptLow(s, p) && Starts(s, a, p)
    ensures ServerEnabled(s, a) && a.FlushLow? && s.low != []
  {
    assert !a.CallClose? && WorkerEnabled(s, a) ==> WorkerKnows(s, a.w);
    if WorkerEnabled(s, a) {
      WorkersStartHigh(s, a, p);
    } else {
      FlushGoesOn(s, a, p);
    }
  }

  lemma HighNotWaiting(s: State, q: Package)
    requires LowInv(s) && s.high == [] && Front(s) == [] && q.priority.High? && NotRequested(s, q)
    ensures !Waits(s, q)
  {
    assert Waiting(s) == s.low + Requested(s);
    forall i | 0 <= i < |Waiting(s)|
      ensures Waiting(s)[i].pkg != q
    {
      if i < |s.low| {
        assert Waiting(s)[i] == s.low[i];
      } else {
        assert Waiting(s)[i] == Requested(s)[i - |s.low|];
      }
    }
  }

  lemma HighIsOut(s: State, q: Package)
    requires NothingLost(s) && LowInv(s) && Alive(s) && s.high == [] && Front(s) == [] && q.priority.High? && Past(s, q)
    ensures WrittenOut(s, q)
  {
    assert Accounted(s, s.log[q.seqno]);
    HighNotWaiting(s, q);
  }

  lemma FlushingLowMeans(s: State)
    requires Held(s) && s.server.FlushingLow?
    ensures s.high == [] && s.parked.None? && Front(s) == []
  {
    assert ServerHoldsLock(s.server) <==> s.lock.HeldByServer?;
  }

  lemma LowStarts(s: State, appended: set<Package>, deferred: set<Package>, a: Action, p: Package)
    requires Inv(s) && ListsInv(s, appended, deferred) && Enabled(s, a) && p in deferred && Starts(s, a, p)
    ensures s.high == [] && s.parked.None?
    ensures Alive(s) ==> forall q :: q in appended && q.priority.High? ==> WrittenOut(s, q)
  {
    WhoStarts(s, a, p);
    FlushingLowMeans(s);
    forall q | Alive(s) && q in appended && q.priority.High?
      ensures WrittenOut(s, q)
    {
      HighIsOut(s, q);
    }
  }

  /**
   In every run: when the first byte of a low package that came while something waited is written, the high list
   is empty and no direct write is parked; and while the socket is connected, every high package that was put into
   the lists before is on the fd in full. So a low package never goes before one.
   */
  lemma LowWaitsForHigh(tag: nat, interest: bool, run: seq<Action>, a: Action, p: Package)
    requires Runs(Init(tag, interest), run) && Enabled(Final(Init(tag, interest), run), a)
    requires p in Deferred(Init(tag, interest), run) && Starts(Final(Init(tag, interest), run), a, p)
    ensures var s := Final(Init(tag, interest), run);
            && s.high == [] && s.parked.None?
            && (Alive(s) ==> forall q :: q in Appended(Init(tag, interest), run) && q.priority.High? ==> WrittenOut(s, q))
  {
    var s0 := Init(tag, interest);
    InitHolds(tag, interest);
    ListsReached(s0, run, {}, {});
    LowStarts(Final(s0, run), {} + Appended(s0, run), {} + Deferred(s0, run), a, p);
  }

  // ----- first come, first served

  predicate NotListed(q: seq<Buffer>, p: Package) { forall k :: 0 <= k < |q| ==> q[k].pkg != p }

  /** As long as p waits, q waits behind it. */
  predicate InFront(l: seq<Buffer>, p: Package, q: Package) {
    forall j, k :: 0 <= j < |l| && 0 <= k < |l| && l[j].pkg == p && l[k].pkg == q ==> j < k
  }

  predicate Ahead(s: State, p: Package, q: Package) {
    InFront(Lists(s), p, q) && (WireByte(q, 0) in s.wire ==> NotListed(Lists(s), p))
  }

  function NewPairs(s: State, a: Action, appended: set<Package>, deferred: set<Package>): set<(Package, Package)> {
    if !Appends(s, a) then {}
    else set p | p in appended && (p in deferred <==> Defers(s, a)) :: (p, s.server.pkg)
  }

  /** Packages put into the lists later than others that went the same way, as pairs. */
  function Pairs(s: State, run: seq<Action>, appended: set<Package>, deferred: set<Package>): set<(Package, Package)>
    requires Runs(s, run)
    decreases |run|
  {
    if run == [] then {}
    else
      NewPairs(s, run[0], appended, deferred) +
      Pairs(Apply(s, run[0]), run[1..], appended + New(s, run[0]), deferred + NewLow(s, run[0]))
  }

  ghost predicate PairsInv(s: State, appended: set<Package>, deferred: set<Package>, pairs: set<(Package, Package)>) {
    && (forall p :: p in appended && p !in deferred ==> NotListed(s.low, p))
    && (forall x :: x in pairs ==> InOrder(s, x))
  }

  lemma OneMoreInFront(x: seq<Buffer>, b: Buffer, y: seq<Buffer>, p: Package, q: Package)
    requires InFront(x + y, p, q) && b.pkg != p && b.pkg != q
    ensures InFront(x + [b] + y, p, q)
  {
    var was, now, m := x + y, x + [b] + y, |x|;
    assert forall i :: 0 <= i < |now| && i != m ==> now[i] == was[if i < m then i else i - 1];
  }

  lemma OneMoreNotListed(x: seq<Buffer>, b: Buffer, y: seq<Buffer>, p: Package)
    requires NotListed(x + y, p) && b.pkg != p
    ensures NotListed(x + [b] + y, p)
  {
    var was, now, m := x + y, x + [b] + y, |x|;
    assert forall i :: 0 <= i < |now| && i != m ==> now[i] == was[if i < m then i else i - 1];
  }

  lemma LessInFront(x: seq<Buffer>, gone: seq<Buffer>, y: seq<Buffer>, p: Package, q: Package)
    requires InFront(x + gone + y, p, q)
    ensures InFront(x + y, p, q)
  {
    var was, now := x + gone + y, x + y;
    assert forall i :: 0 <= i < |now| ==> now[i] == was[if i < |x| then i else i + |gone|];
  }

  lemma NotListedInPart(x: seq<Buffer>, gone: seq<Buffer>, y: seq<Buffer>, p: Package)
    requires NotListed(x + gone + y, p)
    ensures NotListed(x + y, p)
  {
    var was, now := x + gone + y, x + y;
    assert forall i :: 0 <= i < |now| ==> now[i] == was[if i < |x| then i else i + |gone|];
  }

  lemma AheadByWorker(s: State, a: Action, p: Package, q: Package)
    requires WorkerEnabled(s, a) && (!a.CallClose? ==> WorkerKnows(s, a.w)) && Ahead(s, p, q) && Past(s, q)
    ensures Ahead(WorkerApply(s, a), p, q)
  {
    var t := WorkerApply(s, a);
    assert Lists(t) == Lists(s);
    if a.DirectWrite? {
      assert s.Of(a.w).pkg != q;
      assert forall i :: |s.wire| <= i < |t.wire| ==> t.wire[i].pkg == s.Of(a.w).pkg;
    }
  }

  lemma AheadByAppend(s: State, p: Package, q: Package)
    requires s.server.Appending? && Ahead(s, p, q) && Past(s, p) && Past(s, q)
    ensures Ahead(ServerApply(s, Append), p, q)
  {
    var t, b := ServerApply(s, Append), Buffer(s.server.pkg, 0);
    assert Requested(s)[0] == b;
    if Appends(s, Append) {
      if Defers(s, Append) {
        assert Lists(s) + [] == Lists(s) && Lists(t) == Lists(s) + [b] + [];
        OneMoreInFront(Lists(s), b, [], p, q);
        if NotListed(Lists(s), p) { OneMoreNotListed(Lists(s), b, [], p); }
      } else {
        assert Lists(t) == s.high + [b] + s.low;
        OneMoreInFront(s.high, b, s.low, p, q);
        if NotListed(Lists(s), p) { OneMoreNotListed(s.high, b, s.low, p); }
      }
    }
  }

  lemma AheadByTake(s: State, p: Package, q: Package)
    requires s.server.TakingParked? && Ahead(s, p, q) && Past(s, p) && Past(s, q)
    ensures Ahead(ServerApply(s, TakeParked), p, q)
  {
    if s.parked.Some? {
      var b, l := s.parked.value, Lists(s);
      assert [] + l == l;
      assert Lists(ServerApply(s, TakeParked)) == [] + [b] + l;
      OneMoreInFront([], b, l, p, q);
      if NotListed(l, p) { OneMoreNotListed([], b, l, p); }
    }
  }

  /** A step that writes from the first buffer of the high list, or of the low one when that is empty. */
  predicate Flushes(s: State, a: Action) {
    (a.FlushHigh? && s.high != [] && a.r.Wrote?) || (a.FlushLow? && s.high == [] && s.low != [] && a.r.Wrote?)
  }

  lemma FlushShape(s: State, a: Action)
    requires ServerEnabled(s, a) && Flushes(s, a)
    ensures var t, l := ServerApply(s, a), Lists(s);
            && l != [] && t.wire == s.wire + Chunk(l[0], a.r.n)
            && Lists(t) == (if a.r.n == l[0].Rest() then [] else [Written(l[0], a.r.n)]) + l[1..]
  {
    var t, l := ServerApply(s, a), Lists(s);
    if a.FlushHigh? {
      assert l[0] == s.high[0] && l[1..] == s.high[1..] + s.low;
      assert [Written(l[0], a.r.n)] + s.high[1..] + s.low == [Written(l[0], a.r.n)] + l[1..];
      assert [] + l[1..] == l[1..];
    } else {
      assert l == s.low && [] + l[1..] == l[1..];
    }
  }

  lemma AheadWritten(l: seq<Buffer>, w: seq<WireByte>, n: nat, m: seq<Buffer>, p: Package, q: Package)
    requires l != [] && InFront(l, p, q) && (WireByte(q, 0) in w ==> NotListed(l, p))
    requires m == (if n == l[0].Rest() then [] else [Written(l[0], n)]) + l[1..]
    ensures InFront(m, p, q) && (WireByte(q, 0) in w + Chunk(l[0], n) ==> NotListed(m, p))
  {
    if n == l[0].Rest() {
      assert m == l[1..];
    } else {
      assert forall i :: 0 <= i < |m| ==> m[i].pkg == l[i].pkg;
    }
  }

  lemma AheadByFlush(s: State, a: Action, p: Package, q: Package)
    requires ServerEnabled(s, a) && Ahead(s, p, q) && Flushes(s, a)
    ensures Ahead(ServerApply(s, a), p, q)
  {
    FlushShape(s, a);
    AheadWritten(Lists(s), s.wire, a.r.n, Lists(ServerApply(s, a)), p, q);
  }

  lemma AheadByDiscard(s: State, a: Action, p: Package, q: Package)
    requires ServerEnabled(s, a) && Ahead(s, p, q) && (a.FreeHigh? || a.FreeLow?)
    ensures Ahead(ServerApply(s, a), p, q)
  {
    var t := ServerApply(s, a);
    if a.FreeHigh? {
      assert Lists(s) == [] + s.high + s.low && Lists(t) == [] + s.low;
      LessInFront([], s.high, s.low, p, q);
      if NotListed(Lists(s), p) { NotListedInPart([], s.high, s.low, p); }
    } else {
      assert Lists(s) == s.high + s.low + [] && Lists(t) == s.high + [];
      LessInFront(s.high, s.low, [], p, q);
      if NotListed(Lists(s), p) { NotListedInPart(s.high, s.low, [], p); }
    }
  }

  /** Every other step leaves the lists and the wire alone. */
  lemma ListsStay(s: State, a: Action)
    requires ServerEnabled(s, a) && PcInv(s) && !a.Append? && !a.TakeParked? && !a.FreeHigh? && !a.FreeLow?
    requires a.FlushHigh? ==> s.high == [] || !a.r.Wrote?
    requires a.FlushLow? ==> s.low == [] || !a.r.Wrote?
    ensures Lists(ServerApply(s, a)) == Lists(s) && ServerApply(s, a).wire == s.wire
  {
    if a.Raise? { assert s.low == [s.low[0]] + s.low[1..]; }
  }

  lemma AheadKept(s: State, a: Action, p: Package, q: Package)
    requires PcInv(s) && WorkerInv(s) && Enabled(s, a) && Ahead(s, p, q) && Past(s, p) && Past(s, q)
    ensures Ahead(Apply(s, a), p, q)
  {
    if WorkerEnabled(s, a) {
      assert !a.CallClose? ==> WorkerKnows(s, a.w);
      AheadByWorker(s, a, p, q);
    } else if a.Append? {
      AheadByAppend(s, p, q);
    } else if a.TakeParked? {
      AheadByTake(s, p, q);
    } else if a.FreeHigh? || a.FreeLow? {
      AheadByDiscard(s, a, p, q);
    } else if Flushes(s, a) {
      AheadByFlush(s, a, p, q);
    } else {
      ListsStay(s, a);
    }
  }

  /** The package being appended is nowhere else, and not on the fd. */
  lemma NewIsNew(s: State)
    requires OrderInv(s.wire, Waiting(s)) && s.server.Appending?
    ensures NotListed(Lists(s), s.server.pkg) && WireByte(s.server.pkg, 0) !in s.wire
  {
    var k := |Front(s)| + |s.high| + |s.low|;
    HandWaits(s);
    EarlierDiffer(s, k);
    forall i | 0 <= i < |s.wire|
      ensures s.wire[i] != WireByte(s.server.pkg, 0)
    {
      assert SameClass(s.wire[i].pkg, Waiting(s)[k].pkg) ==> Precedes(s.wire[i], Waiting(s)[k]);
    }
  }

  lemma NewBehind(s: State, a: Action, p: Package)
    requires OrderInv(s.wire, Waiting(s)) && ServerEnabled(s, a) && Appends(s, a)
    requires p != s.server.pkg && (!Defers(s, a) ==> NotListed(s.low, p))
    ensures Ahead(ServerApply(s, a), p, s.server.pkg)
  {
    var t, q := ServerApply(s, a), s.server.pkg;
    NewIsNew(s);
    if Defers(s, a) {
      assert Lists(t) == Lists(s) + [Buffer(q, 0)] + [] && Lists(s) == Lists(s) + [];
      NewInFront(Lists(s), Buffer(q, 0), [], p);
    } else {
      assert Lists(t) == s.high + [Buffer(q, 0)] + s.low;
      NewInFront(s.high, Buffer(q, 0), s.low, p);
    }
  }

  lemma NewInFront(x: seq<Buffer>, b: Buffer, y: seq<Buffer>, p: Package)
    requires NotListed(x + y, b.pkg) && NotListed(y, p) && p != b.pkg
    ensures InFront(x + [b] + y, p, b.pkg)
  {
    Parts(x, b, y);
    assert forall i :: 0 <= i < |x| ==> (x + y)[i] == x[i];
    assert forall i :: 0 <= i < |y| ==> (x + y)[|x| + i] == y[i];
  }

  lemma Parts(x: seq<Buffer>, b: Buffer, y: seq<Buffer>)
    ensures forall i :: 0 <= i < |x + [b] + y| ==>
              (x + [b] + y)[i] == if i < |x| then x[i] else if i == |x| then b else y[i - |x| - 1]
  {
  }

  lemma LowGrows(s: State, a: Action, p: Package)
    requires ServerEnabled(s, a) && NotListed(s.low, p) && NotRequested(s, p)
    ensures NotListed(ServerApply(s, a).low, p)
  {
    if a.Append? {
      assert Requested(s)[0] == Buffer(s.server.pkg, 0);
    }
  }

  lemma HighStays(s: State, a: Action, p: Package)
    requires Enabled(s, a) && NotListed(s.low, p) && Past(s, p)
    ensures NotListed(Apply(s, a).low, p)
  {
    if WorkerEnabled(s, a) {
      assert WorkerApply(s, a).low == s.low;
    } else {
      LowGrows(s, a, p);
    }
  }

  lemma NewHigh(s: State, a: Action)
    requires OrderInv(s.wire, Waiting(s)) && ServerEnabled(s, a) && Appends(s, a) && !Defers(s, a)
    ensures NotListed(ServerApply(s, a).low, s.server.pkg)
  {
    NewIsNew(s);
    assert forall i :: 0 <= i < |s.low| ==> Lists(s)[|s.high| + i] == s.low[i];
    assert ServerApply(s, a).low == s.low;
  }

  ghost predicate AllPast(s: State, appended: set<Package>) { forall p :: p in appended ==> Past(s, p) }

  lemma HighKept(s: State, a: Action, appended: set<Package>, deferred: set<Package>)
    requires OrderInv(s.wire, Waiting(s)) && Enabled(s, a) && AllPast(s, appended)
    requires forall p :: p in appended && p !in deferred ==> NotListed(s.low, p)
    ensures forall p :: p in appended + New(s, a) && p !in deferred + NewLow(s, a) ==> NotListed(Apply(s, a).low, p)
  {
    forall p | p in appended && p !in deferred ensures NotListed(Apply(s, a).low, p) { HighStays(s, a, p); }
    if Appends(s, a) && !Defers(s, a) { NewHigh(s, a); }
  }

  lemma NewPairsHold(s: State, a: Action, appended: set<Package>, deferred: set<Package>, x: (Package, Package))
    requires OrderInv(s.wire, Waiting(s)) && Enabled(s, a) && AllPast(s, appended) && x in NewPairs(s, a, appended, deferred)
    requires forall p :: p in appended && p !in deferred ==> NotListed(s.low, p)
    ensures Ahead(Apply(s, a), x.0, x.1) && x.0 in appended && x.1 == s.server.pkg
  {
    assert Past(s, x.0) && Requested(s)[0] == Buffer(s.server.pkg, 0);
    NewBehind(s, a, x.0);
  }

  /** What is known of a pair of packages once both have been put into lists. */
  predicate InOrder(s: State, x: (Package, Package)) { Past(s, x.0) && Past(s, x.1) && Ahead(s, x.0, x.1) }

  lemma OldPairKept(s: State, a: Action, x: (Package, Package))
    requires PcInv(s) && WorkerInv(s) && Enabled(s, a) && InOrder(s, x)
    ensures InOrder(Apply(s, a), x)
  {
    PastKept(s, a, x.0);
    PastKept(s, a, x.1);
    AheadKept(s, a, x.0, x.1);
  }

  lemma NewPairStarts(s: State, a: Action, appended: set<Package>, deferred: set<Package>, x: (Package, Package))
    requires LockInv(s) && WorkerInv(s) && NewestInv(s) && LogInv(s) && OrderInv(s.wire, Waiting(s)) && Enabled(s, a)
    requires AllPast(s, appended) && x in NewPairs(s, a, appended, deferred)
    requires forall p :: p in appended && p !in deferred ==> NotListed(s.low, p)
    ensures InOrder(Apply(s, a), x)
  {
    NewPairsHold(s, a, appended, deferred, x);
    PastKept(s, a, x.0);
    OnlyOnce(s);
  }

  lemma PairsKept(s: State, a: Action, appended: set<Package>, deferred: set<Package>, pairs: set<(Package, Package)>)
    requires Inv(s) && Enabled(s, a) && ListsInv(s, appended, deferred) && PairsInv(s, appended, deferred, pairs)
    ensures PairsInv(Apply(s, a), appended + New(s, a), deferred + NewLow(s, a), pairs + NewPairs(s, a, appended, deferred))
  {
    assert AllPast(s, appended);
    HighKept(s, a, appended, deferred);
    forall x | x in pairs ensures InOrder(Apply(s, a), x) { OldPairKept(s, a, x); }
    forall x | x in NewPairs(s, a, appended, deferred) ensures InOrder(Apply(s, a), x) {
      NewPairStarts(s, a, appended, deferred, x);
    }
  }

  lemma {:induction false} PairsReached(s: State, run: seq<Action>, appended: set<Package>, deferred: set<Package>,
                                        pairs: set<(Package, Package)>)
    requires Inv(s) && Runs(s, run) && ListsInv(s, appended, deferred) && PairsInv(s, appended, deferred, pairs)
    ensures Inv(Final(s, run))
    ensures forall x :: x in pairs + Pairs(s, run, appended, deferred) ==> InOrder(Final(s, run), x)
    decreases |run|
  {
    if run != [] {
      var a, t := run[0], Apply(s, run[0]);
      StepLists(s, a, appended, deferred);
      PairsKept(s, a, appended, deferred, pairs);
      var more := NewPairs(s, a, appended, deferred);
      PairsReached(t, run[1..], appended + New(s, a), deferred + NewLow(s, a), pairs + more);
      Regroup(pairs, more, Pairs(t, run[1..], appended + New(s, a), deferred + NewLow(s, a)));
    }
  }

  /** Who starts a package of the lists. */
  lemma ListStarts(s: State, a: Action, q: Package)
    requires Inv(s) && Enabled(s, a) && Past(s, q) && Starts(s, a, q)
    ensures Lists(s) != [] && Lists(s)[0].pkg == q && Front(s) == []
  {
    assert ServerHoldsLock(s.server) <==> s.lock.HeldByServer?;
    if WorkerEnabled(s, a) {
      assert a.DirectWrite?;
      NotByWorker(s, a, q);
    } else {
      FlushGoesOn(s, a, q);
      FlushShape(s, a);
    }
  }

  lemma NotByWorker(s: State, a: Action, q: Package)
    requires WorkerEnabled(s, a) && a.DirectWrite? && WorkerKnows(s, a.w) && Starts(s, a, q)
    ensures InHand(s, q)
  {
  }

  lemma NotWaiting(s: State, p: Package)
    requires Front(s) == [] && NotListed(Lists(s), p) && NotRequested(s, p)
    ensures !Waits(s, p)
  {
    assert Waiting(s) == Lists(s) + Requested(s);
    forall i | 0 <= i < |Waiting(s)|
      ensures Waiting(s)[i].pkg != p
    {
      if i < |Lists(s)| {
        assert Waiting(s)[i] == Lists(s)[i];
      } else {
        assert Waiting(s)[i] == Requested(s)[i - |Lists(s)|];
      }
    }
  }

  /**
   In every run, whichever threads they come from: of two packages put into the lists the same way, the high ones
   and those that found both lists empty, or the low ones that did not, the later one starts only when the earlier one is
   on the fd in full, while the socket is connected.
   */
  lemma FirstComeFirstServed(tag: nat, interest: bool, run: seq<Action>, a: Action, p: Package, q: Package)
    requires Runs(Init(tag, interest), run) && Enabled(Final(Init(tag, interest), run), a)
    requires (p, q) in Pairs(Init(tag, interest), run, {}, {})
    requires Starts(Final(Init(tag, interest), run), a, q) && Alive(Final(Init(tag, interest), run))
    ensures WrittenOut(Final(Init(tag, interest), run), p)
  {
    var s0 := Init(tag, interest);
    InitHolds(tag, interest);
    PairsReached(s0, run, {}, {}, {});
    var s := Final(s0, run);
    var x := (p, q);
    assert x in {} + Pairs(s0, run, {}, {});
    ServedInOrder(s, a, p, q);
  }

  lemma ServedInOrder(s: State, a: Action, p: Package, q: Package)
    requires Inv(s) && Enabled(s, a) && Past(s, p) && Past(s, q) && Ahead(s, p, q) && Starts(s, a, q) && Alive(s)
    ensures WrittenOut(s, p)
  {
    ListStarts(s, a, q);
    NotWaiting(s, p);
    assert Accounted(s, s.log[p.seqno]);
  }
}
