/**
 What was sent before a close is delivered: without a failure and without shutdown the fd is closed only when every
 package whose send call had returned before the first close call is on it.
 */
module SocketDelivery {
  import opened Basics
  import opened WriteStream
  import opened SocketServer
  import opened SocketInvariant
  import opened SocketOrder
  import opened SocketTheorems
  import opened SocketClose
  import opened SocketEnds

  predicate Listed(q: seq<Buffer>, p: Package) { exists i :: 0 <= i < |q| && q[i].pkg == p }

  predicate InLists(s: State, p: Package) {
    Listed(s.high, p) || Listed(s.low, p) || (s.parked.Some? && s.parked.value.pkg == p)
  }

  /** The socket is connected and the socket thread has taken up no close. */
  predicate Undecided(s: State) {
    s.kind.Connected? && (s.server.Polling? || s.server.Appending? || s.server.Acking? || FlushFor(s.server, ToPoll))
  }

  predicate SendAt(pipe: seq<Request>, i: nat, p: Package) {
    i < |pipe| && pipe[i] == SendRequest(p) && forall j :: 0 <= j < i ==> pipe[j].SendRequest?
  }

  /** The request comes up before any close. */
  predicate BeforeClose(s: State, p: Package) {
    Undecided(s) && (s.server == Appending(p) || exists i :: 0 <= i < |s.pipe| && SendAt(s.pipe, i, p))
  }

  predicate Delivers(s: State, p: Package) { WrittenOut(s, p) || InLists(s, p) || BeforeClose(s, p) }

  /** The send call of the package has returned. */
  predicate Returned(s: State, p: Package) { Logged(s.log, p) && !InHand(s, p) }

  /** Once the close is decided, what is parked is another package. */
  predicate ParkedOther(s: State, p: Package) {
    Decided(s.server) && s.parked.Some? ==> s.parked.value.pkg != p
  }

  ghost predicate OnItsWay(s: State, p: Package) { Delivers(s, p) && Returned(s, p) && ParkedOther(s, p) }

  // ----- steps of workers

  lemma NotOfReturned(s: State, w: nat, p: Package)
    requires WorkerKnows(s, w) && Returned(s, p) && HasPackage(s.Of(w))
    ensures s.Of(w).pkg != p
  {
  }

  lemma ReturnedByWorker(s: State, a: Action, p: Package)
    requires WorkerEnabled(s, a) && Returned(s, p) && (!a.CallClose? ==> WorkerKnows(s, a.w))
    ensures Returned(WorkerApply(s, a), p)
  {
    LogGrows(s, a);
    if !a.CallClose? && p.owner != a.w { OtherWorkers(s, a, p.owner); }
  }

  lemma WireByWorker(s: State, a: Action, p: Package)
    requires WorkerEnabled(s, a) && WrittenOut(s, p)
    ensures WrittenOut(WorkerApply(s, a), p)
  {
  }

  lemma PipeByWorker(s: State, a: Action, p: Package)
    requires WorkerEnabled(s, a) && BeforeClose(s, p)
    ensures BeforeClose(WorkerApply(s, a), p)
  {
    var t := WorkerApply(s, a);
    if s.server != Appending(p) {
      var i :| 0 <= i < |s.pipe| && SendAt(s.pipe, i, p);
      assert SendAt(t.pipe, i, p);
    }
  }

  lemma ListsByWorker(s: State, a: Action, p: Package)
    requires WorkerEnabled(s, a) && InLists(s, p) && (a.Park? ==> WorkerKnows(s, a.w))
    ensures InLists(WorkerApply(s, a), p)
  {
    var t := WorkerApply(s, a);
    assert t.high == s.high && t.low == s.low;
  }

  lemma WayByWorker(s: State, a: Action, p: Package)
    requires WorkerEnabled(s, a) && WorkerInv(s) && OnItsWay(s, p)
    ensures OnItsWay(WorkerApply(s, a), p)
  {
    assert !a.CallClose? ==> WorkerKnows(s, a.w);
    ReturnedByWorker(s, a, p);
    if WrittenOut(s, p) {
      WireByWorker(s, a, p);
    } else if InLists(s, p) {
      ListsByWorker(s, a, p);
    } else {
      PipeByWorker(s, a, p);
    }
    if a.Park? { NotOfReturned(s, a.w, p); }
  }

  // ----- steps of the socket thread

  lemma PopOnWay(s: State, p: Package)
    requires ServerEnabled(s, PopRequest) && BeforeClose(s, p)
    ensures BeforeClose(ServerApply(s, PopRequest), p)
  {
    var t := ServerApply(s, PopRequest);
    var i :| 0 <= i < |s.pipe| && SendAt(s.pipe, i, p);
    if i > 0 {
      assert s.pipe[0].SendRequest?;
      assert SendAt(t.pipe, i - 1, p) by {
        assert forall j :: 0 <= j < i - 1 ==> t.pipe[j] == s.pipe[j + 1];
      }
    }
  }

  lemma AppendOnWay(s: State, p: Package)
    requires ServerEnabled(s, Append) && BeforeClose(s, p)
    ensures Delivers(ServerApply(s, Append), p)
  {
    var t := ServerApply(s, Append);
    if s.server == Appending(p) {
      AppendLists(s);
    } else {
      assert t.pipe == s.pipe && t.kind == s.kind;
    }
  }

  lemma AppendLists(s: State)
    requires s.server.Appending? && s.kind.Connected?
    ensures var t := ServerApply(s, Append); Listed(t.high, s.server.pkg) || Listed(t.low, s.server.pkg)
  {
    var t := ServerApply(s, Append);
    if t.low != s.low {
      assert t.low[|s.low|].pkg == s.server.pkg;
    } else {
      assert t.high[|t.high| - 1].pkg == s.server.pkg;
    }
  }

  lemma StillListed(q: seq<Buffer>, more: seq<Buffer>, p: Package)
    requires Listed(q, p) && forall b :: b in q ==> b in more
    ensures Listed(more, p)
  {
    var i :| 0 <= i < |q| && q[i].pkg == p;
    assert q[i] in more;
  }

  lemma AppendKeepsLists(s: State, p: Package)
    requires s.server.Appending? && InLists(s, p)
    ensures InLists(ServerApply(s, Append), p)
  {
    var t := ServerApply(s, Append);
    if Listed(s.high, p) { StillListed(s.high, t.high, p); }
    if Listed(s.low, p) { StillListed(s.low, t.low, p); }
  }

  /** A package leaves its list when its last byte is written. */
  lemma HeadOut(q: seq<Buffer>, p: Package, w: seq<WireByte>, n: nat)
    requires q != [] && Listed(q, p) && q[0].off + n <= |q[0].pkg.data| && Resumes(w, q[0])
    ensures if n == q[0].Rest() then Listed(q[1..], p) || p.data == [] || WireByte(p, |p.data| - 1) in w + Chunk(q[0], n)
            else Listed([Written(q[0], n)] + q[1..], p)
  {
    var b := q[0];
    var i :| 0 <= i < |q| && q[i].pkg == p;
    if i > 0 {
      assert q[1..][i - 1].pkg == p;
      assert ([Written(b, n)] + q[1..])[i].pkg == p;
    } else if n == b.Rest() {
      if p.data != [] {
        assert n > 0;
        var all := w + Chunk(b, n);
        assert all[|w| + n - 1] == WireByte(p, |p.data| - 1);
      }
    } else {
      assert ([Written(b, n)] + q[1..])[0].pkg == p;
    }
  }

  lemma FlushOnWay(s: State, a: Action, p: Package)
    requires Ready(s) && ServerEnabled(s, a) && FrameInv(s.wire, Waiting(s)) && InLists(s, p)
    requires (a.FlushHigh? && s.high != []) || (a.FlushLow? && s.low != [])
    ensures WrittenOut(ServerApply(s, a), p) || InLists(ServerApply(s, a), p)
  {
    FlushWaiting(s, a);
    if a.r.Wrote? {
      if a.FlushHigh? && Listed(s.high, p) { HeadOut(s.high, p, s.wire, a.r.n); }
      if a.FlushLow? && Listed(s.low, p) { HeadOut(s.low, p, s.wire, a.r.n); }
    }
  }

  lemma MovesOnWay(s: State, a: Action, p: Package)
    requires ServerEnabled(s, a) && PcInv(s) && InLists(s, p) && (a.TakeParked? || a.Raise?)
    ensures InLists(ServerApply(s, a), p)
  {
    var t := ServerApply(s, a);
    if a.TakeParked? {
      if s.parked.Some? && s.parked.value.pkg == p { assert t.high[0].pkg == p; }
      if Listed(s.high, p) { StillListed(s.high, t.high, p); }
    } else {
      if Listed(s.low, p) {
        var k :| 0 <= k < |s.low| && s.low[k].pkg == p;
        if k == 0 { assert t.high[0].pkg == p; } else { assert t.low[k - 1].pkg == p; }
      }
    }
  }

  lemma WireGrowsByServer(s: State, a: Action, p: Package)
    requires ServerEnabled(s, a) && WrittenOut(s, p)
    ensures WrittenOut(ServerApply(s, a), p)
  {
    WireGrows(s, a);
    if p.data != [] {
      var i :| 0 <= i < |s.wire| && s.wire[i] == WireByte(p, |p.data| - 1);
      assert Apply(s, a).wire[i] == s.wire[i];
    }
  }

  /** A listed package stays listed until it is written: the lists are freed empty, and what is parked is another one. */
  lemma ListedOnWay(s: State, a: Action, late: bool, p: Package)
    requires ServerEnabled(s, a) && Gentle(a) && CloseInv(s, late) && Ready(s) && FrameAll(s)
    requires InLists(s, p) && ParkedOther(s, p)
    ensures WrittenOut(ServerApply(s, a), p) || InLists(ServerApply(s, a), p)
  {
    var t := ServerApply(s, a);
    match a {
      case Append => AppendKeepsLists(s, p);
      case FlushHigh(r) => if s.high != [] { FlushOnWay(s, a, p); }
      case FlushLow(r) => if s.low != [] { FlushOnWay(s, a, p); }
      case TakeParked => MovesOnWay(s, a, p);
      case Raise => MovesOnWay(s, a, p);
      case FreeHigh => AtTheFree(s, a, late);
      case FreeLow => AtTheFree(s, a, late);
      case CloseFd => AtTheFree(s, a, late);
      case _ =>
    }
  }

  lemma RequestOnWay(s: State, a: Action, p: Package)
    requires ServerEnabled(s, a) && Gentle(a) && BeforeClose(s, p)
    ensures Delivers(ServerApply(s, a), p)
  {
    if a.PopRequest? {
      PopOnWay(s, p);
    } else if a.Append? {
      AppendOnWay(s, p);
    } else if FlushFor(s.server, ToPoll) {
      FlushUntroubled(s, a);
      var i :| 0 <= i < |s.pipe| && SendAt(s.pipe, i, p);
      assert SendAt(ServerApply(s, a).pipe, i, p);
    } else {
      var i :| 0 <= i < |s.pipe| && SendAt(s.pipe, i, p);
      assert SendAt(ServerApply(s, a).pipe, i, p);
    }
  }

  lemma OtherAtDecision(s: State, a: Action, late: bool, p: Package)
    requires ServerEnabled(s, a) && Gentle(a) && CloseInv(s, late) && PcInv(s) && ParkedOther(s, p)
    ensures ParkedOther(ServerApply(s, a), p)
  {
    var t := ServerApply(s, a);
    assert t.parked == s.parked || t.parked.None?;
    if Decided(t.server) && !Decided(s.server) { NoneAtDecision(s, a, late); }
  }

  /** The close is decided by reading a null dw_buffer, or after a flush that has emptied everything. */
  lemma NoneAtDecision(s: State, a: Action, late: bool)
    requires ServerEnabled(s, a) && Gentle(a) && CloseInv(s, late) && PcInv(s)
    requires Decided(ServerApply(s, a).server) && !Decided(s.server)
    ensures ServerApply(s, a).parked.None?
  {
    if a.CloseRead? {
    } else if a.FlushHigh? {
    } else if a.FlushLow? {
    } else {
    }
  }

  lemma WayByServer(s: State, a: Action, late: bool, p: Package)
    requires ServerEnabled(s, a) && Gentle(a) && CloseInv(s, late) && Ready(s) && FrameAll(s) && OnItsWay(s, p)
    ensures OnItsWay(ServerApply(s, a), p)
  {
    ServerFrame(s, a);
    OtherAtDecision(s, a, late, p);
    if WrittenOut(s, p) {
      WireGrowsByServer(s, a, p);
    } else if InLists(s, p) {
      ListedOnWay(s, a, late, p);
    } else {
      RequestOnWay(s, a, p);
    }
  }

  // ----- runs

  lemma StepOnWay(s: State, a: Action, late: bool, p: Package)
    requires Inv(s) && CloseInv(s, late) && Enabled(s, a) && Gentle(a) && OnItsWay(s, p)
    ensures OnItsWay(Apply(s, a), p)
  {
    if WorkerEnabled(s, a) { WayByWorker(s, a, p); } else { WayByServer(s, a, late, p); }
  }

  lemma {:induction false} RunOnWay(s: State, run: seq<Action>, late: bool, p: Package)
    requires Inv(s) && CloseInv(s, late) && Runs(s, run) && AllGentle(run) && OnItsWay(s, p)
    ensures OnItsWay(Final(s, run), p) && PcInv(Final(s, run))
    decreases |run|
  {
    if run != [] {
      var a := run[0];
      assert Gentle(a) && AllGentle(run[1..]);
      StepOnWay(s, a, late, p);
      StepKeeps(s, a);
      if WorkerEnabled(s, a) { CloseByWorker(s, a, late); } else { CloseByServer(s, a, late); }
      RunOnWay(Apply(s, a), run[1..], ParkedAfter(s, a, late), p);
    }
  }

  lemma {:induction false} InPipe(pipe: seq<Request>, k: nat)
    requires k < |PipeBuffers(pipe)| && NoCloseIn(pipe)
    ensures |PipeBuffers(pipe)| == |pipe| && SendAt(pipe, k, PipeBuffers(pipe)[k].pkg)
  {
    assert pipe[0].SendRequest?;
    if k > 0 {
      assert NoCloseIn(pipe[1..]);
      InPipe(pipe[1..], k - 1);
      assert forall j :: 0 < j < |pipe| ==> pipe[j] == pipe[1..][j - 1];
    } else if |pipe| > 1 {
      assert NoCloseIn(pipe[1..]);
      assert pipe[1].SendRequest?;
      assert PipeBuffers(pipe[1..]) != [];
      InPipe(pipe[1..], 0);
    }
  }

  /** A package that waits while no close has been asked for is parked, listed, or requested. */
  lemma WaitsOnWay(s: State, p: Package)
    requires Untroubled(s) && LockInv(s) && WorkerInv(s) && Waits(s, p) && Returned(s, p)
    ensures InLists(s, p) || BeforeClose(s, p)
  {
    var i :| 0 <= i < |Waiting(s)| && Waiting(s)[i].pkg == p;
    var k, f := |Kept(s)|, |Front(s)|;
    if i < k {
      var w := s.lock.w;
      assert WorkerKnows(s, w);
      NotOfReturned(s, w, p);
    } else if i < f {
      assert Waiting(s)[i] == s.parked.value;
    } else if i < f + |s.high| {
      assert Waiting(s)[i] == s.high[i - f];
    } else if i < f + |s.high| + |s.low| {
      assert Waiting(s)[i] == s.low[i - f - |s.high|];
    } else {
      RequestWaits(s, p, i - f - |s.high| - |s.low|);
    }
  }

  lemma RequestWaits(s: State, p: Package, r: nat)
    requires Untroubled(s) && r < |Requested(s)| && Requested(s)[r].pkg == p
    ensures BeforeClose(s, p)
  {
    var h := |Hand(s.server)|;
    if r >= h {
      assert Requested(s)[r] == PipeBuffers(s.pipe)[r - h];
      InPipe(s.pipe, r - h);
    }
  }

  lemma GentleDoesNotBreak(s: State, a: Action)
    requires Gentle(a)
    ensures !Breaks(s, a)
  {
  }

  lemma {:induction false} GentleRunIsUntroubled(s: State, run: seq<Action>)
    requires Untroubled(s) && Runs(s, run) && AllGentle(run) && forall i :: 0 <= i < |run| ==> !run[i].CallClose?
    ensures Untroubled(Final(s, run))
    decreases |run|
  {
    if run != [] {
      assert Gentle(run[0]) && AllGentle(run[1..]);
      GentleDoesNotBreak(s, run[0]);
      UntroubledStill(s, run[0]);
      assert forall i :: 0 <= i < |run| - 1 ==> run[1..][i] == run[i + 1];
      GentleRunIsUntroubled(Apply(s, run[0]), run[1..]);
    }
  }

  lemma StartsOnWay(s: State, p: Package)
    requires Untroubled(s) && LockInv(s) && WorkerInv(s) && Returned(s, p) && Accounted(s, p)
    ensures OnItsWay(s, p)
  {
    if !WrittenOut(s, p) { WaitsOnWay(s, p); }
  }

  predicate Numbered(s: State) { forall k :: 0 <= k < |s.log| ==> s.log[k].seqno == k }

  lemma NumberedStill(s: State, a: Action)
    requires Numbered(s) && Enabled(s, a)
    ensures Numbered(Apply(s, a))
  {
    if !WorkerEnabled(s, a) { ServerFrame(s, a); }
  }

  lemma {:induction false} NumberedRun(s: State, run: seq<Action>)
    requires Numbered(s) && Runs(s, run)
    ensures Numbered(Final(s, run))
    decreases |run|
  {
    if run != [] {
      NumberedStill(s, run[0]);
      NumberedRun(Apply(s, run[0]), run[1..]);
    }
  }

  lemma LoggedAccounted(s: State, k: nat)
    requires NothingLost(s) && Numbered(s) && Untroubled(s) && k < |s.log|
    ensures Accounted(s, s.log[k]) && Logged(s.log, s.log[k])
  {
    assert Alive(s);
  }

  lemma ClosedMeansWritten(s: State, p: Package)
    requires PcInv(s) && OnItsWay(s, p) && s.kind.Invalid?
    ensures WrittenOut(s, p)
  {
  }

  /**
   In every run without a hang-up, a failing write or a close with shutdown: a package whose send call had returned
   before the first close call is on the fd in full when the fd is closed.
   */
  lemma SendThenClose(tag: nat, interest: bool, before: seq<Action>, more: seq<Action>, k: nat)
    requires Runs(Init(tag, interest), before) && AllGentle(before) && forall i :: 0 <= i < |before| ==> !before[i].CallClose?
    requires var s := Final(Init(tag, interest), before);
             && k < |s.log| && !InHand(s, s.log[k])
             && Runs(s, more) && AllGentle(more) && Final(s, more).kind.Invalid?
    ensures var s := Final(Init(tag, interest), before); WrittenOut(Final(s, more), s.log[k])
  {
    var s0 := Init(tag, interest);
    var s := Final(s0, before);
    var late := ParkedLate(s0, before, false);
    InitHolds(tag, interest);
    CloseReached(s0, before, false);
    Reached(tag, interest, before);
    GentleRunIsUntroubled(s0, before);
    NumberedRun(s0, before);
    LoggedAccounted(s, k);
    StartsOnWay(s, s.log[k]);
    RunOnWay(s, more, late, s.log[k]);
    ClosedMeansWritten(Final(s, more), s.log[k]);
  }
}
