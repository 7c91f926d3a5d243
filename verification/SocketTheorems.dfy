/**
 What holds in every run of the TCP write path: framing, call order, nothing lost, and the
 asserts of skynet/skynet-src/socket_server.c.
 */
module SocketTheorems {
  import opened Basics
  import opened WriteStream
  import opened SocketServer
  import opened SocketInvariant
  import opened SocketOrder

  // ----- nothing is lost while the socket is connected

  predicate InHand(s: State, p: Package) {
    HasPackage(s.Of(p.owner)) && s.Of(p.owner).pkg == p
  }

  predicate Waits(s: State, p: Package) {
    exists i :: 0 <= i < |Waiting(s)| && Waiting(s)[i].pkg == p
  }

  predicate WrittenOut(s: State, p: Package) {
    p.data == [] || WireByte(p, |p.data| - 1) in s.wire
  }

  predicate Accounted(s: State, p: Package) {
    InHand(s, p) || Waits(s, p) || WrittenOut(s, p)
  }

  predicate Alive(s: State) { s.kind.Connected? && !Discarding(s) }

  ghost predicate NothingLost(s: State) {
    Alive(s) ==> forall k :: 0 <= k < |s.log| ==> Accounted(s, s.log[k])
  }

  ghost predicate Inv(s: State) {
    && Held(s)
    && OrderInv(s.wire, Waiting(s))
    && NewestInv(s)
    && LogInv(s)
    && FrameAll(s)
    && SizeInv(s)
    && InterestInv(s)
    && NothingLost(s)
  }

  lemma WaitsIn(s: State, b: Buffer)
    requires b in Waiting(s)
    ensures Waits(s, b.pkg)
  {
    var i :| 0 <= i < |Waiting(s)| && Waiting(s)[i] == b;
  }

  lemma LostByWorker(s: State, a: Action, p: Package)
    requires Held(s) && WorkerEnabled(s, a) && !s.kind.Invalid? && Accounted(s, p)
    ensures Accounted(WorkerApply(s, a), p)
  {
    var t := WorkerApply(s, a);
    if a.CallClose? {
      QuietWorker(s, a);
    } else if a.DirectWrite? {
      var r := s.Of(a.w).pkg;
      assert WorkerKnows(s, a.w);
      DirectWriteWaiting(s, a);
      if InHand(s, p) {
        if p.owner != a.w {
          OtherWorkers(s, a, p.owner);
        } else if a.n == |p.data| && a.n > 0 {
          assert t.wire[|t.wire| - 1] == WireByte(p, |p.data| - 1);
        }
      } else if Waits(s, p) {
        var i :| 0 <= i < |Waiting(s)| && Waiting(s)[i].pkg == p;
        assert Waiting(s)[i] in Waiting(t);
        WaitsIn(t, Waiting(s)[i]);
      }
    } else if a.Post? {
      PostWaiting(s, a);
      if InHand(s, p) {
        if p.owner != a.w {
          OtherWorkers(s, a, p.owner);
        } else {
          WaitsIn(t, Buffer(p, 0));
        }
      } else if Waits(s, p) {
        var i :| 0 <= i < |Waiting(s)| && Waiting(s)[i].pkg == p;
        assert Waiting(s)[i] in Waiting(t);
        WaitsIn(t, Waiting(s)[i]);
      }
    } else {
      QuietWorker(s, a);
      if InHand(s, p) && p.owner != a.w { OtherWorkers(s, a, p.owner); }
      if a.Park? && InHand(s, p) && p.owner == a.w {
        assert HoldsLock(s.Of(a.w)) <==> s.lock == HeldByWorker(a.w);
        WaitsIn(s, Buffer(p, s.Of(a.w).sent));
      }
    }
  }

  lemma LostByFlush(s: State, a: Action, p: Package)
    requires Ready(s) && ServerEnabled(s, a) && FrameInv(s.wire, Waiting(s)) && Waits(s, p)
    requires (a.FlushHigh? && s.high != []) || (a.FlushLow? && s.low != [])
    ensures Waits(ServerApply(s, a), p) || WrittenOut(ServerApply(s, a), p)
  {
    var t := ServerApply(s, a);
    FlushWaiting(s, a);
    var b := Waiting(s)[0];
    var i :| 0 <= i < |Waiting(s)| && Waiting(s)[i].pkg == p;
    if a.r.Wrote? {
      if i > 0 {
        assert Waiting(s)[i] == Waiting(s)[1..][i - 1];
        assert Waiting(s)[i] in Waiting(t);
        WaitsIn(t, Waiting(s)[i]);
      } else if a.r.n == b.Rest() {
        if p.data != [] {
          assert a.r.n > 0;
          assert Chunk(b, a.r.n)[a.r.n - 1] == WireByte(p, |p.data| - 1);
          assert t.wire[|t.wire| - 1] == WireByte(p, |p.data| - 1);
        }
      } else {
        assert Waiting(t)[0].pkg == p;
      }
    }
  }

  lemma AppendKeeps(s: State, b: Buffer)
    requires s.server.Appending? && s.kind.Connected? && b in Waiting(s)
    ensures b in Waiting(ServerApply(s, Append))
  {
    AppendWaiting(s);
  }

  lemma LostByServer(s: State, a: Action, p: Package)
    requires Ready(s) && ServerEnabled(s, a) && FrameInv(s.wire, Waiting(s)) && Alive(s) && Alive(ServerApply(s, a))
    requires Accounted(s, p)
    ensures Accounted(ServerApply(s, a), p)
  {
    var t := ServerApply(s, a);
    ServerFrame(s, a);
    assert t.Of(p.owner) == s.Of(p.owner);
    match a {
      case Append =>
        AppendWaiting(s);
        if Waits(s, p) {
          var i :| 0 <= i < |Waiting(s)| && Waiting(s)[i].pkg == p;
          AppendKeeps(s, Waiting(s)[i]);
          WaitsIn(t, Waiting(s)[i]);
        }
      case FlushHigh(r) =>
        if s.high == [] { ListDone(s, a); } else {
          FlushWaiting(s, a);
          if Waits(s, p) { LostByFlush(s, a, p); }
        }
      case FlushLow(r) =>
        if s.low == [] { ListDone(s, a); } else {
          FlushWaiting(s, a);
          if Waits(s, p) { LostByFlush(s, a, p); }
        }
      case TakeParked => ListMoves(s, a);
      case Raise => ListMoves(s, a);
      case FreeHigh =>
      case FreeLow =>
      case CloseFd =>
      case _ => QuietServer(s, a);
    }
  }

  lemma NothingLostByWorker(s: State, a: Action)
    requires Held(s) && NothingLost(s) && WorkerEnabled(s, a) && Alive(s)
    ensures NothingLost(WorkerApply(s, a))
  {
    var t := WorkerApply(s, a);
    LogGrows(s, a);
    forall k | 0 <= k < |t.log| ensures Accounted(t, t.log[k]) {
      if k < |s.log| {
        LostByWorker(s, a, s.log[k]);
      } else {
        assert t.Of(a.w) == Entry(t.log[k]);
      }
    }
  }

  lemma NothingLostByServer(s: State, a: Action)
    requires Ready(s) && FrameInv(s.wire, Waiting(s)) && NothingLost(s) && ServerEnabled(s, a) && Alive(s)
    ensures NothingLost(ServerApply(s, a))
  {
    var t := ServerApply(s, a);
    ServerFrame(s, a);
    if Alive(t) {
      forall k | 0 <= k < |t.log| ensures Accounted(t, t.log[k]) {
        LostByServer(s, a, s.log[k]);
      }
    }
  }

  lemma NothingLostKept(s: State, a: Action)
    requires Held(s) && FrameAll(s) && NothingLost(s) && Enabled(s, a)
    ensures NothingLost(Apply(s, a))
  {
    if Alive(Apply(s, a)) {
      if WorkerEnabled(s, a) {
        SameDiscarding(s, a);
        AliveStays(s, a);
        NothingLostByWorker(s, a);
      } else {
        AliveBefore(s, a);
        NothingLostByServer(s, a);
      }
    }
  }

  lemma AliveStays(s: State, a: Action)
    requires WorkerEnabled(s, a)
    ensures Alive(WorkerApply(s, a)) == Alive(s)
  {
  }

  lemma AliveBefore(s: State, a: Action)
    requires PcInv(s) && ServerEnabled(s, a) && Alive(ServerApply(s, a))
    ensures Alive(s)
  {
    if Discarding(s) { StaysDiscarded(s, a); }
  }

  // ----- every step keeps everything

  lemma InitHeld(tag: nat, interest: bool)
    ensures Held(Init(tag, interest))
  {
    var s := Init(tag, interest);
    assert PostingSet(s.workers) == {};
    forall w ensures WorkerKnows(s, w) {}
  }

  lemma InitStream(tag: nat, interest: bool)
    ensures var s := Init(tag, interest);
            OrderInv(s.wire, Waiting(s)) && LogInv(s) && FrameAll(s) && NothingLost(s) && NewestInv(s)
  {
    var s := Init(tag, interest);
    assert Waiting(s) == [] && s.wire == [];
    assert Present(s) == {};
  }

  lemma InitHolds(tag: nat, interest: bool)
    ensures Inv(Init(tag, interest))
  {
    InitHeld(tag, interest);
    InitStream(tag, interest);
    assert SizeInv(Init(tag, interest)) && InterestInv(Init(tag, interest));
  }

  lemma StepKeeps(s: State, a: Action)
    requires Inv(s) && Enabled(s, a)
    ensures Inv(Apply(s, a))
  {
    if WorkerEnabled(s, a) {
      LockKeptByWorker(s, a);
      ListKeptByWorker(s, a);
      forall w ensures WorkerKnows(WorkerApply(s, a), w) { KnowledgeKeptByWorker(s, a, w); }
      CountKeptByWorker(s, a);
      OrderKeptByWorker(s, a);
      FrameKeptByWorker(s, a);
      InterestKeptByWorker(s, a);
      SizeKeptByWorker(s, a);
    } else {
      LockKeptByServer(s, a);
      ListKeptByServer(s, a);
      forall w ensures WorkerKnows(ServerApply(s, a), w) { KnowledgeKeptByServer(s, a, w); }
      CountKeptByServer(s, a);
      OrderKeptByServer(s, a);
      FrameKeptByServer(s, a);
      InterestKeptByServer(s, a);
      SizeKeptByServer(s, a);
    }
    NewestKept(s, a);
    LogKept(s, a);
    NothingLostKept(s, a);
  }

  lemma SizeKeptByWorker(s: State, a: Action)
    requires SizeInv(s) && WorkerEnabled(s, a)
    ensures SizeInv(WorkerApply(s, a))
  {
  }

  lemma {:induction false} RunKeeps(s: State, run: seq<Action>)
    requires Inv(s) && Runs(s, run)
    ensures Inv(Final(s, run))
    decreases |run|
  {
    if run != [] {
      StepKeeps(s, run[0]);
      RunKeeps(Apply(s, run[0]), run[1..]);
    }
  }

  lemma Reached(tag: nat, interest: bool, run: seq<Action>)
    requires Runs(Init(tag, interest), run)
    ensures Inv(Final(Init(tag, interest), run))
  {
    InitHolds(tag, interest);
    RunKeeps(Init(tag, interest), run);
  }

  // ----- the theorems

  /** Until force_close discards the lists, the wire is whole packages, the last one possibly cut. */
  lemma WholePackagesOnTheWire(tag: nat, interest: bool, run: seq<Action>)
    requires Runs(Init(tag, interest), run)
    ensures var s := Final(Init(tag, interest), run);
            !Discarding(s) ==> Framed(s.wire)
  {
    Reached(tag, interest, run);
  }

  /** In every run the packages of one thread and priority reach the fd in call order, no byte twice. */
  lemma CallOrderOnTheWire(tag: nat, interest: bool, run: seq<Action>)
    requires Runs(Init(tag, interest), run)
    ensures var s := Final(Init(tag, interest), run);
            forall i :: 0 <= i < |s.wire| ==> s.wire[i].pkg.seqno < |s.log| && s.log[s.wire[i].pkg.seqno] == s.wire[i].pkg
    ensures var s := Final(Init(tag, interest), run);
            forall i, j :: 0 <= i < j < |s.wire| && SameClass(s.wire[i].pkg, s.wire[j].pkg) ==>
              s.wire[i].pkg.seqno < s.wire[j].pkg.seqno || (s.wire[i].pkg == s.wire[j].pkg && s.wire[i].off < s.wire[j].off)
  {
    Reached(tag, interest, run);
    var s := Final(Init(tag, interest), run);
    forall i | 0 <= i < |s.wire|
      ensures s.wire[i].pkg.seqno < |s.log| && s.log[s.wire[i].pkg.seqno] == s.wire[i].pkg
    {
      assert s.wire[i].pkg in Present(s);
    }
  }

  /** Both passed checks together leave no earlier package of the thread anywhere, and the fd is open. */
  lemma DoubleCheckSuffices(tag: nat, interest: bool, run: seq<Action>, w: nat)
    requires Runs(Init(tag, interest), run)
    requires Final(Init(tag, interest), run).Of(w).Writing?
    ensures var s := Final(Init(tag, interest), run);
            && !s.kind.Invalid? && s.parked.None? && s.lock == HeldByWorker(w)
            && (forall i :: 0 <= i < |Waiting(s)| && Waiting(s)[i].pkg.owner == w ==> Waiting(s)[i].pkg.priority.Low?)
            && (!Discarding(s) ==> Complete(s.wire))
  {
    Reached(tag, interest, run);
    var s := Final(Init(tag, interest), run);
    assert WorkerKnows(s, w);
    assert HoldsLock(s.Of(w)) <==> s.lock == HeldByWorker(w);
    NothingOfMineWaits(s, w);
  }

  /** While the socket is connected every package ever sent is in its thread's hand, waiting, or fully written. */
  lemma NothingLostWhileConnected(tag: nat, interest: bool, run: seq<Action>, k: nat)
    requires Runs(Init(tag, interest), run)
    requires var s := Final(Init(tag, interest), run); Alive(s) && k < |s.log|
    ensures var s := Final(Init(tag, interest), run);
            Accounted(s, s.log[k])
  {
    Reached(tag, interest, run);
  }

  /** The counters are exact, interest is on whenever something is to be written, and the asserts hold. */
  lemma CountersAndAsserts(tag: nat, interest: bool, run: seq<Action>)
    requires Runs(Init(tag, interest), run)
    ensures var s := Final(Init(tag, interest), run);
            && s.sending == s.tag * 0x1_0000 + InFlight(s) && InFlight(s) < 0x1_0000
            && (!Discarding(s) ==> s.wbSize == Unsent(s.high) + Unsent(s.low))
            && (!Discarding(s) && (s.high != [] || s.low != []) ==> s.interest)
            && (!Discarding(s) && s.parked.Some? && !s.interest ==> s.lock.HeldByWorker? && s.Of(s.lock.w).Watching?)
            // line 727, 706, 747, 1131
            && (s.server.FlushingHigh? && s.low != [] ==> s.low[0].off == 0)
            && (s.server.Raising? ==> s.high == [])
            && (s.server.Finishing? ==> s.high == [] && s.low == [] && s.wbSize == 0)
            && (s.server.Acking? ==> s.sending % 0x1_0000 != 0)
            // the socket thread flushes only an open fd
            && (FlushPc(s.server) ==> !s.kind.Invalid?)
  {
    Reached(tag, interest, run);
  }

  // ----- when exactly the framing breaks

  /** A direct write that starts while the wire ends inside a package. */
  predicate TornWrite(s: State, a: Action) {
    a.DirectWrite? && a.n > 0 && !Complete(s.wire)
  }

  /** A torn write needs force_close between freeing the lists and taking dw_lock. */
  lemma TornWriteOnlyBeforeTheLock(s: State, a: Action)
    requires Inv(s) && Enabled(s, a) && TornWrite(s, a)
    ensures Discarding(s) && !s.kind.Invalid? && (s.server == FreeingLow(false) || s.server == CloseLocking(false))
  {
    NothingOfMineWaits(s, a.w);
    assert WorkerKnows(s, a.w);
    assert HoldsLock(s.Of(a.w)) <==> s.lock == HeldByWorker(a.w);
  }

  lemma WorkerFraming(s: State, a: Action)
    requires Held(s) && WorkerEnabled(s, a)
    ensures Framed(WorkerApply(s, a).wire) <==> Framed(s.wire) && !TornWrite(s, a)
  {
    if a.DirectWrite? {
      ChunkFramed(s.wire, Buffer(s.Of(a.w).pkg, 0), a.n);
    } else {
      assert WorkerApply(s, a).wire == s.wire;
    }
  }

  lemma ServerFraming(s: State, a: Action)
    requires Ready(s) && FrameAll(s) && ServerEnabled(s, a)
    ensures Framed(ServerApply(s, a).wire) <==> Framed(s.wire)
  {
    if (a.FlushHigh? && s.high != []) || (a.FlushLow? && s.low != []) {
      assert !Discarding(s);
      FrameFlush(s, a);
    } else {
      assert ServerApply(s, a).wire == s.wire;
    }
  }

  lemma StepFraming(s: State, a: Action)
    requires Inv(s) && Enabled(s, a)
    ensures Framed(Apply(s, a).wire) <==> Framed(s.wire) && !TornWrite(s, a)
  {
    if WorkerEnabled(s, a) { WorkerFraming(s, a); } else { ServerFraming(s, a); }
  }

  lemma {:induction false} StaysTorn(s: State, run: seq<Action>)
    requires Inv(s) && Runs(s, run) && !Framed(s.wire)
    ensures !Framed(Final(s, run).wire)
    decreases |run|
  {
    if run != [] {
      StepFraming(s, run[0]);
      StepKeeps(s, run[0]);
      StaysTorn(Apply(s, run[0]), run[1..]);
    }
  }

  // The window: force_close without dw_lock has freed a partly sent head and not yet taken the lock.

  /** force_close starts to free the lists without the lock, and the head of the high list is partly sent. */
  predicate FreesPartlySent(s: State, a: Action) {
    a.FreeHigh? && s.server == FreeingHigh(false) && s.high != [] && s.high[0].off > 0
  }

  function WindowAfter(s: State, a: Action, open: bool): bool {
    if FreesPartlySent(s, a) then true else if a.CloseLock? then false else open
  }

  /** No direct write puts a byte on the fd while the window is open. */
  predicate WindowUnused(s: State, run: seq<Action>, open: bool)
    requires Runs(s, run)
    decreases |run|
  {
    run == [] ||
    (!(open && run[0].DirectWrite? && run[0].n > 0) &&
     WindowUnused(Apply(s, run[0]), run[1..], WindowAfter(s, run[0], open)))
  }

  /** force_close, called without the lock, has freed the high list and not yet taken the lock. */
  predicate Unlocked(s: State) { s.server == FreeingLow(false) || s.server == CloseLocking(false) }

  /** While the window is open the fd ends inside a package; while lists are freed without it, only a rest in hand does so. */
  predicate WindowInv(s: State, open: bool) {
    && (open ==> Unlocked(s) && !Complete(s.wire))
    && (!open && Unlocked(s) && Front(s) == [] ==> Complete(s.wire))
  }

  /** What the freed head says about the fd. */
  lemma WindowOpens(s: State)
    requires Held(s) && FrameAll(s) && s.server == FreeingHigh(false) && !s.kind.Invalid?
    ensures s.high != [] && s.high[0].off > 0 ==> !Complete(s.wire)
    ensures (s.high == [] || s.high[0].off == 0) && Front(s) == [] ==> Complete(s.wire)
  {
    var q := Waiting(s);
    var f := |Front(s)|;
    assert FrameInv(s.wire, q);
    if s.high != [] {
      assert q[f] == s.high[0];
    } else if Front(s) == [] && q != [] {
      RequestedFresh(s);
      assert q == s.low + Requested(s);
      assert q[0].off == 0;
    }
  }

  lemma RequestedFresh(s: State)
    ensures forall i :: 0 <= i < |Requested(s)| ==> Requested(s)[i].off == 0
  {
    PipeFresh(s.pipe);
  }

  /** How the socket thread comes to work on the lists without the lock, and how it stops. */
  lemma UnlockedSteps(s: State, a: Action)
    requires ServerEnabled(s, a)
    ensures Unlocked(ServerApply(s, a)) <==>
            (a.FreeHigh? && s.server == FreeingHigh(false)) || (a.FreeLow? && s.server == FreeingLow(false))
    ensures Unlocked(s) ==> a.FreeLow? || a.CloseLock?
    ensures a.FreeHigh? || a.FreeLow? ==> ServerApply(s, a).wire == s.wire && Front(ServerApply(s, a)) == Front(s)
  {
  }

  lemma WindowKeptByServer(s: State, a: Action, open: bool)
    requires Held(s) && FrameAll(s) && WindowInv(s, open) && ServerEnabled(s, a)
    ensures WindowInv(ServerApply(s, a), WindowAfter(s, a, open))
  {
    UnlockedSteps(s, a);
    if a.FreeHigh? && s.server == FreeingHigh(false) {
      assert !s.kind.Invalid?;
      WindowOpens(s);
    }
  }

  /** Only a direct write changes what waits in front of the lists: parking hands the rest on. */
  lemma FrontStays(s: State, a: Action)
    requires Held(s) && WorkerEnabled(s, a) && !a.DirectWrite?
    ensures WorkerApply(s, a).wire == s.wire && Front(WorkerApply(s, a)) == Front(s)
  {
    if !a.CallClose? {
      assert HoldsLock(s.Of(a.w)) <==> s.lock == HeldByWorker(a.w);
      assert WorkerKnows(s, a.w);
    }
  }

  lemma WindowKeptByWorker(s: State, a: Action, open: bool)
    requires Held(s) && WindowInv(s, open) && WorkerEnabled(s, a) && !(open && a.DirectWrite? && a.n > 0)
    ensures WindowInv(WorkerApply(s, a), open)
  {
    var t := WorkerApply(s, a);
    if a.DirectWrite? {
      var b := Buffer(s.Of(a.w).pkg, 0);
      DirectWriteWaiting(s, a);
      assert HoldsLock(s.Of(a.w)) <==> s.lock == HeldByWorker(a.w);
      if open {
        assert t.wire == s.wire;
      } else if Unlocked(s) {
        ChunkStops(s.wire, b, a.n);
      }
    } else {
      FrontStays(s, a);
    }
  }

  /** A direct write is torn exactly when it uses the window. */
  lemma TornInTheWindow(s: State, a: Action, open: bool)
    requires Inv(s) && WindowInv(s, open) && WorkerEnabled(s, a) && a.DirectWrite?
    ensures TornWrite(s, a) <==> open && a.n > 0
  {
    if TornWrite(s, a) {
      TornWriteOnlyBeforeTheLock(s, a);
      DirectWriteWaiting(s, a);
    }
  }

  lemma {:induction false} FramedIffWindowUnused(s: State, run: seq<Action>, open: bool)
    requires Inv(s) && WindowInv(s, open) && Framed(s.wire) && Runs(s, run)
    ensures Framed(Final(s, run).wire) <==> WindowUnused(s, run, open)
    decreases |run|
  {
    if run != [] {
      var a := run[0];
      StepFraming(s, a);
      StepKeeps(s, a);
      if WorkerEnabled(s, a) {
        if a.DirectWrite? { TornInTheWindow(s, a, open); }
        if open && a.DirectWrite? && a.n > 0 {
          StaysTorn(Apply(s, a), run[1..]);
          return;
        }
        WindowKeptByWorker(s, a, open);
      } else {
        WindowKeptByServer(s, a, open);
      }
      FramedIffWindowUnused(Apply(s, a), run[1..], WindowAfter(s, a, open));
    }
  }

  /**
   In every run the fd is framed if and only if no direct write writes a byte between the moment force_close,
   without the lock, frees a partly sent high head and the moment it takes the lock.
   */
  lemma WireFramedExactly(tag: nat, interest: bool, run: seq<Action>)
    requires Runs(Init(tag, interest), run)
    ensures Framed(Final(Init(tag, interest), run).wire) <==> WindowUnused(Init(tag, interest), run, false)
  {
    InitHolds(tag, interest);
    FramedIffWindowUnused(Init(tag, interest), run, false);
  }

  // ----- a run in which it does break

  lemma {:induction false} RunsOn(s: State, run: seq<Action>, more: seq<Action>)
    requires Runs(s, run) && Runs(Final(s, run), more)
    ensures Runs(s, run + more) && Final(s, run + more) == Final(Final(s, run), more)
    decreases |run|
  {
    if run == [] {
      assert run + more == more;
    } else {
      var a, rest := run[0], run[1..];
      RunsOn(Apply(s, a), rest, more);
      assert (run + more)[0] == a && (run + more)[1..] == rest + more;
    }
  }

  lemma One(s: State, a: Action)
    requires Enabled(s, a)
    ensures Runs(s, [a]) && Final(s, [a]) == Apply(s, a)
  {
    assert [a][1..] == [];
    assert Runs(Apply(s, a), []);
  }

  lemma Then(s: State, run: seq<Action>, a: Action)
    requires Runs(s, run) && Enabled(Final(s, run), a)
    ensures Runs(s, run + [a]) && Final(s, run + [a]) == Apply(Final(s, run), a)
  {
    One(Final(s, run), a);
    RunsOn(s, run, [a]);
  }

  predicate Quiescent(s: State) {
    s.high == [] && s.low == [] && s.parked.None? && s.sending % COUNT_BASE == 0 && s.kind.Connected?
  }

  /** Steps of a sending thread. */
  predicate Sends(run: seq<Action>) {
    forall i :: 0 <= i < |run| ==>
      run[i].CallSend? || run[i].Enter? || run[i].ReadField? || run[i].TryLock? || run[i].DirectWrite? ||
      run[i].Park? || run[i].Watch? || run[i].Release?
  }

  /** Five reads of can_direct_write on a socket with nothing to send. */
  lemma CheckPasses(s: State, w: nat, p: Package, locked: bool) returns (run: seq<Action>)
    requires Quiescent(s) && s.Of(w) == Checking(p, locked, HighHead)
    ensures Runs(s, run) && Sends(run) && Final(s, run) == s.Go(w, if locked then Writing(p) else Locking(p))
  {
    var r := ReadField(w);
    One(s, r);
    Then(s, [r], r);
    Then(s, [r] + [r], r);
    Then(s, [r] + [r] + [r], r);
    Then(s, [r] + [r] + [r] + [r], r);
    run := [r] + [r] + [r] + [r] + [r];
    assert Final(s, run).workers == s.workers[w := if locked then Writing(p) else Locking(p)];
  }

  /** A thread that finds nothing to send and a free lock reaches its direct write. */
  lemma DirectPath(s: State, w: nat, data: seq<bv8>) returns (run: seq<Action>)
    requires Quiescent(s) && s.lock.Free? && s.Of(w).Idle?
    ensures Runs(s, run) && Sends(run)
    ensures var p := Package(w, |s.log|, High, data);
            Final(s, run) == s.Go(w, Writing(p)).(log := s.log + [p], lock := HeldByWorker(w))
  {
    var p := Package(w, |s.log|, High, data);
    var call := CallSend(w, High, data);
    One(s, call);
    Then(s, [call], Enter(w));
    run := [call] + [Enter(w)];
    var s1 := Final(s, run);
    var first := CheckPasses(s1, w, p, false);
    RunsOn(s, run, first);
    run := run + first;
    Then(s, run, TryLock(w));
    run := run + [TryLock(w)];
    var s2 := Final(s, run);
    var second := CheckPasses(s2, w, p, true);
    RunsOn(s, run, second);
    run := run + second;
    assert Final(s, run).workers == s.workers[w := Writing(p)];
  }

  const FIRST := Package(0, 0, High, [1, 2])
  const SECOND := Package(1, 1, High, [3])

  /** The writer of a partly accepted direct write parks the rest and leaves. */
  lemma ParkPath(s: State, w: nat, n: nat) returns (run: seq<Action>)
    requires s.Of(w).Writing? && n < |s.Of(w).pkg.data|
    ensures Runs(s, run) && Sends(run)
    ensures var p := s.Of(w).pkg;
            Final(s, run) == s.Go(w, Idle).(wire := s.wire + Chunk(Buffer(p, 0), n), parked := Some(Buffer(p, n)),
                                            interest := true, lock := Free)
  {
    One(s, DirectWrite(w, n));
    run := [DirectWrite(w, n)];
    Then(s, run, Park(w));
    run := run + [Park(w)];
    Then(s, run, Watch(w));
    run := run + [Watch(w)];
    Then(s, run, Release(w));
    run := run + [Release(w)];
    assert Final(s, run).workers == s.workers[w := Idle];
  }

  /** A flush that would block only moves the parked rest to the head of the high list. */
  lemma BlockedFlush(s: State, b: Buffer) returns (run: seq<Action>)
    requires s.server.Polling? && s.kind.Connected? && s.lock.Free? && s.parked == Some(b)
    ensures Runs(s, run)
    ensures Final(s, run) == s.(high := [b] + s.high, parked := None, wbSize := s.wbSize + b.Rest())
  {
    One(s, WriteEvent);
    var s1 := s.(server := FlushLocking(ToPoll));
    assert Apply(s, WriteEvent) == s1;
    Then(s, [WriteEvent], FlushLock);
    var s2 := s.(server := TakingParked(ToPoll), lock := HeldByServer);
    assert Apply(s1, FlushLock) == s2;
    var rest := TakeAndBlock(s2, b);
    run := [WriteEvent] + [FlushLock];
    RunsOn(s, run, rest);
    run := run + rest;
  }

  lemma TakeAndBlock(s: State, b: Buffer) returns (run: seq<Action>)
    requires s.server == TakingParked(ToPoll) && s.lock.HeldByServer? && s.parked == Some(b)
    ensures Runs(s, run)
    ensures Final(s, run) == s.(high := [b] + s.high, parked := None, wbSize := s.wbSize + b.Rest(), lock := Free, server := Polling)
  {
    One(s, TakeParked);
    var s1 := s.(high := [b] + s.high, parked := None, wbSize := s.wbSize + b.Rest(), server := FlushingHigh(ToPoll));
    assert Apply(s, TakeParked) == s1;
    Then(s, [TakeParked], FlushHigh(WouldBlock));
    var s2 := s1.(server := Unlocking(ToPoll));
    assert Apply(s1, FlushHigh(WouldBlock)) == s2;
    Then(s, [TakeParked] + [FlushHigh(WouldBlock)], FlushUnlock);
    run := [TakeParked] + [FlushHigh(WouldBlock)] + [FlushUnlock];
  }

  /** One byte of a two-byte package is written; the rest reaches the head of the high list. */
  lemma HalfSent() returns (run: seq<Action>)
    ensures Runs(Init(0, false), run)
    ensures var s := Final(Init(0, false), run);
            && s.high == [Buffer(FIRST, 1)] && s.low == [] && s.parked.None? && s.sending == 0 && s.kind.Connected?
            && s.lock.Free? && s.server.Polling? && s.Of(1).Idle? && s.log == [FIRST] && s.wire == [WireByte(FIRST, 0)]
  {
    var s := Init(0, false);
    run := DirectPath(s, 0, FIRST.data);
    var more := ParkPath(Final(s, run), 0, 1);
    RunsOn(s, run, more);
    run := run + more;
    assert Final(s, run).wire == [WireByte(FIRST, 0)];
    more := BlockedFlush(Final(s, run), Buffer(FIRST, 1));
    RunsOn(s, run, more);
    run := run + more;
  }

  /** The peer hangs up; before force_close takes dw_lock another thread writes after the torn package. */
  lemma TornWriteHappens() returns (run: seq<Action>)
    ensures Runs(Init(0, false), run)
    ensures Final(Init(0, false), run).wire == [WireByte(FIRST, 0), WireByte(SECOND, 0)]
    ensures Final(Init(0, false), run).kind.Connected? && !Framed(Final(Init(0, false), run).wire)
  {
    var s := Init(0, false);
    run := HalfSent();
    Then(s, run, HangUp);
    run := run + [HangUp];
    Then(s, run, FreeHigh);
    run := run + [FreeHigh];
    var s1 := Final(s, run);
    var path := DirectPath(s1, 1, [3]);
    RunsOn(s, run, path);
    run := run + path;
    Then(s, run, DirectWrite(1, 1));
    run := run + [DirectWrite(1, 1)];
    var w := Final(s, run).wire;
    assert w == [WireByte(FIRST, 0), WireByte(SECOND, 0)];
    assert w[..1] == [WireByte(FIRST, 0)] && !Complete(w[..1]);
    assert w[1].off == 0 && !JoinsAt(w, 1);
  }
}
