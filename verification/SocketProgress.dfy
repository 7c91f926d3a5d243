/**
 A flush that meets no resistance: everything that waits is written, in order, and a half-closed socket closes.
 */
module SocketProgress {
  import opened Basics
  import opened WriteStream
  import opened SocketServer
  import opened SocketInvariant
  import opened SocketOrder
  import opened SocketTheorems

  /** The bytes that are still to be written. */
  function Bytes(q: seq<Buffer>): seq<WireByte> {
    if q == [] then [] else Chunk(q[0], Left(q[0])) + Bytes(q[1..])
  }

  function Left(b: Buffer): nat { if b.Rest() >= 0 then b.Rest() else 0 }

  lemma Joined(a: seq<WireByte>, b: seq<WireByte>, c: seq<WireByte>)
    ensures a + b + c == a + (b + c)
  {
  }

  predicate Sound(q: seq<Buffer>) { forall i :: 0 <= i < |q| ==> q[i].off <= |q[i].pkg.data| }

  lemma {:induction false} BytesConcat(a: seq<Buffer>, b: seq<Buffer>)
    ensures Bytes(a + b) == Bytes(a) + Bytes(b)
  {
    if a == [] {
      assert a + b == b;
    } else {
      BytesConcat(a[1..], b);
      assert (a + b)[0] == a[0] && (a + b)[1..] == a[1..] + b;
      Joined(Chunk(a[0], Left(a[0])), Bytes(a[1..]), Bytes(b));
    }
  }

  lemma HighHeadOut(s: State) returns (t: State)
    requires s.server.FlushingHigh? && Sound(s.high) && s.high != []
    ensures var b := s.high[0];
            && t == s.(wire := s.wire + Chunk(b, Left(b)), wbSize := s.wbSize - b.Rest(), high := s.high[1..])
            && Enabled(s, FlushHigh(Wrote(Left(b)))) && Apply(s, FlushHigh(Wrote(Left(b)))) == t && Sound(t.high)
  {
    var b := s.high[0];
    t := s.(wire := s.wire + Chunk(b, Left(b)), wbSize := s.wbSize - b.Rest(), high := s.high[1..]);
  }

  lemma {:induction false} HighOut(s: State) returns (run: seq<Action>)
    requires s.server.FlushingHigh? && Sound(s.high)
    ensures Runs(s, run)
    ensures Final(s, run) == s.(wire := s.wire + Bytes(s.high), wbSize := s.wbSize - Unsent(s.high), high := [],
                                server := FlushingLow(s.server.after))
    decreases |s.high|
  {
    if s.high == [] {
      run := [FlushHigh(WouldBlock)];
      One(s, FlushHigh(WouldBlock));
      assert s.wire + [] == s.wire;
    } else {
      var a := FlushHigh(Wrote(Left(s.high[0])));
      var t := HighHeadOut(s);
      var more := HighOut(t);
      One(s, a);
      RunsOn(s, [a], more);
      run := [a] + more;
      Joined(s.wire, Chunk(s.high[0], Left(s.high[0])), Bytes(t.high));
    }
  }

  lemma LowHeadOut(s: State) returns (t: State)
    requires s.server.FlushingLow? && Sound(s.low) && s.low != []
    ensures var b := s.low[0];
            && t == s.(wire := s.wire + Chunk(b, Left(b)), wbSize := s.wbSize - b.Rest(), low := s.low[1..])
            && Enabled(s, FlushLow(Wrote(Left(b)))) && Apply(s, FlushLow(Wrote(Left(b)))) == t && Sound(t.low)
  {
    var b := s.low[0];
    t := s.(wire := s.wire + Chunk(b, Left(b)), wbSize := s.wbSize - b.Rest(), low := s.low[1..]);
  }

  lemma {:induction false} LowOut(s: State) returns (run: seq<Action>)
    requires s.server.FlushingLow? && Sound(s.low)
    ensures Runs(s, run)
    ensures Final(s, run) == s.(wire := s.wire + Bytes(s.low), wbSize := s.wbSize - Unsent(s.low), low := [],
                                server := Finishing(s.server.after))
    decreases |s.low|
  {
    if s.low == [] {
      run := [FlushLow(WouldBlock)];
      One(s, FlushLow(WouldBlock));
      assert s.wire + [] == s.wire;
    } else {
      var a := FlushLow(Wrote(Left(s.low[0])));
      var t := LowHeadOut(s);
      var more := LowOut(t);
      One(s, a);
      RunsOn(s, [a], more);
      run := [a] + more;
      Joined(s.wire, Chunk(s.low[0], Left(s.low[0])), Bytes(t.low));
    }
  }

  /** The socket thread is in poll, nobody holds the lock, and the fd is open. */
  predicate AtPoll(s: State) { s.server.Polling? && s.lock.Free? && !s.kind.Invalid? }

  /** From the start of send_buffer to the two lists. */
  lemma FlushStarts(s: State, after: After) returns (run: seq<Action>)
    requires s.server == FlushLocking(after) && s.lock.Free?
    ensures Runs(s, run)
    ensures var parked := ParkedBuffers(s.parked);
            Final(s, run) == s.(server := FlushingHigh(after), lock := HeldByServer, high := parked + s.high, parked := None,
                                wbSize := s.wbSize + Unsent(parked))
  {
    run := [];
    Then(s, run, FlushLock);
    run := run + [FlushLock];
    assert Final(s, run) == s.(server := TakingParked(after), lock := HeldByServer);
    Then(s, run, TakeParked);
    run := run + [TakeParked];
    assert [] + s.high == s.high;
    if s.parked.Some? { assert Unsent([s.parked.value]) == s.parked.value.Rest() + Unsent([s.parked.value][1..]); }
  }

  /** What the flush leaves: nothing, and everything that waited on the fd in the order of the lists. */
  lemma FlushEnds(s: State) returns (run: seq<Action>)
    requires s.server.FlushingHigh? && s.lock.HeldByServer? && Sound(s.high) && Sound(s.low)
    ensures Runs(s, run)
    ensures var t := Final(s, run);
            && t.wire == s.wire + Bytes(s.high) + Bytes(s.low) && t.high == [] && t.low == [] && !t.interest
            && t.parked == s.parked && t.kind == s.kind && t.lock.HeldByServer?
            && t.server == if s.kind.HalfClose? then FreeingHigh(true) else Unlocking(s.server.after)
  {
    run := HighOut(s);
    var more := LowOut(Final(s, run));
    RunsOn(s, run, more);
    run := run + more;
    Then(s, run, Finish);
    run := run + [Finish];
  }

  predicate AllSound(s: State) { Sound(s.high) && Sound(s.low) && Sound(ParkedBuffers(s.parked)) }

  /** The bytes of everything that waits on this side of the pipe. */
  function Rest(s: State): seq<WireByte> { Bytes(ParkedBuffers(s.parked) + s.high + s.low) }

  /** Everything that waited has been written, and nothing else. */
  predicate Flushed(s: State, t: State) {
    t.wire == s.wire + Rest(s) && t.high == [] && t.low == [] && t.parked.None? && !t.interest
  }

  lemma FlushPath(s: State, after: After) returns (run: seq<Action>)
    requires s.server == FlushLocking(after) && s.lock.Free? && AllSound(s)
    ensures Runs(s, run)
    ensures var t := Final(s, run);
            && Flushed(s, t) && t.lock.HeldByServer? && t.kind == s.kind
            && t.server == if s.kind.HalfClose? then FreeingHigh(true) else Unlocking(after)
  {
    run := FlushStarts(s, after);
    var t := Final(s, run);
    var more := FlushEnds(t);
    RunsOn(s, run, more);
    run := run + more;
    BytesConcat(ParkedBuffers(s.parked) + s.high, s.low);
    Joined(s.wire, Bytes(ParkedBuffers(s.parked) + s.high), Bytes(s.low));
  }

  lemma Frees(s: State) returns (run: seq<Action>)
    requires s.server.FreeingHigh? && (if s.server.locked then s.lock.HeldByServer? else s.lock.Free?)
    ensures Runs(s, run)
    ensures Final(s, run) == s.(high := [], low := [], interest := false, lock := HeldByServer, server := ClosingFd)
  {
    run := [];
    Then(s, run, FreeHigh);
    run := run + [FreeHigh];
    Then(s, run, FreeLow);
    run := run + [FreeLow];
    Then(s, run, CloseLock);
    run := run + [CloseLock];
  }

  lemma ForcedClose(s: State) returns (run: seq<Action>)
    requires s.server.FreeingHigh? && (if s.server.locked then s.lock.HeldByServer? else s.lock.Free?)
    ensures Runs(s, run)
    ensures var t := Final(s, run);
            && t.wire == s.wire && t.kind.Invalid? && t.server.Polling? && !t.interest
            && t.high == [] && t.low == [] && t.parked.None?
  {
    run := Frees(s);
    Then(s, run, CloseFd);
    run := run + [CloseFd];
    Then(s, run, FlushUnlock);
    run := run + [FlushUnlock];
  }

  lemma WaitingSound(wire: seq<WireByte>, q: seq<Buffer>)
    requires FrameInv(wire, q)
    ensures Sound(q)
  {
    forall i | 0 <= i < |q| ensures q[i].off <= |q[i].pkg.data| {
      if i == 0 { assert Resumes(wire, q[0]); }
    }
  }

  lemma PartsSound(a: seq<Buffer>, b: seq<Buffer>, c: seq<Buffer>, d: seq<Buffer>)
    requires Sound(a + b + c + d)
    ensures Sound(a) && Sound(b) && Sound(c)
  {
    var q := a + b + c + d;
    assert forall i :: 0 <= i < |a| ==> q[i] == a[i];
    assert forall i :: 0 <= i < |b| ==> q[|a| + i] == b[i];
    assert forall i :: 0 <= i < |c| ==> q[|a| + |b| + i] == c[i];
  }

  /** Everything in the lists and parked is sound. */
  lemma ReachedSound(s: State)
    requires FrameAll(s) && AtPoll(s)
    ensures AllSound(s)
  {
    assert !Discarding(s);
    WaitingSound(s.wire, Waiting(s));
    PartsSound(Front(s), s.high, s.low, Requested(s));
    assert Front(s) == ParkedBuffers(s.parked);
  }

  lemma FlushAndClose(s: State) returns (run: seq<Action>)
    requires s.server.FlushLocking? && s.lock.Free? && s.kind.HalfClose? && AllSound(s)
    ensures Runs(s, run) && Flushed(s, Final(s, run)) && Final(s, run).kind.Invalid? && Final(s, run).server.Polling?
  {
    run := FlushPath(s, s.server.after);
    var more := ForcedClose(Final(s, run));
    RunsOn(s, run, more);
    run := run + more;
  }

  lemma FlushAndGo(s: State) returns (run: seq<Action>)
    requires s.server.FlushLocking? && s.lock.Free? && !s.kind.HalfClose? && AllSound(s)
    ensures Runs(s, run) && Flushed(s, Final(s, run)) && Final(s, run).kind == s.kind && Final(s, run).lock.Free?
    ensures Final(s, run).server == Continue(s.server.after)
  {
    run := FlushPath(s, s.server.after);
    Then(s, run, FlushUnlock);
    run := run + [FlushUnlock];
  }

  /**
   From every reachable state in which the socket thread polls and nobody holds the lock, a write event can write
   everything that is parked or in the lists, in this order and nothing else; a half-closed socket is then closed.
   */
  lemma EverythingCanBeWritten(tag: nat, interest: bool, before: seq<Action>) returns (run: seq<Action>)
    requires Runs(Init(tag, interest), before) && AtPoll(Final(Init(tag, interest), before))
    ensures var s := Final(Init(tag, interest), before);
            && Runs(s, run) && Flushed(s, Final(s, run)) && Final(s, run).server.Polling?
            && Final(s, run).kind == if s.kind.HalfClose? then Invalid else s.kind
  {
    var s := Final(Init(tag, interest), before);
    Reached(tag, interest, before);
    ReachedSound(s);
    One(s, WriteEvent);
    var t := s.(server := FlushLocking(ToPoll));
    if s.kind.HalfClose? { run := FlushAndClose(t); } else { run := FlushAndGo(t); }
    RunsOn(s, [WriteEvent], run);
    run := [WriteEvent] + run;
  }

  // ----- a close writes what waits

  function Rank(f: Field): nat {
    match f
    case HighHead => 4
    case LowHead => 3
    case Parked => 2
    case SendingCount => 1
    case TypeField => 0
  }

  predicate PassesFrom(s: State, f: Field) {
    && (Rank(f) >= 4 ==> s.high == [])
    && (Rank(f) >= 3 ==> s.low == [])
    && (Rank(f) >= 2 ==> s.parked.None?)
    && (Rank(f) >= 1 ==> s.sending % COUNT_BASE == 0)
  }

  /** The reads of close_socket, undisturbed, find out whether there is anything to send. */
  lemma {:induction false} CloseReads(s: State, shutdown: bool, second: bool, f: Field) returns (run: seq<Action>)
    requires s.server == CloseCheck(shutdown, second, f)
    ensures Runs(s, run)
    ensures Final(s, run) == (
              if PassesFrom(s, f) then s.(server := AfterCloseCheck(shutdown, second, true))
              else if second then s.(kind := HalfClose, server := Polling)
              else s.(server := AfterCloseCheck(shutdown, false, false)))
    decreases Rank(f)
  {
    One(s, CloseRead);
    run := [CloseRead];
    if f != TypeField && Passes(s, f) {
      var more := CloseReads(Apply(s, CloseRead), shutdown, second, NextField(f));
      RunsOn(s, run, more);
      run := run + more;
    }
  }

  /** The rest of a close when nothing waits any more. */
  lemma CloseEmpty(s: State, shutdown: bool) returns (run: seq<Action>)
    requires s.server == CloseAgain(shutdown) && s.lock.Free?
    requires s.high == [] && s.low == [] && s.parked.None?
    ensures Runs(s, run)
    ensures var t := Final(s, run);
            && t.wire == s.wire && t.server.Polling? && t.high == [] && t.low == [] && t.parked.None?
            && (if shutdown || s.sending % COUNT_BASE == 0 then t.kind.Invalid? else t.kind.HalfClose?)
  {
    if shutdown {
      run := ForcedClose(s);
    } else {
      run := CloseReads(s, shutdown, true, HighHead);
      if s.sending % COUNT_BASE == 0 {
        var more := ForcedClose(Final(s, run));
        RunsOn(s, run, more);
        run := run + more;
      }
    }
  }

  lemma CloseFlush(s: State, shutdown: bool) returns (run: seq<Action>)
    requires s.server == FlushLocking(ToClose(shutdown)) && s.lock.Free? && AllSound(s)
    ensures Runs(s, run)
    ensures var t := Final(s, run);
            && t.wire == s.wire + Rest(s) && t.server.Polling? && t.high == [] && t.low == [] && t.parked.None?
            && (if shutdown then t.kind.Invalid? else !t.kind.Connected?)
  {
    if s.kind.HalfClose? {
      run := FlushAndClose(s);
    } else {
      run := FlushAndGo(s);
      var more := CloseEmpty(Final(s, run), shutdown);
      RunsOn(s, run, more);
      run := run + more;
    }
  }

  lemma NothingRests(s: State)
    requires s.high == [] && s.low == [] && s.parked.None?
    ensures s.wire + Rest(s) == s.wire
  {
    assert ParkedBuffers(s.parked) + s.high + s.low == [];
  }

  /**
   From every reachable state in which the socket thread is about to take up a close request and nobody holds the
   lock, the close can write everything that is parked or in the lists before it closes; with shutdown, and with no
   request under way, the fd is then closed, otherwise at least half.
   */
  lemma CloseCanWriteEverything(tag: nat, interest: bool, before: seq<Action>, shutdown: bool) returns (run: seq<Action>)
    requires Runs(Init(tag, interest), before) && AtPoll(Final(Init(tag, interest), before))
    requires var s := Final(Init(tag, interest), before); s.pipe != [] && s.pipe[0] == CloseRequest(shutdown)
    ensures var s := Final(Init(tag, interest), before);
            && Runs(s, [PopRequest] + run)
            && var t := Final(s, [PopRequest] + run);
            && t.wire == s.wire + Rest(s) && t.server.Polling? && t.high == [] && t.low == [] && t.parked.None?
            && (if shutdown then t.kind.Invalid? else !t.kind.Connected?)
  {
    var s := Final(Init(tag, interest), before);
    Reached(tag, interest, before);
    ReachedSound(s);
    var t := Apply(s, PopRequest);
    One(s, PopRequest);
    run := CloseReads(t, shutdown, false, HighHead);
    var more: seq<Action>;
    if PassesFrom(t, HighHead) {
      NothingRests(s);
      more := CloseEmpty(Final(t, run), shutdown);
    } else {
      more := CloseFlush(Final(t, run), shutdown);
    }
    RunsOn(t, run, more);
    run := run + more;
    RunsOn(s, [PopRequest], run);
  }

  // ----- a send on an idle socket

  /**
   From every reachable state with nothing to send and a free lock, a high priority send that is not disturbed writes
   its package itself, takes nothing else along and leaves as it came.
   */
  lemma IdleSocketWritesAtOnce(tag: nat, interest: bool, before: seq<Action>, w: nat, data: seq<bv8>)
    returns (run: seq<Action>)
    requires Runs(Init(tag, interest), before)
    requires var s := Final(Init(tag, interest), before); Quiescent(s) && s.lock.Free? && s.Of(w).Idle?
    ensures var s := Final(Init(tag, interest), before);
            var p := Package(w, |s.log|, High, data);
            && Runs(s, run)
            && Final(s, run) == s.Go(w, Idle).(log := s.log + [p], wire := s.wire + Chunk(Buffer(p, 0), |data|))
  {
    var s := Final(Init(tag, interest), before);
    run := DirectPath(s, w, data);
    Then(s, run, DirectWrite(w, |data|));
    run := run + [DirectWrite(w, |data|)];
    Then(s, run, Release(w));
    run := run + [Release(w)];
    assert Final(s, run).workers == s.workers[w := Idle];
  }

  // ----- interrupted writes

  predicate IsInterrupted(s: State, a: Action) {
    (a.FlushHigh? && a.r.Interrupted? && s.high != []) || (a.FlushLow? && a.r.Interrupted? && s.low != [])
  }

  function WithoutInterrupts(s: State, run: seq<Action>): seq<Action>
    requires Runs(s, run)
    decreases |run|
  {
    if run == [] then []
    else (if IsInterrupted(s, run[0]) then [] else [run[0]]) + WithoutInterrupts(Apply(s, run[0]), run[1..])
  }

  /** A write that is interrupted by a signal is as if it had not been tried. */
  lemma {:induction false} InterruptsDoNotMatter(s: State, run: seq<Action>)
    requires Runs(s, run)
    ensures Runs(s, WithoutInterrupts(s, run)) && Final(s, WithoutInterrupts(s, run)) == Final(s, run)
    decreases |run|
  {
    if run != [] {
      var a, t := run[0], Apply(s, run[0]);
      var rest := WithoutInterrupts(t, run[1..]);
      InterruptsDoNotMatter(t, run[1..]);
      if IsInterrupted(s, a) {
        assert [] + rest == rest;
      } else {
        One(s, a);
        RunsOn(s, [a], rest);
      }
    }
  }
}
