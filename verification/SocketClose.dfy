/**
 What a close without shutdown loses: nothing from the lists, and a parked rest only when a direct write parks it
 behind the back of the test in close_socket.
 */
module SocketClose {
  import opened Basics
  import opened WriteStream
  import opened SocketServer
  import opened SocketInvariant
  import opened SocketOrder
  import opened SocketTheorems

  /** No hang-up, no failing write, no close with shutdown. */
  predicate Gentle(a: Action) {
    && !a.HangUp? && a != CallClose(true)
    && !(a.FlushHigh? && a.r.Failed?) && !(a.FlushLow? && a.r.Failed?)
  }

  predicate AllGentle(run: seq<Action>) { forall i :: 0 <= i < |run| ==> Gentle(run[i]) }

  /** The second test of close_socket reads dw_buffer, or a flush has emptied everything: nothing is parked. */
  predicate SeesNoneParked(s: State, a: Action) {
    (a.CloseRead? && s.server.CloseCheck? && s.server.second && s.server.next == Parked) || a.Finish?
  }

  /** Whether a direct write has parked a rest since. */
  function ParkedAfter(s: State, a: Action, late: bool): bool {
    if SeesNoneParked(s, a) then false else if a.Park? then true else late
  }

  function ParkedLate(s: State, run: seq<Action>, late: bool): bool
    requires Runs(s, run)
    decreases |run|
  {
    if run == [] then late else ParkedLate(Apply(s, run[0]), run[1..], ParkedAfter(s, run[0], late))
  }

  // ----- what every gentle step keeps

  predicate NoShutdownAfter(after: After) { after == ToPoll || after == ToClose(false) }

  predicate NoShutdown(pc: Server) {
    match pc
    case CloseCheck(shutdown, _, _) => !shutdown
    case FlushLocking(after) => NoShutdownAfter(after)
    case TakingParked(after) => NoShutdownAfter(after)
    case FlushingHigh(after) => NoShutdownAfter(after)
    case FlushingLow(after) => NoShutdownAfter(after)
    case Raising(after) => NoShutdownAfter(after)
    case Finishing(after) => NoShutdownAfter(after)
    case Unlocking(after) => NoShutdownAfter(after)
    case _ => true
  }

  predicate GentleRequests(pipe: seq<Request>) { forall i :: 0 <= i < |pipe| ==> pipe[i] != CloseRequest(true) }

  /** The test has passed the read of dw_buffer, or the close is under way. */
  predicate Decided(pc: Server) {
    || (pc.CloseCheck? && pc.second && pc.next in {SendingCount, TypeField})
    || pc.FreeingHigh? || pc.FreeingLow? || pc.CloseLocking? || pc.ClosingFd?
  }

  predicate CloseInv(s: State, late: bool) {
    && NoShutdown(s.server) && GentleRequests(s.pipe)
    && (s.server.CloseCheck? && s.server.second && s.server.next != HighHead ==> s.high == [])
    && (s.server.CloseCheck? && s.server.second && s.server.next !in {HighHead, LowHead} ==> s.low == [])
    && (s.server.FreeingHigh? || s.server.FreeingLow? ==> s.high == [] && s.low == [])
    && (Decided(s.server) ==> (s.parked.Some? <==> late))
  }

  lemma CloseByWorker(s: State, a: Action, late: bool)
    requires WorkerEnabled(s, a) && Gentle(a) && CloseInv(s, late) && LockInv(s) && WorkerInv(s)
    ensures CloseInv(WorkerApply(s, a), ParkedAfter(s, a, late))
  {
    if a.Park? { assert WorkerKnows(s, a.w); }
  }

  lemma CloseByFlush(s: State, a: Action, late: bool)
    requires ServerEnabled(s, a) && Gentle(a) && CloseInv(s, late) && (a.FlushHigh? || a.FlushLow?)
    ensures CloseInv(ServerApply(s, a), late)
  {
    var t := ServerApply(s, a);
    assert t.pipe == s.pipe && t.parked == s.parked;
    assert t.server.FlushingHigh? || t.server.FlushingLow? || t.server.Raising? || t.server.Finishing? || t.server.Unlocking?;
  }

  lemma CloseByPop(s: State, late: bool)
    requires ServerEnabled(s, PopRequest) && CloseInv(s, late)
    ensures CloseInv(ServerApply(s, PopRequest), late)
  {
    assert s.pipe[0] != CloseRequest(true);
  }

  lemma CloseByOther(s: State, a: Action, late: bool)
    requires ServerEnabled(s, a) && Gentle(a) && CloseInv(s, late) && PcInv(s)
    requires !a.FlushHigh? && !a.FlushLow? && !a.PopRequest? && !a.CloseRead?
    ensures CloseInv(ServerApply(s, a), ParkedAfter(s, a, late))
  {
    var t := ServerApply(s, a);
    assert t.pipe == s.pipe;
    if a.Finish? {
    } else if a.FlushUnlock? || a.FlushLock? {
    } else if a.FreeHigh? || a.FreeLow? || a.CloseLock? || a.CloseFd? {
    } else {
    }
  }

  lemma CloseByServer(s: State, a: Action, late: bool)
    requires ServerEnabled(s, a) && Gentle(a) && CloseInv(s, late) && PcInv(s)
    ensures CloseInv(ServerApply(s, a), ParkedAfter(s, a, late))
  {
    match a {
      case CloseRead => CloseByRead(s, late);
      case PopRequest => CloseByPop(s, late);
      case FlushHigh(r) => CloseByFlush(s, a, late);
      case FlushLow(r) => CloseByFlush(s, a, late);
      case _ => CloseByOther(s, a, late);
    }
  }

  lemma CloseByRead(s: State, late: bool)
    requires ServerEnabled(s, CloseRead) && CloseInv(s, late) && PcInv(s)
    ensures CloseInv(ServerApply(s, CloseRead), ParkedAfter(s, CloseRead, late))
  {
    match s.server.next
    case HighHead =>
    case LowHead =>
    case Parked =>
    case SendingCount =>
    case TypeField =>
  }

  lemma {:induction false} CloseReached(s: State, run: seq<Action>, late: bool)
    requires Inv(s) && Runs(s, run) && AllGentle(run) && CloseInv(s, late)
    ensures Inv(Final(s, run)) && CloseInv(Final(s, run), ParkedLate(s, run, late))
    decreases |run|
  {
    if run != [] {
      var a := run[0];
      assert Gentle(a);
      StepKeeps(s, a);
      if WorkerEnabled(s, a) { CloseByWorker(s, a, late); } else { CloseByServer(s, a, late); }
      CloseReached(Apply(s, a), run[1..], ParkedAfter(s, a, late));
    }
  }

  lemma AtTheFree(s: State, a: Action, late: bool)
    requires Enabled(s, a) && CloseInv(s, late) && PcInv(s)
    ensures a.FreeHigh? ==> s.high == []
    ensures a.FreeLow? ==> s.low == []
    ensures a.CloseFd? ==> s.high == [] && s.low == [] && (s.parked.Some? <==> late)
  {
  }

  /**
   In every run without a hang-up, a failing write or a close with shutdown: freeing the lists drops nothing, and closing
   the fd drops a parked rest if and only if a direct write parked it after the test in close_socket had read dw_buffer.
   */
  lemma GentleCloseKeepsData(tag: nat, interest: bool, run: seq<Action>, a: Action)
    requires Runs(Init(tag, interest), run) && AllGentle(run) && Enabled(Final(Init(tag, interest), run), a)
    ensures var s := Final(Init(tag, interest), run);
            && (a.FreeHigh? ==> s.high == [])
            && (a.FreeLow? ==> s.low == [])
            && (a.CloseFd? ==> s.high == [] && s.low == [] && (s.parked.Some? <==> ParkedLate(Init(tag, interest), run, false)))
  {
    InitHolds(tag, interest);
    CloseReached(Init(tag, interest), run, false);
    AtTheFree(Final(Init(tag, interest), run), a, ParkedLate(Init(tag, interest), run, false));
  }

  // ----- a run in which it happens

  lemma SendsAreGentle(run: seq<Action>)
    requires Sends(run)
    ensures AllGentle(run)
  {
  }

  /** The socket thread between two reads of the close test. */
  lemma ReadPasses(s: State, f: Field, second: bool)
    requires s.server == CloseCheck(false, second, f) && f != TypeField && Passes(s, f)
    ensures Enabled(s, CloseRead) && Apply(s, CloseRead) == s.(server := CloseCheck(false, second, NextField(f)))
  {
  }

  /** The first reads of the test on a socket with nothing to send. */
  lemma ThreeReads(s: State, second: bool) returns (run: seq<Action>)
    requires s.server == CloseCheck(false, second, HighHead) && s.high == [] && s.low == [] && s.parked.None?
    ensures Runs(s, run) && AllGentle(run) && Final(s, run) == s.(server := CloseCheck(false, second, SendingCount))
  {
    run := [];
    ReadPasses(s, HighHead, second);
    Then(s, run, CloseRead);
    run := run + [CloseRead];
    ReadPasses(Final(s, run), LowHead, second);
    Then(s, run, CloseRead);
    run := run + [CloseRead];
    ReadPasses(Final(s, run), Parked, second);
    Then(s, run, CloseRead);
    run := run + [CloseRead];
  }

  /** The last read and the decision. */
  lemma LastReads(s: State, second: bool) returns (run: seq<Action>)
    requires s.server == CloseCheck(false, second, SendingCount) && s.sending % COUNT_BASE == 0
    ensures Runs(s, run) && AllGentle(run)
    ensures Final(s, run) == s.(server := if second then FreeingHigh(false) else CloseCheck(false, true, HighHead))
  {
    run := [];
    ReadPasses(s, SendingCount, second);
    Then(s, run, CloseRead);
    run := run + [CloseRead];
    Then(s, run, CloseRead);
    run := run + [CloseRead];
  }

  lemma CloseComes(s: State) returns (run: seq<Action>)
    requires s.server.Polling? && s.kind.Connected? && s.pipe == []
    ensures Runs(s, run) && AllGentle(run) && Final(s, run) == s.(server := CloseCheck(false, false, HighHead))
  {
    run := [];
    Then(s, run, CallClose(false));
    run := run + [CallClose(false)];
    Then(s, run, PopRequest);
    run := run + [PopRequest];
  }

  /** The whole first test. */
  lemma TestsOnce(s: State) returns (run: seq<Action>)
    requires s.server == CloseCheck(false, false, HighHead)
    requires s.high == [] && s.low == [] && s.parked.None? && s.sending % COUNT_BASE == 0
    ensures Runs(s, run) && AllGentle(run) && Final(s, run) == s.(server := CloseCheck(false, true, HighHead))
  {
    run := ThreeReads(s, false);
    var more := LastReads(Final(s, run), false);
    RunsOn(s, run, more);
    run := run + more;
  }

  /** A close comes, and its test reads an empty dw_buffer. */
  lemma TestsDwBuffer(s: State) returns (run: seq<Action>)
    requires s.server.Polling? && s.kind.Connected? && s.pipe == []
    requires s.high == [] && s.low == [] && s.parked.None? && s.sending % COUNT_BASE == 0
    ensures Runs(s, run) && AllGentle(run) && Final(s, run) == s.(server := CloseCheck(false, true, SendingCount))
  {
    run := CloseComes(s);
    var more := TestsOnce(Final(s, run));
    RunsOn(s, run, more);
    run := run + more;
    more := ThreeReads(Final(s, run), true);
    RunsOn(s, run, more);
    run := run + more;
  }

  /** A thread passes its checks; then the test of a close reads an empty dw_buffer. */
  lemma TestedTooEarly() returns (run: seq<Action>)
    ensures Runs(Init(0, false), run) && AllGentle(run)
    ensures var s := Final(Init(0, false), run);
            && s.Of(0) == Writing(FIRST) && s.lock == HeldByWorker(0) && s.server == CloseCheck(false, true, SendingCount)
            && s.high == [] && s.low == [] && s.parked.None? && s.wire == [] && s.sending == 0
  {
    var s0 := Init(0, false);
    run := DirectPath(s0, 0, FIRST.data);
    SendsAreGentle(run);
    var more := TestsDwBuffer(Final(s0, run));
    RunsOn(s0, run, more);
    run := run + more;
  }

  lemma FreesAndLocks(s: State) returns (run: seq<Action>)
    requires s.server == FreeingHigh(false) && s.lock.Free?
    ensures Runs(s, run) && AllGentle(run)
    ensures Final(s, run) == s.(high := [], low := [], interest := false, lock := HeldByServer, server := ClosingFd)
  {
    run := [];
    Then(s, run, FreeHigh);
    run := run + [FreeHigh];
    Then(s, run, FreeLow);
    run := run + [FreeLow];
    Then(s, run, CloseLock);
    run := run + [CloseLock];
  }

  /** The test goes on to its end, and the fd is closed over what is parked. */
  lemma ClosesOver(s: State) returns (run: seq<Action>)
    requires s.server == CloseCheck(false, true, SendingCount) && s.sending % COUNT_BASE == 0 && s.lock.Free?
    ensures Runs(s, run) && AllGentle(run)
    ensures Final(s, run) == s.(high := [], low := [], interest := false, lock := HeldByServer, server := ClosingFd)
  {
    run := LastReads(s, true);
    var more := FreesAndLocks(Final(s, run));
    RunsOn(s, run, more);
    run := run + more;
  }

  /** The thread writes one byte of two and parks the other. */
  lemma ParkedTooLate() returns (run: seq<Action>)
    ensures Runs(Init(0, false), run) && AllGentle(run)
    ensures var s := Final(Init(0, false), run);
            && s.lock.Free? && s.server == CloseCheck(false, true, SendingCount) && s.sending == 0
            && s.wire == [WireByte(FIRST, 0)] && s.parked == Some(Buffer(FIRST, 1))
  {
    var s0 := Init(0, false);
    run := TestedTooEarly();
    var more := ParkPath(Final(s0, run), 0, 1);
    SendsAreGentle(more);
    RunsOn(s0, run, more);
    run := run + more;
    assert Final(s0, run).wire == [WireByte(FIRST, 0)];
  }

  /** A run without hang-up, failure or shutdown that closes the fd over the rest of a half-written package. */
  lemma ParkedRestIsLost() returns (run: seq<Action>)
    ensures Runs(Init(0, false), run) && AllGentle(run)
    ensures var s := Final(Init(0, false), run);
            s.wire == [WireByte(FIRST, 0)] && s.parked == Some(Buffer(FIRST, 1)) && s.server.ClosingFd? && Enabled(s, CloseFd)
  {
    var s0 := Init(0, false);
    run := ParkedTooLate();
    var more := ClosesOver(Final(s0, run));
    RunsOn(s0, run, more);
    run := run + more;
  }
}
