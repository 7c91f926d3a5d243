/**
 When the socket closes: exactly on request, on a hang-up or on a failing write, and from then on it takes nothing new.
 */
module SocketEnds {
  import opened Basics
  import opened WriteStream
  import opened SocketServer
  import opened SocketInvariant
  import opened SocketTheorems

  /** The fd is being closed, whatever else happens. */
  predicate Forced(pc: Server) { pc.FreeingHigh? || pc.FreeingLow? || pc.CloseLocking? || pc.ClosingFd? }

  predicate FlushFor(pc: Server, after: After) {
    match pc
    case FlushLocking(x) => x == after
    case TakingParked(x) => x == after
    case FlushingHigh(x) => x == after
    case FlushingLow(x) => x == after
    case Raising(x) => x == after
    case Finishing(x) => x == after
    case Unlocking(x) => x == after
    case _ => false
  }

  /** The socket thread is working on a close request, with shutdown or any. */
  predicate WorksOnClose(pc: Server, shutdown: bool) {
    || Forced(pc)
    || FlushFor(pc, ToClose(true)) || (pc.CloseCheck? && pc.shutdown && !pc.second)
    || (!shutdown && (FlushFor(pc, ToClose(false)) || (pc.CloseCheck? && !pc.shutdown)))
  }

  /** With nothing but steps of the socket thread, the socket gets closed; without shutdown at least half. */
  predicate Closing(s: State, shutdown: bool) {
    s.kind.Invalid? || (!shutdown && s.kind.HalfClose?) || WorksOnClose(s.server, shutdown)
  }

  /** After the fd is closed the socket thread is in no flush and no close. */
  predicate ClosedIsQuiet(s: State) {
    s.kind.Invalid? ==> s.server.Polling? || s.server.Appending? || s.server.Acking? || s.server == Unlocking(ToPoll)
  }

  lemma FlushGoesOn(s: State, a: Action, after: After)
    requires ServerEnabled(s, a) && FlushFor(s.server, after)
    ensures var t := ServerApply(s, a);
            t.kind == s.kind && (FlushFor(t.server, after) || Forced(t.server) || t.server == Continue(after))
  {
    if a.FlushHigh? {
    } else if a.FlushLow? {
    } else {
    }
  }

  lemma CloseGoesOn(s: State, shutdown: bool)
    requires s.server.CloseCheck? && WorksOnClose(s.server, shutdown) && !s.kind.Invalid?
    ensures Closing(ServerApply(s, CloseRead), shutdown)
  {
  }

  lemma ForcedGoesOn(s: State, a: Action)
    requires ServerEnabled(s, a) && Forced(s.server)
    ensures var t := ServerApply(s, a); Forced(t.server) || t.kind.Invalid?
  {
  }

  /** What the socket thread does while no close is under way leaves a closed socket closed. */
  lemma KindGoesOn(s: State, a: Action)
    requires ServerEnabled(s, a) && (s.server.CloseCheck? ==> !s.kind.Invalid?)
    ensures var t := ServerApply(s, a);
            (s.kind.Invalid? ==> t.kind.Invalid?) && (!s.kind.Connected? ==> !t.kind.Connected?)
  {
    if a.FlushHigh? {
    } else if a.FlushLow? {
    } else {
    }
  }

  lemma ClosingGoesOn(s: State, a: Action, shutdown: bool)
    requires Enabled(s, a) && ClosedIsQuiet(s) && Closing(s, shutdown)
    ensures Closing(Apply(s, a), shutdown)
  {
    if WorkerEnabled(s, a) {
      assert WorkerApply(s, a).kind == s.kind && WorkerApply(s, a).server == s.server;
    } else if s.kind.Invalid? || (!shutdown && s.kind.HalfClose?) {
      KindGoesOn(s, a);
    } else if Forced(s.server) {
      ForcedGoesOn(s, a);
    } else if s.server.CloseCheck? {
      CloseGoesOn(s, shutdown);
    } else if FlushFor(s.server, ToClose(true)) {
      FlushGoesOn(s, a, ToClose(true));
    } else {
      FlushGoesOn(s, a, ToClose(false));
    }
  }

  lemma ClosedStaysQuiet(s: State, a: Action)
    requires Enabled(s, a) && ClosedIsQuiet(s)
    ensures ClosedIsQuiet(Apply(s, a))
  {
  }

  /** The request is on its way, or being carried out. */
  predicate Arrives(s: State, shutdown: bool) { CloseRequest(shutdown) in s.pipe || Closing(s, shutdown) }

  lemma ArrivesStill(s: State, a: Action, shutdown: bool)
    requires Enabled(s, a) && ClosedIsQuiet(s) && Arrives(s, shutdown)
    ensures Arrives(Apply(s, a), shutdown)
  {
    if Closing(s, shutdown) {
      ClosingGoesOn(s, a, shutdown);
    } else if a.PopRequest? {
      PopArrives(s, shutdown);
    } else {
      var i :| 0 <= i < |s.pipe| && s.pipe[i] == CloseRequest(shutdown);
      PipeStays(s, a);
      assert Apply(s, a).pipe[i] == s.pipe[i];
    }
  }

  lemma PopArrives(s: State, shutdown: bool)
    requires s.server.Polling? && !s.kind.Invalid? && CloseRequest(shutdown) in s.pipe
    ensures Arrives(ServerApply(s, PopRequest), shutdown)
  {
    var t := ServerApply(s, PopRequest);
    var i :| 0 <= i < |s.pipe| && s.pipe[i] == CloseRequest(shutdown);
    if i > 0 { assert t.pipe[i - 1] == s.pipe[i]; }
  }

  lemma PipeStays(s: State, a: Action)
    requires Enabled(s, a) && !a.PopRequest?
    ensures s.pipe <= Apply(s, a).pipe
  {
    if a.FlushHigh? {
    } else if a.FlushLow? {
    } else {
    }
  }

  lemma CallArrives(s: State, shutdown: bool)
    ensures Arrives(Apply(s, CallClose(shutdown)), shutdown)
  {
    var t := Apply(s, CallClose(shutdown));
    assert t.pipe[|s.pipe|] == CloseRequest(shutdown);
  }

  lemma {:induction false} ArrivesInRun(s: State, run: seq<Action>, shutdown: bool)
    requires ClosedIsQuiet(s) && Runs(s, run) && (Arrives(s, shutdown) || CallClose(shutdown) in run)
    ensures Arrives(Final(s, run), shutdown)
    decreases |run|
  {
    if run != [] {
      var a := run[0];
      ClosedStaysQuiet(s, a);
      if Arrives(s, shutdown) {
        ArrivesStill(s, a, shutdown);
      } else if a == CallClose(shutdown) {
        CallArrives(s, shutdown);
      }
      ArrivesInRun(Apply(s, a), run[1..], shutdown);
    }
  }

  /**
   In every run: once a close has been asked for and is no longer in the pipe, the socket thread never polls an open
   connection again; with shutdown it never polls again before the fd is closed.
   */
  lemma ClosedAsAsked(tag: nat, interest: bool, run: seq<Action>, shutdown: bool)
    requires Runs(Init(tag, interest), run) && CallClose(shutdown) in run
    requires var s := Final(Init(tag, interest), run); s.server.Polling? && CloseRequest(shutdown) !in s.pipe
    ensures var s := Final(Init(tag, interest), run);
            if shutdown then s.kind.Invalid? else !s.kind.Connected?
  {
    ArrivesInRun(Init(tag, interest), run, shutdown);
  }

  // ----- failures

  /** A hang-up or error event, or a write that fails. */
  predicate Breaks(s: State, a: Action) {
    a.HangUp? || (a.FlushHigh? && a.r.Failed? && s.high != []) || (a.FlushLow? && a.r.Failed? && s.low != [])
  }

  predicate HasBroken(s: State, run: seq<Action>)
    requires Runs(s, run)
    decreases |run|
  {
    run != [] && (Breaks(s, run[0]) || HasBroken(Apply(s, run[0]), run[1..]))
  }

  predicate Ending(s: State) { s.kind.Invalid? || Forced(s.server) }

  lemma EndingGoesOn(s: State, a: Action)
    requires Enabled(s, a) && ClosedIsQuiet(s) && (Ending(s) || Breaks(s, a))
    ensures Ending(Apply(s, a))
  {
  }

  lemma {:induction false} EndsInRun(s: State, run: seq<Action>)
    requires ClosedIsQuiet(s) && Runs(s, run) && (Ending(s) || HasBroken(s, run))
    ensures Ending(Final(s, run))
    decreases |run|
  {
    if run != [] {
      ClosedStaysQuiet(s, run[0]);
      if Ending(s) || Breaks(s, run[0]) { EndingGoesOn(s, run[0]); }
      EndsInRun(Apply(s, run[0]), run[1..]);
    }
  }

  /** In every run: after a hang-up or a failing write the socket thread does not poll before the fd is closed. */
  lemma ClosedWhenBroken(tag: nat, interest: bool, run: seq<Action>)
    requires Runs(Init(tag, interest), run) && HasBroken(Init(tag, interest), run)
    ensures var s := Final(Init(tag, interest), run); s.server.Polling? ==> s.kind.Invalid?
  {
    EndsInRun(Init(tag, interest), run);
  }

  // ----- nothing else closes

  predicate NoCloseIn(pipe: seq<Request>) { forall i :: 0 <= i < |pipe| ==> !pipe[i].CloseRequest? }

  /** No close has been asked for, and none is under way. */
  predicate Untroubled(s: State) {
    && s.kind.Connected? && NoCloseIn(s.pipe)
    && (s.server.Polling? || s.server.Appending? || s.server.Acking? || FlushFor(s.server, ToPoll))
  }

  lemma FlushUntroubled(s: State, a: Action)
    requires ServerEnabled(s, a) && s.kind.Connected? && FlushFor(s.server, ToPoll) && !Breaks(s, a)
    ensures var t := ServerApply(s, a);
            t.kind == s.kind && t.pipe == s.pipe && (FlushFor(t.server, ToPoll) || t.server.Polling?)
  {
    if a.FlushHigh? {
    } else if a.FlushLow? {
    } else {
    }
  }

  lemma UntroubledStill(s: State, a: Action)
    requires Enabled(s, a) && Untroubled(s) && !a.CallClose? && !Breaks(s, a)
    ensures Untroubled(Apply(s, a))
  {
    if WorkerEnabled(s, a) {
    } else if FlushFor(s.server, ToPoll) {
      FlushUntroubled(s, a);
    } else {
      if a.PopRequest? { assert !s.pipe[0].CloseRequest?; }
    }
  }

  lemma {:induction false} UntroubledRun(s: State, run: seq<Action>)
    requires Untroubled(s) && Runs(s, run) && !HasBroken(s, run)
    requires forall i :: 0 <= i < |run| ==> !run[i].CallClose?
    ensures Untroubled(Final(s, run))
    decreases |run|
  {
    if run != [] {
      UntroubledStill(s, run[0]);
      assert forall i :: 0 <= i < |run| - 1 ==> run[1..][i] == run[i + 1];
      UntroubledRun(Apply(s, run[0]), run[1..]);
    }
  }

  /** In every run without a close call, a hang-up or a failing write the socket stays connected and frees nothing. */
  lemma OpenUntilTold(tag: nat, interest: bool, run: seq<Action>)
    requires Runs(Init(tag, interest), run) && !HasBroken(Init(tag, interest), run)
    requires forall i :: 0 <= i < |run| ==> !run[i].CallClose?
    ensures var s := Final(Init(tag, interest), run);
            s.kind.Connected? && !s.server.CloseCheck? && !Forced(s.server)
  {
    UntroubledRun(Init(tag, interest), run);
  }

  // ----- a socket that is closing takes nothing new

  /** Past the last read of a check: a direct write will follow. */
  predicate Committed(pc: Worker) { pc.Writing? || pc.Parking? }

  predicate Among(q: seq<Buffer>, known: iset<Package>) { forall i :: 0 <= i < |q| ==> q[i].pkg in known }

  /** Everything that can still reach the fd is among these packages. */
  ghost predicate OnlyKnown(s: State, known: iset<Package>) {
    && !s.kind.Connected?
    && Among(s.high, known) && Among(s.low, known) && Among(ParkedBuffers(s.parked), known)
    && (forall w :: Committed(s.Of(w)) ==> s.Of(w).pkg in known)
  }

  lemma OnlyKnownByWorker(s: State, a: Action, known: iset<Package>)
    requires WorkerEnabled(s, a) && OnlyKnown(s, known)
    ensures OnlyKnown(WorkerApply(s, a), known)
    ensures forall i :: |s.wire| <= i < |WorkerApply(s, a).wire| ==> WorkerApply(s, a).wire[i].pkg in known
  {
    var t := WorkerApply(s, a);
    forall w | Committed(t.Of(w)) ensures t.Of(w).pkg in known {
      if a.CallClose? || w != a.w { assert t.Of(w) == s.Of(w); }
    }
  }

  lemma OnlyKnownByServer(s: State, a: Action, known: iset<Package>)
    requires ServerEnabled(s, a) && OnlyKnown(s, known)
    ensures OnlyKnown(ServerApply(s, a), known)
    ensures forall i :: |s.wire| <= i < |ServerApply(s, a).wire| ==> ServerApply(s, a).wire[i].pkg in known
  {
    var t := ServerApply(s, a);
    assert forall w :: t.Of(w) == s.Of(w);
    if a.FlushHigh? || a.FlushLow? {
      FlushesKnown(s, a, known);
    } else if a.TakeParked? {
    } else if a.Raise? {
    } else {
    }
  }

  lemma FlushesKnown(s: State, a: Action, known: iset<Package>)
    requires ServerEnabled(s, a) && (a.FlushHigh? || a.FlushLow?) && Among(s.high, known) && Among(s.low, known)
    ensures var t := ServerApply(s, a);
            && Among(t.high, known) && Among(t.low, known) && t.parked == s.parked && t.kind == s.kind
            && forall i :: |s.wire| <= i < |t.wire| ==> t.wire[i].pkg in known
  {
  }

  lemma {:induction false} OnlyKnownInRun(s: State, run: seq<Action>, known: iset<Package>)
    requires Runs(s, run) && OnlyKnown(s, known)
    ensures OnlyKnown(Final(s, run), known) && |s.wire| <= |Final(s, run).wire|
    ensures forall i :: |s.wire| <= i < |Final(s, run).wire| ==> Final(s, run).wire[i].pkg in known
    decreases |run|
  {
    if run != [] {
      var a, t := run[0], Apply(s, run[0]);
      if WorkerEnabled(s, a) { OnlyKnownByWorker(s, a, known); } else { OnlyKnownByServer(s, a, known); }
      WireGrows(s, a);
      OnlyKnownInRun(t, run[1..], known);
      WireStays(t, run[1..]);
    }
  }

  lemma WireGrows(s: State, a: Action)
    requires Enabled(s, a)
    ensures s.wire <= Apply(s, a).wire
  {
  }

  lemma {:induction false} WireStays(s: State, run: seq<Action>)
    requires Runs(s, run)
    ensures s.wire <= Final(s, run).wire
    decreases |run|
  {
    if run != [] {
      WireGrows(s, run[0]);
      WireStays(Apply(s, run[0]), run[1..]);
    }
  }

  /** The packages in the lists or parked, and those of threads that have passed all their checks. */
  ghost function InReach(s: State): iset<Package> {
    (iset i | 0 <= i < |s.high| :: s.high[i].pkg) + (iset i | 0 <= i < |s.low| :: s.low[i].pkg)
    + (iset i | 0 <= i < |ParkedBuffers(s.parked)| :: ParkedBuffers(s.parked)[i].pkg)
    + (iset w: nat | Committed(s.Of(w)) :: s.Of(w).pkg)
  }

  /**
   Once the socket is half closed, every byte that any run still writes belongs to a package that was then in the
   lists, parked, or with a thread that had passed all its checks.
   */
  lemma NothingNewAfterClose(s: State, run: seq<Action>, i: nat)
    requires Runs(s, run) && !s.kind.Connected? && |s.wire| <= i < |Final(s, run).wire|
    ensures Final(s, run).wire[i].pkg in InReach(s)
  {
    OnlyKnownInRun(s, run, InReach(s));
  }
}
