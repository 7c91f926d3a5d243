/**
 The TCP write path of skynet/skynet-src/socket_server.c as interleaved steps of any number of
 worker threads and the one socket thread, on one socket from the moment its id is reported open
 until its fd is closed.

 Every access of one thread to something another thread may change is a step of its own: each
 field read of can_direct_write, the trylock, the write, the parking of the rest, the CAS on
 `sending`, the pipe, and on the socket thread each list change, each write and each lock call.
 */
module SocketServer {
  import opened Basics
  import opened WriteStream

  datatype SocketType = Connected | HalfClose | Invalid

  datatype Request = SendRequest(pkg: Package) | CloseRequest(shutdown: bool)

  /** The fields read by nomore_sending_data and can_direct_write, in the order of the reads. */
  datatype Field = HighHead | LowHead | Parked | SendingCount | TypeField

  /** Where a worker thread is inside socket_server_send or socket_server_send_lowpriority. */
  datatype Worker =
    | Idle
    | Entry(pkg: Package)                                   // the id/type test at the top
    | Checking(pkg: Package, locked: bool, next: Field)     // inside can_direct_write, 1st or 2nd time
    | Locking(pkg: Package)                                 // socket_trylock
    | Writing(pkg: Package)                                 // both checks passed
    | Parking(pkg: Package, sent: nat)                      // `sent` bytes written, the rest goes to dw_*
    | Watching                                              // sp_write(true) after parking
    | Releasing                                             // socket_unlock, then return 0
    | Retreating(pkg: Package)                              // second check failed: socket_unlock
    | Counting(pkg: Package)                                // inc_sending_ref
    | Posting(pkg: Package)                                 // send_request

  /** What the socket thread does after send_buffer returns -1. */
  datatype After = ToPoll | ToClose(shutdown: bool)

  /** Where the socket thread is. */
  datatype Server =
    | Polling
    | Appending(pkg: Package)                               // send_socket
    | Acking                                                // dec_sending_ref
    | CloseCheck(shutdown: bool, second: bool, next: Field) // nomore_sending_data in close_socket
    | FlushLocking(after: After)                            // send_buffer: socket_trylock
    | TakingParked(after: After)                            // send_buffer: dw_buffer goes before high.head
    | FlushingHigh(after: After)                            // send_buffer_ step 1
    | FlushingLow(after: After)                             // send_buffer_ step 2
    | Raising(after: After)                                 // send_buffer_ step 3
    | Finishing(after: After)                               // send_buffer_ step 4
    | Unlocking(after: After)
    | FreeingHigh(locked: bool)                             // force_close
    | FreeingLow(locked: bool)
    | CloseLocking(locked: bool)
    | ClosingFd

  datatype Lock = Free | HeldByWorker(w: nat) | HeldByServer

  datatype State = State(
    workers: map<nat, Worker>,
    server: Server,
    lock: Lock,
    kind: SocketType,            // s->type
    high: seq<Buffer>,
    low: seq<Buffer>,
    parked: Option<Buffer>,      // dw_buffer, dw_offset
    wbSize: int,
    tag: nat,                    // ID_TAG16(id)
    sending: nat,
    interest: bool,              // what sp_write last asked for
    pipe: seq<Request>,
    wire: seq<WireByte>,         // everything written to the fd
    log: seq<Package>)           // every call of a send function, in call order
  {
    function Of(w: nat): Worker { if w in workers then workers[w] else Idle }
    function Go(w: nat, pc: Worker): State { this.(workers := workers[w := pc]) }
  }

  const COUNT_BASE := 0x10000

  /** Result of one write(2) call. */
  datatype WriteResult = Wrote(n: nat) | WouldBlock | Interrupted | Failed

  datatype Action =
    | CallSend(w: nat, priority: Priority, data: seq<bv8>)
    | Enter(w: nat)
    | ReadField(w: nat)
    | TryLock(w: nat)
    | DirectWrite(w: nat, n: nat)
    | Park(w: nat)
    | Watch(w: nat)
    | Release(w: nat)
    | Retreat(w: nat)
    | Count(w: nat)
    | Post(w: nat)
    | CallClose(shutdown: bool)
    | PopRequest
    | Append
    | Ack
    | WriteEvent
    | HangUp
    | CloseRead
    | FlushLock
    | TakeParked
    | FlushHigh(r: WriteResult)
    | FlushLow(r: WriteResult)
    | Raise
    | Finish
    | FlushUnlock
    | FreeHigh
    | FreeLow
    | CloseLock
    | CloseFd

  // ----- worker steps

  /** Whether the read of `f` lets can_direct_write go on. */
  predicate Passes(s: State, f: Field) {
    match f
    case HighHead => s.high == []
    case LowHead => s.low == []
    case Parked => s.parked.None?
    case SendingCount => s.sending % COUNT_BASE == 0
    case TypeField => s.kind.Connected?
  }

  function NextField(f: Field): Field
    requires f != TypeField
  {
    match f
    case HighHead => LowHead
    case LowHead => Parked
    case Parked => SendingCount
    case SendingCount => TypeField
  }

  function AfterRead(s: State, pc: Worker): Worker
    requires pc.Checking?
  {
    if !Passes(s, pc.next) then (if pc.locked then Retreating(pc.pkg) else Counting(pc.pkg))
    else if pc.next != TypeField then pc.(next := NextField(pc.next))
    else if pc.locked then Writing(pc.pkg)
    else Locking(pc.pkg)
  }

  predicate WorkerEnabled(s: State, a: Action) {
    match a
    case CallSend(w, _, _) => s.Of(w).Idle?
    case Enter(w) => s.Of(w).Entry?
    case ReadField(w) => s.Of(w).Checking?
    case TryLock(w) => s.Of(w).Locking?
    case DirectWrite(w, n) => s.Of(w).Writing? && n <= |s.Of(w).pkg.data|
    case Park(w) => s.Of(w).Parking?
    case Watch(w) => s.Of(w).Watching?
    case Release(w) => s.Of(w).Releasing?
    case Retreat(w) => s.Of(w).Retreating?
    // busy waits while the count is at its maximum
    case Count(w) => s.Of(w).Counting? && (s.sending / COUNT_BASE == s.tag ==> s.sending % COUNT_BASE != COUNT_BASE - 1)
    case Post(w) => s.Of(w).Posting?
    case CallClose(_) => true
    case _ => false
  }

  function WorkerApply(s: State, a: Action): State
    requires WorkerEnabled(s, a)
  {
    match a
    case CallSend(w, pr, data) =>
      var p := Package(w, |s.log|, pr, data);
      s.Go(w, Entry(p)).(log := s.log + [p])
    case Enter(w) =>
      var p := s.Of(w).pkg;
      if s.kind.Invalid? then s.Go(w, Idle)
      else if p.priority.High? then s.Go(w, Checking(p, false, HighHead))
      else s.Go(w, Counting(p))
    case ReadField(w) => s.Go(w, AfterRead(s, s.Of(w)))
    case TryLock(w) =>
      var p := s.Of(w).pkg;
      if s.lock.Free? then s.Go(w, Checking(p, true, HighHead)).(lock := HeldByWorker(w))
      else s.Go(w, Counting(p))
    case DirectWrite(w, n) =>
      var p := s.Of(w).pkg;
      var s' := s.(wire := s.wire + Chunk(Buffer(p, 0), n));
      if n == |p.data| then s'.Go(w, Releasing) else s'.Go(w, Parking(p, n))
    case Park(w) =>
      var pc := s.Of(w);
      s.Go(w, Watching).(parked := Some(Buffer(pc.pkg, pc.sent)))
    case Watch(w) => s.Go(w, Releasing).(interest := true)
    case Release(w) => s.Go(w, Idle).(lock := Free)
    case Retreat(w) => s.Go(w, Counting(s.Of(w).pkg)).(lock := Free)
    case Count(w) =>
      var s' := s.Go(w, Posting(s.Of(w).pkg));
      if s.sending / COUNT_BASE == s.tag then s'.(sending := s.sending + 1) else s'
    case Post(w) => s.Go(w, Idle).(pipe := s.pipe + [SendRequest(s.Of(w).pkg)])
    case CallClose(shutdown) => s.(pipe := s.pipe + [CloseRequest(shutdown)])
  }

  // ----- socket thread steps

  predicate ResultFits(b: Buffer, r: WriteResult) {
    r.Wrote? ==> b.off + r.n <= |b.pkg.data|
  }

  predicate ServerEnabled(s: State, a: Action) {
    match a
    case PopRequest => s.server.Polling? && s.pipe != []
    case Append => s.server.Appending?
    case Ack => s.server.Acking?
    case WriteEvent => s.server.Polling? && !s.kind.Invalid?
    case HangUp => s.server.Polling? && !s.kind.Invalid?
    case CloseRead => s.server.CloseCheck?
    case FlushLock => s.server.FlushLocking?
    case TakeParked => s.server.TakingParked?
    case FlushHigh(r) => s.server.FlushingHigh? && (s.high != [] ==> ResultFits(s.high[0], r))
    case FlushLow(r) => s.server.FlushingLow? && (s.low != [] ==> ResultFits(s.low[0], r))
    case Raise => s.server.Raising? && s.low != []
    case Finish => s.server.Finishing?
    case FlushUnlock => s.server.Unlocking?
    case FreeHigh => s.server.FreeingHigh?
    case FreeLow => s.server.FreeingLow?
    case CloseLock => s.server.CloseLocking? && (s.server.locked || s.lock.Free?)
    case CloseFd => s.server.ClosingFd?
    case _ => false
  }

  /** send_socket on TCP: the low priority package goes to the high list when both lists are empty. */
  function AppendTo(s: State, p: Package): State {
    var b := Buffer(p, 0);
    var t := s.(wbSize := s.wbSize + b.Rest());
    if !s.kind.Connected? then s
    else if s.high == [] && s.low == [] then t.(high := [b], interest := true)
    else if p.priority.Low? then t.(low := s.low + [b])
    else t.(high := s.high + [b])
  }

  /** Where close_socket goes when the rest of the test it is in has been decided. */
  function AfterCloseCheck(shutdown: bool, second: bool, nothingLeft: bool): Server {
    if second then (if nothingLeft then FreeingHigh(false) else Polling)
    else if !nothingLeft then FlushLocking(ToClose(shutdown))
    else CloseAgain(shutdown)
  }

  /** `request->shutdown || nomore_sending_data(s)` */
  function CloseAgain(shutdown: bool): Server {
    if shutdown then FreeingHigh(false) else CloseCheck(shutdown, true, HighHead)
  }

  function Continue(after: After): Server {
    match after
    case ToPoll => Polling
    case ToClose(shutdown) => CloseAgain(shutdown)
  }

  function Written(b: Buffer, n: nat): Buffer { b.(off := b.off + n) }

  function ServerApply(s: State, a: Action): State
    requires ServerEnabled(s, a)
  {
    match a
    case PopRequest =>
      var t := s.(pipe := s.pipe[1..]);
      (match s.pipe[0]
       case SendRequest(p) => t.(server := Appending(p))
       case CloseRequest(shutdown) => if s.kind.Invalid? then t else t.(server := CloseCheck(shutdown, false, HighHead)))
    case Append => AppendTo(s, s.server.pkg).(server := Acking)
    // ATOM_DEC on a 32-bit word
    case Ack => s.(sending := if s.sending == 0 then 0xffff_ffff else s.sending - 1, server := Polling)
    case WriteEvent => s.(server := FlushLocking(ToPoll))
    case HangUp => s.(server := FreeingHigh(false))
    case CloseRead =>
      var pc := s.server;
      if pc.next == TypeField then s.(server := AfterCloseCheck(pc.shutdown, pc.second, true))
      else if Passes(s, pc.next) then s.(server := pc.(next := NextField(pc.next)))
      else if pc.second then s.(kind := HalfClose, server := Polling)
      else s.(server := AfterCloseCheck(pc.shutdown, false, false))
    case FlushLock =>
      if s.lock.Free? then s.(lock := HeldByServer, server := TakingParked(s.server.after))
      else s.(server := Continue(s.server.after))
    case TakeParked =>
      var t := s.(server := FlushingHigh(s.server.after));
      (match s.parked
       case None => t
       case Some(b) => t.(high := [b] + s.high, parked := None, wbSize := s.wbSize + b.Rest()))
    case FlushHigh(r) =>
      if s.high == [] then s.(server := FlushingLow(s.server.after))
      else (match r
            case Interrupted => s
            case WouldBlock => s.(server := Unlocking(s.server.after))
            case Failed => s.(server := FreeingHigh(true))
            case Wrote(n) =>
              var b := s.high[0];
              var t := s.(wire := s.wire + Chunk(b, n), wbSize := s.wbSize - n);
              if n == b.Rest() then t.(high := s.high[1..])
              else t.(high := [Written(b, n)] + s.high[1..], server := Unlocking(s.server.after)))
    case FlushLow(r) =>
      if s.low == [] then s.(server := Finishing(s.server.after))
      else (match r
            case Interrupted => s
            case WouldBlock => s.(server := Unlocking(s.server.after))
            case Failed => s.(server := FreeingHigh(true))
            case Wrote(n) =>
              var b := s.low[0];
              var t := s.(wire := s.wire + Chunk(b, n), wbSize := s.wbSize - n);
              if n == b.Rest() then t.(low := s.low[1..])
              else t.(low := [Written(b, n)] + s.low[1..],
                      server := if n > 0 then Raising(s.server.after) else Unlocking(s.server.after)))
    case Raise => s.(high := [s.low[0]], low := s.low[1..], server := Unlocking(s.server.after))
    case Finish =>
      var t := s.(interest := false);
      if s.kind.HalfClose? then t.(server := FreeingHigh(true)) else t.(server := Unlocking(s.server.after))
    case FlushUnlock => s.(lock := Free, server := Continue(s.server.after))
    case FreeHigh => s.(high := [], server := FreeingLow(s.server.locked))
    case FreeLow => s.(low := [], interest := false, server := CloseLocking(s.server.locked))
    case CloseLock => s.(lock := HeldByServer, server := ClosingFd)
    case CloseFd => s.(kind := Invalid, parked := None, server := Unlocking(ToPoll))
  }

  // ----- runs

  predicate Enabled(s: State, a: Action) { WorkerEnabled(s, a) || ServerEnabled(s, a) }

  function Apply(s: State, a: Action): State
    requires Enabled(s, a)
  {
    if WorkerEnabled(s, a) then WorkerApply(s, a) else ServerApply(s, a)
  }

  /** The socket when its id is reported open; `sp_write` may or may not be on. */
  function Init(tag: nat, interest: bool): State {
    State(map[], Polling, Free, Connected, [], [], None, 0, tag, tag * COUNT_BASE, interest, [], [], [])
  }

  predicate Runs(s: State, run: seq<Action>)
    decreases |run|
  {
    run == [] || (Enabled(s, run[0]) && Runs(Apply(s, run[0]), run[1..]))
  }

  function Final(s: State, run: seq<Action>): State
    requires Runs(s, run)
    decreases |run|
  {
    if run == [] then s else Final(Apply(s, run[0]), run[1..])
  }
}
