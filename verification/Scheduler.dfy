/**
 The two-level scheduler of skynet: per-service queues, the global queue of queues, worker
 dispatch, and reference-counted contexts (skynet-src/skynet_mq.c, skynet-src/skynet_server.c).

 An actor is one activity of some thread: a dispatching worker, or a nested call of
 skynet_context_push, skynet_handle_retire or skynet_context_new.  Every body run under a lock and
 every atomic operation is one step; actors interleave freely.  A service is known by its handle,
 which names its context and its queue.
 */
module Scheduler {

  type Handle = nat

  datatype Message = Message(source: Handle, session: int)

  datatype Service = Service(
    // struct message_queue
    pending: seq<Message>,
    inGlobal: bool,
    release: bool,
    frees: nat,               // how often _release has run on it
    // struct skynet_context
    ref: int,
    registered: bool,         // has a slot in the handle table
    reserved: nat,            // skynet_context_reserve calls not yet released
    started: bool,            // ctx->init
    deletes: nat,             // how often delete_context has been entered
    // what has happened to messages
    accepted: seq<Message>,
    handed: seq<Message>,
    dropped: seq<Message>)

  /** What an actor does after a release or a deletion it is in the middle of. */
  datatype After = Stop | Retire | GiveToken | TakeNext | Keep(q: Handle)

  datatype Actor =
    | Done
    | Pushing(h: Handle, m: Message)                  // skynet_context_push: before the grab
    | Queueing(h: Handle, m: Message)                 // grabbed; skynet_mq_push
    | Retiring(h: Handle)                             // skynet_handle_retire
    | Initing(h: Handle)                              // skynet_context_new: in the init function
    | FailRetiring(h: Handle)                         // init failed: line 177
    | Releasing(h: Handle, next: After)               // skynet_context_release
    | Deleting(h: Handle, next: After)                // delete_context: the count has reached zero
    | Yielding(h: Handle, worker: bool)               // skynet_mq_release
    | Dropping(h: Handle, worker: bool)               // _drop_queue
    | Fetching                                        // worker without a queue
    | Grabbing(h: Handle)                             // worker: skynet_handle_grab
    | Popping(h: Handle)                              // worker: skynet_mq_pop
    | Running(h: Handle, m: Message)                  // worker: the callback
    | Choosing(h: Handle)                             // worker: line 341
    | Returning(h: Handle, q: Handle)                 // worker: line 345, q already popped

  datatype State = State(services: map<Handle, Service>, global: seq<Handle>, actors: map<nat, Actor>)
  {
    function Of(a: nat): Actor { if a in actors then actors[a] else Done }
    function Go(a: nat, pc: Actor): State { this.(actors := actors[a := pc]) }
    function Put(h: Handle, v: Service): State { this.(services := services[h := v]) }
    function Enqueue(h: Handle): State { this.(global := global + [h]) }
  }

  datatype Action =
    | CallPush(a: nat, h: Handle, m: Message)
    | CallRetire(a: nat, h: Handle)
    | CallNew(a: nat, h: Handle)
    | StartWorker(a: nat)
    | Unreserve(a: nat, h: Handle)
    | Reserve(a: nat)
    | InitSucceeds(a: nat)
    | InitFails(a: nat)
    | CallbackEnds(a: nat, more: bool)
    | Step(a: nat)

  /** The handle is in the table, so skynet_handle_grab finds the context. */
  predicate Registered(s: State, h: Handle) { h in s.services && s.services[h].registered }

  function NewService(): Service {
    Service([], true, false, 0, 2, true, 0, false, 0, [], [], [])
  }

  /** The actors that hold a counted reference to a context, with the context. */
  predicate HoldsRef(pc: Actor, h: Handle) {
    match pc
    case Queueing(x, _) => x == h
    case Initing(x) => x == h
    case Releasing(x, _) => x == h
    case Popping(x) => x == h
    case Running(x, _) => x == h
    case Choosing(x) => x == h
    case Returning(x, _) => x == h
    case _ => false
  }

  predicate Enabled(s: State, act: Action) {
    match act
    case CallPush(a, h, m) => s.Of(a).Done?
    case CallRetire(a, h) => s.Of(a).Done?
    // handles are never reused
    case CallNew(a, h) => s.Of(a).Done? && h !in s.services
    case StartWorker(a) => s.Of(a).Done?
    case Unreserve(a, h) => s.Of(a).Done? && h in s.services && s.services[h].reserved > 0
    // called from a callback or an init function of the service itself
    case Reserve(a) => (s.Of(a).Running? || s.Of(a).Initing?) && s.Of(a).h in s.services
    case InitSucceeds(a) => s.Of(a).Initing? && s.Of(a).h in s.services
    case InitFails(a) => s.Of(a).Initing?
    case CallbackEnds(a, more) => s.Of(a).Running?
    case Step(a) =>
      var pc := s.Of(a);
      !pc.Done? && !pc.Initing? && !pc.Running? && (ByAnyHandle(pc) || pc.h in s.services)
  }

  /** The steps that may be made with a handle that names no service. */
  predicate ByAnyHandle(pc: Actor) { pc.Fetching? || pc.Pushing? || pc.Retiring? }

  /** skynet_mq_push: one locked body. */
  function MqPush(s: State, h: Handle, m: Message): State
    requires h in s.services
  {
    var v := s.services[h];
    var t := s.Put(h, v.(pending := v.pending + [m], accepted := v.accepted + [m], inGlobal := true));
    if v.inGlobal then t else t.Enqueue(h)
  }

  /** skynet_mq_mark_release: one locked body. */
  function MqMarkRelease(s: State, h: Handle): State
    requires h in s.services
  {
    var v := s.services[h];
    var t := s.Put(h, v.(release := true));
    if v.inGlobal then t else t.Enqueue(h)
  }

  /** Where an actor goes when it no longer holds what it released. */
  function Resume(h: Handle, next: After): Actor {
    match next
    case Stop => Done
    case Retire => FailRetiring(h)
    case GiveToken => Yielding(h, false)
    case TakeNext => Fetching
    case Keep(q) => Grabbing(q)
  }

  function Apply(s: State, act: Action): State
    requires Enabled(s, act)
  {
    match act
    case CallPush(a, h, m) => s.Go(a, Pushing(h, m))
    case CallRetire(a, h) => s.Go(a, Retiring(h))
    case CallNew(a, h) => s.Go(a, Initing(h)).Put(h, NewService())
    case StartWorker(a) => s.Go(a, Fetching)
    case Unreserve(a, h) =>
      var v := s.services[h];
      s.Go(a, Releasing(h, Stop)).Put(h, v.(reserved := v.reserved - 1))
    case Reserve(a) =>
      var h := s.Of(a).h;
      var v := s.services[h];
      s.Put(h, v.(ref := v.ref + 1, reserved := v.reserved + 1))
    case InitSucceeds(a) => Launch(s, a)
    case InitFails(a) => s.Go(a, Releasing(s.Of(a).h, Retire))
    case CallbackEnds(a, more) =>
      var h := s.Of(a).h;
      s.Go(a, if more then Popping(h) else Choosing(h))
    case Step(a) => StepOf(s, a, s.Of(a))
  }

  /** The success tail of skynet_context_new: release, set init, push the queue. */
  function Launch(s: State, a: nat): State
    requires s.Of(a).Initing? && s.Of(a).h in s.services
  {
    var h := s.Of(a).h;
    var v := s.services[h];
    var t := s.Go(a, Done);
    if v.ref == 1
    then MqMarkRelease(t.Put(h, v.(ref := 0, deletes := v.deletes + 1)), h).Enqueue(h)
    else t.Put(h, v.(ref := v.ref - 1, started := true)).Enqueue(h)
  }

  function StepOf(s: State, a: nat, pc: Actor): State
    requires !pc.Done? && !pc.Initing? && !pc.Running?
    requires ByAnyHandle(pc) || pc.h in s.services
  {
    match pc
    case Pushing(h, m) =>
      if !Registered(s, h) then s.Go(a, Done)
      else var v := s.services[h]; s.Go(a, Queueing(h, m)).Put(h, v.(ref := v.ref + 1))
    case Queueing(h, m) => MqPush(s.Go(a, Releasing(h, Stop)), h, m)
    case Retiring(h) =>
      if !Registered(s, h) then s.Go(a, Done)
      else var v := s.services[h]; s.Go(a, Releasing(h, Stop)).Put(h, v.(registered := false))
    case FailRetiring(h) =>
      var v := s.services[h];
      if v.registered then s.Go(a, Releasing(h, GiveToken)).Put(h, v.(registered := false))
      else s.Go(a, Yielding(h, false))
    case Releasing(h, next) =>
      var v := s.services[h];
      var t := s.Put(h, v.(ref := v.ref - 1));
      t.Go(a, if v.ref == 1 then Deleting(h, next) else Resume(h, next))
    case Deleting(h, next) =>
      var v := s.services[h];
      MqMarkRelease(s.Go(a, Resume(h, next)).Put(h, v.(deletes := v.deletes + 1)), h)
    case Yielding(h, worker) =>
      if s.services[h].release then s.Go(a, Dropping(h, worker))
      else s.Go(a, if worker then Fetching else Done).Enqueue(h)
    case Dropping(h, worker) =>
      var v := s.services[h];
      if v.pending != [] then s.Put(h, v.(pending := v.pending[1..], dropped := v.dropped + [v.pending[0]]))
      else s.Go(a, if worker then Fetching else Done).Put(h, v.(inGlobal := false, frees := v.frees + 1))
    case Fetching =>
      if s.global == [] then s else s.Go(a, Grabbing(s.global[0])).(global := s.global[1..])
    case Grabbing(h) =>
      var v := s.services[h];
      if v.registered then s.Go(a, Popping(h)).Put(h, v.(ref := v.ref + 1))
      else s.Go(a, Yielding(h, true))
    case Popping(h) =>
      var v := s.services[h];
      if v.pending == [] then s.Go(a, Releasing(h, TakeNext)).Put(h, v.(inGlobal := false))
      else s.Go(a, Running(h, v.pending[0])).Put(h, v.(pending := v.pending[1..], handed := v.handed + [v.pending[0]]))
    case Choosing(h) =>
      if s.global == [] then s.Go(a, Releasing(h, Keep(h)))
      else s.Go(a, Returning(h, s.global[0])).(global := s.global[1..])
    case Returning(h, q) => s.Go(a, Releasing(h, Keep(q))).Enqueue(h)
  }

  // ----- runs

  function Init(): State { State(map[], [], map[]) }

  predicate Runs(s: State, run: seq<Action>)
    decreases |run|
  {
    run == [] || (Enabled(s, run[0]) && Runs(Apply(s, run[0]), run[1..]))
  }

  function Final(s: State, run: seq<Action>): State
    requires Runs(s, run)
    decreases |run|
  {
    if run == [] then s else Final(Apply(s, run[0]), run[1..])
  }
}
