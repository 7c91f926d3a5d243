/**
 What every step of the scheduler keeps: one token per queue, exact reference counts, one deletion
 and one free, and the message ledger.
 */
module SchedulerInvariant {
  import opened Scheduler

  // ----- tokens: a place in the global queue, a worker, or the creator

  predicate OwnToken(next: After) { next.Retire? || next.GiveToken? }

  predicate HoldsToken(pc: Actor, h: Handle) {
    match pc
    case Initing(x) => x == h
    case FailRetiring(x) => x == h
    case Releasing(x, next) => (OwnToken(next) && x == h) || next == Keep(h)
    case Deleting(x, next) => (OwnToken(next) && x == h) || next == Keep(h)
    case Yielding(x, _) => x == h
    case Dropping(x, _) => x == h
    case Grabbing(x) => x == h
    case Popping(x) => x == h
    case Running(x, _) => x == h
    case Choosing(x) => x == h
    case Returning(x, q) => x == h || q == h
    case _ => false
  }

  predicate Distinct(q: seq<Handle>) {
    forall i, j :: 0 <= i < j < |q| ==> q[i] != q[j]
  }

  ghost predicate HasToken(s: State, h: Handle) {
    h in s.global || exists a :: HoldsToken(s.Of(a), h)
  }

  ghost predicate OneToken(s: State) {
    && Distinct(s.global)
    && (forall a, h :: HoldsToken(s.Of(a), h) ==> h !in s.global)
    && (forall a, b, h :: HoldsToken(s.Of(a), h) && HoldsToken(s.Of(b), h) ==> a == b)
    && (forall a :: s.Of(a).Returning? ==> s.Of(a).h != s.Of(a).q)
  }

  /** The queue is in use and its flags say that somebody must look at it. */
  predicate Wanted(v: Service) { v.frees == 0 && (v.inGlobal || v.release) }

  ghost predicate TokenWhenWanted(s: State) {
    && (forall h :: HasToken(s, h) ==> h in s.services && Wanted(s.services[h]))
    && (forall h :: h in s.services && Wanted(s.services[h]) ==> HasToken(s, h))
  }

  predicate NotStranded(v: Service) {
    v.pending != [] ==> v.frees == 0 && (v.inGlobal || v.release)
  }

  // ----- references

  function RefSet(actors: map<nat, Actor>, h: Handle): set<nat> {
    set a | a in actors && HoldsRef(actors[a], h)
  }

  function RefCount(s: State, h: Handle): int
    requires h in s.services
  {
    var v := s.services[h];
    (if v.registered then 1 else 0) + v.reserved + |RefSet(s.actors, h)|
  }

  ghost predicate RefInv(s: State) {
    && (forall h :: h in s.services ==> s.services[h].ref == RefCount(s, h))
    && (forall a, h :: HoldsRef(s.Of(a), h) ==> h in s.services)
  }

  // ----- deletion

  ghost predicate BeingDeleted(s: State, h: Handle) {
    exists a :: s.Of(a).Deleting? && s.Of(a).h == h
  }

  predicate LifeOf(v: Service) {
    && v.deletes == (if v.release then 1 else 0)
    && (v.release ==> v.ref == 0)
    && v.frees <= 1
    && (v.frees == 1 ==> v.release && v.pending == [])
    && (v.dropped != [] ==> v.release)
    && v.accepted == v.handed + v.dropped + v.pending
    && NotStranded(v)
  }

  ghost predicate LifeInv(s: State) {
    && (forall h :: h in s.services ==> LifeOf(s.services[h]))
    && (forall h :: h in s.services && s.services[h].ref == 0 && !s.services[h].release ==> BeingDeleted(s, h))
    && (forall a :: s.Of(a).Deleting? ==>
          && s.Of(a).h in s.services && s.services[s.Of(a).h].ref == 0 && !s.services[s.Of(a).h].release)
    && (forall a, b :: s.Of(a).Deleting? && s.Of(b).Deleting? && s.Of(a).h == s.Of(b).h ==> a == b)
    && (forall a :: s.Of(a).Dropping? ==> s.Of(a).h in s.services && s.services[s.Of(a).h].release)
  }

  // ----- init

  /** skynet_context_new of the service is still running and has not handed the queue on. */
  predicate Creates(pc: Actor, h: Handle) {
    (pc.Initing? || pc.FailRetiring? || (pc.Releasing? && pc.next.Retire?) || (pc.Deleting? && pc.next.Retire?)) && pc.h == h
  }

  predicate Dispatches(pc: Actor, h: Handle) {
    (pc.Popping? || pc.Running? || pc.Choosing? || pc.Returning?) && pc.h == h
  }

  ghost predicate StartInv(s: State) {
    && (forall h :: h in s.services && s.services[h].registered && !s.services[h].started ==> exists a :: Creates(s.Of(a), h))
    && (forall a, h :: Dispatches(s.Of(a), h) ==> h in s.services && s.services[h].started)
  }

  ghost predicate Inv(s: State) {
    OneToken(s) && TokenWhenWanted(s) && RefInv(s) && LifeInv(s) && StartInv(s)
  }

  // ----- frames

  lemma OtherActors(s: State, act: Action, b: nat)
    requires Enabled(s, act) && b != act.a
    ensures Apply(s, act).Of(b) == s.Of(b)
  {
  }

  /** The service a step may change. */
  function Subject(s: State, act: Action): Handle {
    match act
    case CallPush(_, h, _) => h
    case CallRetire(_, h) => h
    case CallNew(_, h) => h
    case Unreserve(_, h) => h
    case _ => if s.Of(act.a).Done? || s.Of(act.a).Fetching? then 0 else s.Of(act.a).h
  }

  /** How one service may differ after a step of actor `pc`. */
  predicate Evolves(v: Service, w: Service, act: Action, pc: Actor) {
    && (v.release ==> w.release)
    && (v.started ==> w.started)
    && (w.registered ==> v.registered)
    && (w.handed == v.handed || (act.Step? && pc.Popping?))
    && ((act.Step? && (pc.Queueing? || pc.Deleting? || pc.Popping? || pc.Dropping?)) || act.InitSucceeds? ||
        (w.inGlobal == v.inGlobal && w.release == v.release && w.frees == v.frees))
    && (act.Step? && (pc.Popping? || pc.Dropping?) && v.pending != [] ==>
          w.inGlobal == v.inGlobal && w.release == v.release && w.frees == v.frees)
  }

  lemma StepEvolves(s: State, a: nat, pc: Actor)
    requires !pc.Done? && !pc.Initing? && !pc.Running? && !pc.Fetching? && pc.h in s.services && s.Of(a) == pc
    ensures var t := StepOf(s, a, pc);
            pc.h in t.services && Evolves(s.services[pc.h], t.services[pc.h], Step(a), pc)
  {
    match pc {
      case Queueing(_, _) =>
      case Deleting(_, _) =>
      case Releasing(_, _) =>
      case Popping(_) =>
      case Dropping(_, _) =>
      case _ => PlainEvolves(s, a, pc);
    }
  }

  lemma PlainEvolves(s: State, a: nat, pc: Actor)
    requires pc.Pushing? || pc.Retiring? || pc.FailRetiring? || pc.Yielding? || pc.Grabbing? || pc.Choosing? || pc.Returning?
    requires pc.h in s.services && s.Of(a) == pc
    ensures var t := StepOf(s, a, pc);
            pc.h in t.services && Evolves(s.services[pc.h], t.services[pc.h], Step(a), pc)
  {
  }

  lemma OtherServices(s: State, act: Action, h: Handle)
    requires Enabled(s, act) && h != Subject(s, act)
    ensures h in Apply(s, act).services <==> h in s.services
    ensures h in s.services ==> Apply(s, act).services[h] == s.services[h]
  {
    if act.Step? { OthersOfStep(s, act.a, s.Of(act.a), h); }
  }

  lemma OthersOfStep(s: State, a: nat, pc: Actor, h: Handle)
    requires !pc.Done? && !pc.Initing? && !pc.Running? && (ByAnyHandle(pc) || pc.h in s.services)
    requires pc.Fetching? || h != pc.h
    ensures h in StepOf(s, a, pc).services <==> h in s.services
    ensures h in s.services ==> StepOf(s, a, pc).services[h] == s.services[h]
  {
    match pc {
      case Queueing(_, _) =>
      case Deleting(_, _) =>
      case Fetching =>
      case Choosing(_) =>
      case Dropping(_, _) =>
      case _ =>
    }
  }

  /** What a step may do to a service. */
  lemma ServiceEvolves(s: State, act: Action, h: Handle)
    requires Enabled(s, act) && h in s.services
    ensures h in Apply(s, act).services && Evolves(s.services[h], Apply(s, act).services[h], act, s.Of(act.a))
  {
    if h != Subject(s, act) {
      OtherServices(s, act, h);
    } else if act.Step? {
      if !s.Of(act.a).Fetching? { StepEvolves(s, act.a, s.Of(act.a)); }
    }
  }

  // ----- the global queue only loses its head or gains one handle

  predicate PopsGlobal(s: State, act: Action) {
    act.Step? && (s.Of(act.a).Fetching? || s.Of(act.a).Choosing?) && s.global != []
  }

  lemma GlobalStep(s: State, act: Action)
    requires Enabled(s, act)
    ensures var t := Apply(s, act);
            if PopsGlobal(s, act) then t.global == s.global[1..]
            else t.global == s.global || t.global == s.global + [Subject(s, act)] ||
                 t.global == s.global + [Subject(s, act)] + [Subject(s, act)]
  {
  }
}
