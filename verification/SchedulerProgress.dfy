/**
 The scheduler can always go on: the queues of the global list come up in order, every message of a service that is
 up can be handed out, and every queue that is released can be emptied and freed.
 */
module SchedulerProgress {
  import opened Scheduler
  import opened SchedulerInvariant
  import opened SchedulerSteps
  import opened SchedulerTheorems

  // ----- the global list is first come, first served

  /** How often a run takes a queue off the global list. */
  function Taken(s: State, run: seq<Action>): nat
    requires Runs(s, run)
    decreases |run|
  {
    if run == [] then 0
    else (if PopsGlobal(s, run[0]) then 1 else 0) + Taken(Apply(s, run[0]), run[1..])
  }

  /** A queue with k others before it is the next one once k have been taken, whatever has been put behind it. */
  lemma {:induction false} QueuesTakeTurns(s: State, run: seq<Action>, k: nat)
    requires Runs(s, run) && k < |s.global| && Taken(s, run) <= k
    ensures k - Taken(s, run) < |Final(s, run).global| && Final(s, run).global[k - Taken(s, run)] == s.global[k]
    decreases |run|
  {
    if run != [] {
      var act := run[0];
      GlobalStep(s, act);
      if PopsGlobal(s, act) {
        assert Apply(s, act).global[k - 1] == s.global[k];
        QueuesTakeTurns(Apply(s, act), run[1..], k - 1);
      } else {
        QueuesTakeTurns(Apply(s, act), run[1..], k);
      }
    }
  }

  // ----- what can be reached

  ghost predicate Leads(s: State, t: State) {
    exists more :: Runs(s, more) && Final(s, more) == t
  }

  lemma LeadsSelf(s: State)
    ensures Leads(s, s)
  {
    assert Runs(s, []) && Final(s, []) == s;
  }

  lemma LeadsOn(s: State, act: Action, t: State)
    requires Enabled(s, act) && Leads(Apply(s, act), t)
    ensures Leads(s, t)
  {
    var more :| Runs(Apply(s, act), more) && Final(Apply(s, act), more) == t;
    assert ([act] + more)[1..] == more;
    assert Runs(s, [act] + more) && Final(s, [act] + more) == t;
  }

  lemma {:induction false} LeadsFurther(s: State, more: seq<Action>, t: State)
    requires Runs(s, more) && Leads(Final(s, more), t)
    ensures Leads(s, t)
    decreases |more|
  {
    if more != [] {
      LeadsFurther(Apply(s, more[0]), more[1..], t);
      LeadsOn(s, more[0], t);
    }
  }

  /** The service is not marked as started while skynet_context_new still works on it. */
  ghost predicate CreatorsInv(s: State) {
    forall a, h :: Creates(s.Of(a), h) ==> h in s.services && !s.services[h].started
  }

  ghost predicate Good(s: State) { Inv(s) && CreatorsInv(s) }

  lemma CreatorComes(s: State, act: Action, h: Handle)
    requires Enabled(s, act) && Creates(Apply(s, act).Of(act.a), h)
    ensures Creates(s.Of(act.a), h) || (act.CallNew? && act.h == h)
    ensures !act.InitSucceeds?
  {
    if act.Step? { CreatorSteps(s, act.a, s.Of(act.a), h); }
  }

  lemma CreatorSteps(s: State, a: nat, pc: Actor, h: Handle)
    requires Enabled(s, Step(a)) && s.Of(a) == pc && Creates(StepOf(s, a, pc).Of(a), h)
    ensures Creates(pc, h)
  {
    match pc {
      case Queueing(_, _) =>
      case Deleting(_, _) =>
      case Releasing(_, _) =>
      case Dropping(_, _) =>
      case _ =>
    }
  }

  lemma CreatorsInvKept(s: State, act: Action)
    requires Good(s) && Enabled(s, act)
    ensures CreatorsInv(Apply(s, act))
  {
    var t := Apply(s, act);
    forall a, h | Creates(t.Of(a), h) ensures h in t.services && !t.services[h].started {
      if a == act.a {
        CreatorComes(s, act, h);
      } else {
        OtherActors(s, act, a);
        if act.InitSucceeds? && s.Of(act.a).h == h {
          assert HoldsToken(s.Of(a), h) && HoldsToken(s.Of(act.a), h);
        }
      }
      if !act.CallNew? || act.h != h { OnlyLaunchStarts(s, act, h); }
    }
  }

  lemma GoodKept(s: State, act: Action)
    requires Good(s) && Enabled(s, act)
    ensures Good(Apply(s, act))
  {
    StepKeeps(s, act);
    CreatorsInvKept(s, act);
  }

  lemma {:induction false} GoodRun(s: State, run: seq<Action>)
    requires Good(s) && Runs(s, run)
    ensures Good(Final(s, run))
    decreases |run|
  {
    if run != [] {
      GoodKept(s, run[0]);
      GoodRun(Apply(s, run[0]), run[1..]);
    }
  }

  lemma GoodReached(run: seq<Action>)
    requires Runs(Init(), run)
    ensures Good(Final(Init(), run))
  {
    Reached([]);
    forall a, h ensures !Creates(Init().Of(a), h) {}
    GoodRun(Init(), run);
  }

  /** There is always a thread that does nothing. */
  lemma IdleActor(s: State) returns (b: nat)
    ensures s.Of(b).Done?
  {
    b := AboveAll(s.actors.Keys);
  }

  lemma AboveAll(keys: set<nat>) returns (b: nat)
    ensures forall k :: k in keys ==> k < b
  {
    if keys == {} {
      b := 0;
    } else {
      var k :| k in keys;
      b := AboveAll(keys - {k});
      assert forall j :: j in keys ==> j == k || j in keys - {k};
      if b <= k { b := k + 1; }
    }
  }

  // ----- every waiting message can be handed out

  /** The service is up, with these messages waiting and those handed out. */
  predicate Serves(s: State, h: Handle, waiting: seq<Message>, handed: seq<Message>) {
    Registered(s, h) && s.services[h].started && s.services[h].pending == waiting && s.services[h].handed == handed
  }

  /** From s the first waiting message can be given to a callback, and nothing else has happened to the service. */
  ghost predicate Serve(s: State, h: Handle, waiting: seq<Message>, handed: seq<Message>) {
    waiting != [] &&
    exists t, a ::
      && Leads(s, t) && Good(t) && t.Of(a) == Running(h, waiting[0])
      && Serves(t, h, waiting[1..], handed + [waiting[0]])
  }

  lemma ServeOn(s: State, act: Action, h: Handle, waiting: seq<Message>, handed: seq<Message>)
    requires Enabled(s, act) && Serve(Apply(s, act), h, waiting, handed)
    ensures Serve(s, h, waiting, handed)
  {
    var t, a :|
      && Leads(Apply(s, act), t) && Good(t) && t.Of(a) == Running(h, waiting[0])
      && Serves(t, h, waiting[1..], handed + [waiting[0]]);
    LeadsOn(s, act, t);
  }

  lemma FromPopping(s: State, a: nat, h: Handle, waiting: seq<Message>, handed: seq<Message>)
    requires Good(s) && Serves(s, h, waiting, handed) && waiting != [] && s.Of(a) == Popping(h)
    ensures Serve(s, h, waiting, handed)
  {
    var t := Apply(s, Step(a));
    GoodKept(s, Step(a));
    LeadsSelf(t);
    LeadsOn(s, Step(a), t);
    assert t.Of(a) == Running(h, waiting[0]);
  }

  lemma FromGrabbing(s: State, a: nat, h: Handle, waiting: seq<Message>, handed: seq<Message>)
    requires Good(s) && Serves(s, h, waiting, handed) && waiting != [] && s.Of(a) == Grabbing(h)
    ensures Serve(s, h, waiting, handed)
  {
    GoodKept(s, Step(a));
    FromPopping(Apply(s, Step(a)), a, h, waiting, handed);
    ServeOn(s, Step(a), h, waiting, handed);
  }

  /** Idle workers take what is before it. */
  lemma FromGlobal(s: State, h: Handle, waiting: seq<Message>, handed: seq<Message>)
    requires Good(s) && Serves(s, h, waiting, handed) && waiting != [] && h in s.global
    ensures Serve(s, h, waiting, handed)
    decreases |s.global|
  {
    var b := IdleActor(s);
    var t := Apply(s, StartWorker(b));
    var u := Apply(t, Step(b));
    GoodKept(s, StartWorker(b));
    GoodKept(t, Step(b));
    if s.global[0] == h {
      FromGrabbing(u, b, h, waiting, handed);
    } else {
      FromGlobal(u, h, waiting, handed);
    }
    ServeOn(t, Step(b), h, waiting, handed);
    ServeOn(s, StartWorker(b), h, waiting, handed);
  }

  lemma FromYielding(s: State, a: nat, h: Handle, waiting: seq<Message>, handed: seq<Message>)
    requires Good(s) && Serves(s, h, waiting, handed) && waiting != [] && s.Of(a).Yielding? && s.Of(a).h == h
    ensures Serve(s, h, waiting, handed)
  {
    GoodKept(s, Step(a));
    RegisteredLives(s, h);
    FromGlobal(Apply(s, Step(a)), h, waiting, handed);
    ServeOn(s, Step(a), h, waiting, handed);
  }

  /** Where an actor in the middle of a release or deletion goes on with the queue it holds. */
  predicate Goes(next: After, x: Handle, h: Handle) { next == Keep(h) || (next.GiveToken? && x == h) }

  lemma FromResumed(s: State, a: nat, h: Handle, waiting: seq<Message>, handed: seq<Message>)
    requires Good(s) && Serves(s, h, waiting, handed) && waiting != []
    requires s.Of(a) == Grabbing(h) || (s.Of(a).Yielding? && s.Of(a).h == h)
    ensures Serve(s, h, waiting, handed)
  {
    if s.Of(a).Grabbing? { FromGrabbing(s, a, h, waiting, handed); } else { FromYielding(s, a, h, waiting, handed); }
  }

  lemma FromDeleting(s: State, a: nat, h: Handle, waiting: seq<Message>, handed: seq<Message>)
    requires Good(s) && Serves(s, h, waiting, handed) && waiting != []
    requires s.Of(a).Deleting? && Goes(s.Of(a).next, s.Of(a).h, h)
    ensures Serve(s, h, waiting, handed)
  {
    GoodKept(s, Step(a));
    FromResumed(Apply(s, Step(a)), a, h, waiting, handed);
    ServeOn(s, Step(a), h, waiting, handed);
  }

  lemma FromReleasing(s: State, a: nat, h: Handle, waiting: seq<Message>, handed: seq<Message>)
    requires Good(s) && Serves(s, h, waiting, handed) && waiting != []
    requires s.Of(a).Releasing? && Goes(s.Of(a).next, s.Of(a).h, h)
    ensures Serve(s, h, waiting, handed)
  {
    ReferencedLives(s, a, s.Of(a).h);
    var t := Apply(s, Step(a));
    GoodKept(s, Step(a));
    if t.Of(a).Deleting? { FromDeleting(t, a, h, waiting, handed); } else { FromResumed(t, a, h, waiting, handed); }
    ServeOn(s, Step(a), h, waiting, handed);
  }

  lemma FromReturning(s: State, a: nat, h: Handle, waiting: seq<Message>, handed: seq<Message>)
    requires Good(s) && Serves(s, h, waiting, handed) && waiting != []
    requires s.Of(a).Returning? && (s.Of(a).h == h || s.Of(a).q == h)
    ensures Serve(s, h, waiting, handed)
  {
    ReferencedLives(s, a, s.Of(a).h);
    var t := Apply(s, Step(a));
    GoodKept(s, Step(a));
    if s.Of(a).q == h { FromReleasing(t, a, h, waiting, handed); } else { FromGlobal(t, h, waiting, handed); }
    ServeOn(s, Step(a), h, waiting, handed);
  }

  lemma FromChoosing(s: State, a: nat, h: Handle, waiting: seq<Message>, handed: seq<Message>)
    requires Good(s) && Serves(s, h, waiting, handed) && waiting != [] && s.Of(a) == Choosing(h)
    ensures Serve(s, h, waiting, handed)
  {
    var t := Apply(s, Step(a));
    GoodKept(s, Step(a));
    if t.Of(a).Returning? { FromReturning(t, a, h, waiting, handed); } else { FromReleasing(t, a, h, waiting, handed); }
    ServeOn(s, Step(a), h, waiting, handed);
  }

  lemma FromRunning(s: State, a: nat, h: Handle, waiting: seq<Message>, handed: seq<Message>)
    requires Good(s) && Serves(s, h, waiting, handed) && waiting != [] && s.Of(a).Running? && s.Of(a).h == h
    ensures Serve(s, h, waiting, handed)
  {
    var act := CallbackEnds(a, true);
    GoodKept(s, act);
    FromPopping(Apply(s, act), a, h, waiting, handed);
    ServeOn(s, act, h, waiting, handed);
  }

  lemma FromToken(s: State, a: nat, h: Handle, waiting: seq<Message>, handed: seq<Message>)
    requires Good(s) && Serves(s, h, waiting, handed) && waiting != [] && HoldsToken(s.Of(a), h)
    ensures Serve(s, h, waiting, handed)
  {
    var pc := s.Of(a);
    RegisteredLives(s, h);
    assert !Creates(pc, h);
    match pc {
      case Releasing(_, _) => FromReleasing(s, a, h, waiting, handed);
      case Deleting(_, _) => FromDeleting(s, a, h, waiting, handed);
      case Yielding(_, _) => FromYielding(s, a, h, waiting, handed);
      case Grabbing(_) => FromGrabbing(s, a, h, waiting, handed);
      case Popping(_) => FromPopping(s, a, h, waiting, handed);
      case Running(_, _) => FromRunning(s, a, h, waiting, handed);
      case Choosing(_) => FromChoosing(s, a, h, waiting, handed);
      case Returning(_, _) => FromReturning(s, a, h, waiting, handed);
      case _ =>
    }
  }

  lemma FromAnywhere(s: State, h: Handle, waiting: seq<Message>, handed: seq<Message>)
    requires Good(s) && Serves(s, h, waiting, handed) && waiting != []
    ensures Serve(s, h, waiting, handed)
  {
    assert LifeOf(s.services[h]) && Wanted(s.services[h]);
    if h in s.global {
      FromGlobal(s, h, waiting, handed);
    } else {
      var a :| HoldsToken(s.Of(a), h);
      FromToken(s, a, h, waiting, handed);
    }
  }

  lemma FirstMessage(s: State, h: Handle) returns (u: State, a: nat)
    requires Good(s) && Registered(s, h) && s.services[h].started && s.services[h].pending != []
    ensures var v := s.services[h];
            && Leads(s, u) && Good(u) && u.Of(a) == Running(h, v.pending[0])
            && Serves(u, h, v.pending[1..], v.handed + [v.pending[0]])
  {
    var v := s.services[h];
    FromAnywhere(s, h, v.pending, v.handed);
    u, a :|
      && Leads(s, u) && Good(u) && u.Of(a) == Running(h, v.pending[0])
      && Serves(u, h, v.pending[1..], v.handed + [v.pending[0]]);
  }

  lemma LeadsTwice(s: State, u: State, t: State)
    requires Leads(s, u) && Leads(u, t)
    ensures Leads(s, t)
  {
    var more :| Runs(s, more) && Final(s, more) == u;
    LeadsFurther(s, more, t);
  }

  lemma MovesOver(handed: seq<Message>, waiting: seq<Message>, k: nat)
    requires k < |waiting|
    ensures waiting[..1] == [waiting[0]]
    ensures k > 0 ==> waiting[1..][k - 1] == waiting[k]
    ensures k > 0 ==> (handed + [waiting[0]]) + waiting[1..][..k] == handed + waiting[..k + 1]
  {
  }

  lemma {:induction false} NextMessages(s: State, h: Handle, k: nat, waiting: seq<Message>, handed: seq<Message>)
    returns (t: State, a: nat)
    requires Good(s) && Serves(s, h, waiting, handed) && k < |waiting|
    ensures Leads(s, t) && t.Of(a) == Running(h, waiting[k])
    ensures h in t.services && t.services[h].handed == handed + waiting[..k + 1]
    decreases k
  {
    MovesOver(handed, waiting, k);
    t, a := FirstMessage(s, h);
    if k > 0 {
      var u := t;
      t, a := NextMessages(u, h, k - 1, waiting[1..], handed + [waiting[0]]);
      LeadsTwice(s, u, t);
    }
  }

  /**
   Whatever has happened, every message waiting for a service that is up can still come to its callback, after the
   messages before it and no others.
   */
  lemma EveryMessageCanBeHandled(run: seq<Action>, h: Handle, k: nat)
    requires Runs(Init(), run)
    requires var s := Final(Init(), run);
             Registered(s, h) && s.services[h].started && k < |s.services[h].pending|
    ensures var s := Final(Init(), run);
            var v := s.services[h];
            exists more, a ::
              && Runs(s, more) && Final(s, more).Of(a) == Running(h, v.pending[k])
              && h in Final(s, more).services
              && Final(s, more).services[h].handed == v.handed + v.pending[..k + 1]
  {
    GoodReached(run);
    var s := Final(Init(), run);
    var t, a := NextMessages(s, h, k, s.services[h].pending, s.services[h].handed);
    var more :| Runs(s, more) && Final(s, more) == t;
    assert Final(s, more).Of(a) == Running(h, s.services[h].pending[k]);
  }

  // ----- every released queue can be freed

  /** The context is gone and the queue is still there, with these messages waiting and those dropped. */
  predicate Ended(s: State, h: Handle, waiting: seq<Message>, dropped: seq<Message>) {
    && h in s.services && s.services[h].release && s.services[h].frees == 0
    && s.services[h].pending == waiting && s.services[h].dropped == dropped
  }

  /** The queue can be freed, with every message dropped. */
  ghost predicate Ends(s: State, h: Handle, gone: seq<Message>) {
    exists t :: Leads(s, t) && h in t.services && t.services[h].frees == 1 && t.services[h].dropped == gone
  }

  lemma EndsOn(s: State, act: Action, h: Handle, gone: seq<Message>)
    requires Enabled(s, act) && Ends(Apply(s, act), h, gone)
    ensures Ends(s, h, gone)
  {
    var t :| Leads(Apply(s, act), t) && h in t.services && t.services[h].frees == 1 && t.services[h].dropped == gone;
    LeadsOn(s, act, t);
  }

  /** Without references the context is not in the table, and nobody works on it but the holder of the token. */
  lemma EndedIsAlone(s: State, h: Handle)
    requires Good(s) && h in s.services && s.services[h].release
    ensures !s.services[h].registered
    ensures forall a :: !HoldsRef(s.Of(a), h) && !(s.Of(a).Deleting? && s.Of(a).h == h)
  {
    assert LifeOf(s.services[h]);
    if s.services[h].registered { RegisteredLives(s, h); assert false; }
    forall a ensures !HoldsRef(s.Of(a), h) {
      if HoldsRef(s.Of(a), h) { ReferencedLives(s, a, h); assert false; }
    }
  }

  lemma {:induction false} EndDropping(s: State, a: nat, h: Handle, waiting: seq<Message>, dropped: seq<Message>)
    requires Ended(s, h, waiting, dropped) && s.Of(a).Dropping? && s.Of(a).h == h
    ensures Ends(s, h, dropped + waiting)
    decreases |waiting|
  {
    var t := Apply(s, Step(a));
    if waiting == [] {
      LeadsSelf(t);
      assert dropped + waiting == dropped;
      assert Ends(t, h, dropped);
    } else {
      EndDropping(t, a, h, waiting[1..], dropped + [waiting[0]]);
      assert dropped + [waiting[0]] + waiting[1..] == dropped + waiting;
    }
    EndsOn(s, Step(a), h, dropped + waiting);
  }

  lemma EndYielding(s: State, a: nat, h: Handle, waiting: seq<Message>, dropped: seq<Message>)
    requires Ended(s, h, waiting, dropped) && s.Of(a).Yielding? && s.Of(a).h == h
    ensures Ends(s, h, dropped + waiting)
  {
    EndDropping(Apply(s, Step(a)), a, h, waiting, dropped);
    EndsOn(s, Step(a), h, dropped + waiting);
  }

  lemma EndGrabbing(s: State, a: nat, h: Handle, waiting: seq<Message>, dropped: seq<Message>)
    requires Good(s) && Ended(s, h, waiting, dropped)
    requires s.Of(a) == Grabbing(h) || s.Of(a) == FailRetiring(h)
    ensures Ends(s, h, dropped + waiting)
  {
    EndedIsAlone(s, h);
    EndYielding(Apply(s, Step(a)), a, h, waiting, dropped);
    EndsOn(s, Step(a), h, dropped + waiting);
  }

  lemma {:induction false} EndGlobal(s: State, h: Handle, waiting: seq<Message>, dropped: seq<Message>)
    requires Good(s) && Ended(s, h, waiting, dropped) && h in s.global
    ensures Ends(s, h, dropped + waiting)
    decreases |s.global|
  {
    var b := IdleActor(s);
    var t := Apply(s, StartWorker(b));
    var u := Apply(t, Step(b));
    GoodKept(s, StartWorker(b));
    GoodKept(t, Step(b));
    if s.global[0] == h {
      EndGrabbing(u, b, h, waiting, dropped);
    } else {
      EndGlobal(u, h, waiting, dropped);
    }
    EndsOn(t, Step(b), h, dropped + waiting);
    EndsOn(s, StartWorker(b), h, dropped + waiting);
  }

  lemma EndDeleting(s: State, a: nat, h: Handle, waiting: seq<Message>, dropped: seq<Message>)
    requires Good(s) && Ended(s, h, waiting, dropped)
    requires s.Of(a).Deleting? && s.Of(a).next == Keep(h) && s.Of(a).h != h
    ensures Ends(s, h, dropped + waiting)
  {
    assert s.Of(a).h in s.services;
    GoodKept(s, Step(a));
    EndGrabbing(Apply(s, Step(a)), a, h, waiting, dropped);
    EndsOn(s, Step(a), h, dropped + waiting);
  }

  lemma EndReleasing(s: State, a: nat, h: Handle, waiting: seq<Message>, dropped: seq<Message>)
    requires Good(s) && Ended(s, h, waiting, dropped)
    requires s.Of(a).Releasing? && s.Of(a).next == Keep(h) && s.Of(a).h != h
    ensures Ends(s, h, dropped + waiting)
  {
    ReferencedLives(s, a, s.Of(a).h);
    var t := Apply(s, Step(a));
    GoodKept(s, Step(a));
    if t.Of(a).Deleting? { EndDeleting(t, a, h, waiting, dropped); } else { EndGrabbing(t, a, h, waiting, dropped); }
    EndsOn(s, Step(a), h, dropped + waiting);
  }

  lemma EndReturning(s: State, a: nat, h: Handle, waiting: seq<Message>, dropped: seq<Message>)
    requires Good(s) && Ended(s, h, waiting, dropped) && s.Of(a).Returning? && s.Of(a).q == h && s.Of(a).h != h
    ensures Ends(s, h, dropped + waiting)
  {
    ReferencedLives(s, a, s.Of(a).h);
    GoodKept(s, Step(a));
    EndReleasing(Apply(s, Step(a)), a, h, waiting, dropped);
    EndsOn(s, Step(a), h, dropped + waiting);
  }

  lemma EndToken(s: State, a: nat, h: Handle, waiting: seq<Message>, dropped: seq<Message>)
    requires Good(s) && Ended(s, h, waiting, dropped) && HoldsToken(s.Of(a), h)
    ensures Ends(s, h, dropped + waiting)
  {
    EndedIsAlone(s, h);
    var pc := s.Of(a);
    assert !HoldsRef(pc, h);
    match pc {
      case FailRetiring(_) => EndGrabbing(s, a, h, waiting, dropped);
      case Grabbing(_) => EndGrabbing(s, a, h, waiting, dropped);
      case Releasing(_, _) => EndReleasing(s, a, h, waiting, dropped);
      case Deleting(_, _) => EndDeleting(s, a, h, waiting, dropped);
      case Yielding(_, _) => EndYielding(s, a, h, waiting, dropped);
      case Dropping(_, _) => EndDropping(s, a, h, waiting, dropped);
      case Returning(_, _) => EndReturning(s, a, h, waiting, dropped);
      case _ =>
    }
  }

  /** Whatever has happened, the queue of a deleted context can still be freed, with the messages left in it dropped in order. */
  lemma EveryQueueCanBeFreed(run: seq<Action>, h: Handle)
    requires Runs(Init(), run)
    requires var s := Final(Init(), run); h in s.services && s.services[h].release && s.services[h].frees == 0
    ensures var s := Final(Init(), run);
            var v := s.services[h];
            exists more ::
              && Runs(s, more) && h in Final(s, more).services
              && Final(s, more).services[h].frees == 1
              && Final(s, more).services[h].dropped == v.dropped + v.pending
  {
    GoodReached(run);
    var s := Final(Init(), run);
    var v := s.services[h];
    assert Wanted(v);
    if h in s.global {
      EndGlobal(s, h, v.pending, v.dropped);
    } else {
      var a :| HoldsToken(s.Of(a), h);
      EndToken(s, a, h, v.pending, v.dropped);
    }
    var t :| Leads(s, t) && h in t.services && t.services[h].frees == 1 && t.services[h].dropped == v.dropped + v.pending;
    var more :| Runs(s, more) && Final(s, more) == t;
  }
}
