/**
 What holds in every run of the scheduler.
 */
module SchedulerTheorems {
  import opened Scheduler
  import opened SchedulerInvariant
  import opened SchedulerSteps

  lemma HandsOut(s: State, act: Action, h: Handle)
    requires Enabled(s, act) && h in s.services
    ensures h in Apply(s, act).services
    ensures Apply(s, act).services[h].handed == s.services[h].handed || (s.Of(act.a).Popping? && s.Of(act.a).h == h)
  {
    ServiceEvolves(s, act, h);
    if h != Subject(s, act) { OtherServices(s, act, h); }
  }

  predicate Current(s: State, a: nat) {
    var pc := s.Of(a);
    pc.Running? ==>
      && pc.h in s.services && s.services[pc.h].handed != []
      && s.services[pc.h].handed[|s.services[pc.h].handed| - 1] == pc.m
  }

  lemma CurrentOwn(s: State, act: Action)
    requires Enabled(s, act) && Current(s, act.a)
    ensures Current(Apply(s, act), act.a)
  {
  }

  /** The message a callback works on is the last one its queue has handed out. */
  ghost predicate CurrentInv(s: State) { forall a :: Current(s, a) }

  lemma CurrentKept(s: State, act: Action)
    requires OneToken(s) && CurrentInv(s) && Enabled(s, act)
    ensures CurrentInv(Apply(s, act))
  {
    var t, a := Apply(s, act), act.a;
    forall b ensures Current(t, b) {
      assert Current(s, b);
      if b == a {
        CurrentOwn(s, act);
      } else {
        OtherActors(s, act, b);
        if s.Of(b).Running? {
          HandsOut(s, act, s.Of(b).h);
          assert HoldsToken(s.Of(b), s.Of(b).h);
        }
      }
    }
  }

  lemma {:induction false} RunKeeps(s: State, run: seq<Action>)
    requires Inv(s) && CurrentInv(s) && Runs(s, run)
    ensures Inv(Final(s, run)) && CurrentInv(Final(s, run))
    decreases |run|
  {
    if run != [] {
      StepKeeps(s, run[0]);
      CurrentKept(s, run[0]);
      RunKeeps(Apply(s, run[0]), run[1..]);
    }
  }

  lemma Reached(run: seq<Action>)
    requires Runs(Init(), run)
    ensures Inv(Final(Init(), run)) && CurrentInv(Final(Init(), run))
  {
    var s := Init();
    forall a, h ensures !HoldsToken(s.Of(a), h) && !HoldsRef(s.Of(a), h) {}
    RunKeeps(s, run);
  }

  /** No two workers are ever in the dispatch of one service, and a dispatched service is in no list. */
  lemma OneDispatcher(run: seq<Action>, a: nat, b: nat, h: Handle)
    requires Runs(Init(), run)
    requires Dispatches(Final(Init(), run).Of(a), h) && Dispatches(Final(Init(), run).Of(b), h)
    ensures a == b && h !in Final(Init(), run).global
  {
    Reached(run);
    var s := Final(Init(), run);
    assert HoldsToken(s.Of(a), h) && HoldsToken(s.Of(b), h);
  }

  /** A live queue with messages, or one marked for release, has exactly one token. */
  lemma ExactlyOneToken(run: seq<Action>, h: Handle)
    requires Runs(Init(), run)
    requires var s := Final(Init(), run);
             h in s.services && s.services[h].frees == 0 && (s.services[h].pending != [] || s.services[h].release)
    ensures var s := Final(Init(), run);
            && HasToken(s, h)
            && (forall i, j :: 0 <= i < |s.global| && 0 <= j < |s.global| && s.global[i] == h == s.global[j] ==> i == j)
            && (forall a :: HoldsToken(s.Of(a), h) ==> h !in s.global)
            && (forall a, b :: HoldsToken(s.Of(a), h) && HoldsToken(s.Of(b), h) ==> a == b)
  {
    Reached(run);
    var s := Final(Init(), run);
    assert LifeOf(s.services[h]);
  }

  /** Messages are handed out in push order, each at most once; what is left at the free was dropped once. */
  lemma MessageLedger(run: seq<Action>, h: Handle)
    requires Runs(Init(), run) && h in Final(Init(), run).services
    ensures var v := Final(Init(), run).services[h];
            && v.accepted == v.handed + v.dropped + v.pending
            && (v.dropped != [] ==> v.release)
            && (v.frees > 0 ==> v.accepted == v.handed + v.dropped)
  {
    Reached(run);
    var v := Final(Init(), run).services[h];
    assert LifeOf(v);
    assert v.pending == [] ==> v.handed + v.dropped + v.pending == v.handed + v.dropped;
  }

  /** The count is exact; deletion happens once, at zero; the free happens once, after the deletion has marked the queue. */
  lemma CountsAndLifetimes(run: seq<Action>, h: Handle)
    requires Runs(Init(), run) && h in Final(Init(), run).services
    ensures var s := Final(Init(), run);
            var v := s.services[h];
            && v.ref == RefCount(s, h)
            && v.deletes == (if v.release then 1 else 0)
            && (v.deletes == 1 ==> v.ref == 0)
            && (v.ref == 0 && v.deletes == 0 ==> BeingDeleted(s, h))
            && v.frees <= v.deletes
  {
    Reached(run);
    assert LifeOf(Final(Init(), run).services[h]);
  }

  /** A push that has grabbed its context finds the context undeleted and the queue unfreed. */
  lemma PushesReachLiveQueues(run: seq<Action>, a: nat)
    requires Runs(Init(), run) && Final(Init(), run).Of(a).Queueing?
    ensures var s := Final(Init(), run);
            var h := s.Of(a).h;
            h in s.services && s.services[h].ref > 0 && s.services[h].deletes == 0 && s.services[h].frees == 0
  {
    Reached(run);
    var s := Final(Init(), run);
    ReferencedLives(s, a, s.Of(a).h);
    assert LifeOf(s.services[s.Of(a).h]);
  }

  /** A callback runs only on a live context whose init succeeded, with the message its queue handed out last. */
  lemma CallbacksOnStarted(run: seq<Action>, a: nat)
    requires Runs(Init(), run) && Final(Init(), run).Of(a).Running?
    ensures var s := Final(Init(), run);
            var h := s.Of(a).h;
            && h in s.services && s.services[h].started && s.services[h].ref > 0 && s.services[h].deletes == 0
            && s.services[h].handed != [] && s.services[h].handed[|s.services[h].handed| - 1] == s.Of(a).m
  {
    Reached(run);
    var s := Final(Init(), run);
    assert Dispatches(s.Of(a), s.Of(a).h) && Current(s, a);
    ReferencedLives(s, a, s.Of(a).h);
    assert LifeOf(s.services[s.Of(a).h]);
  }

  /** No actor is ever stuck with a handle that names nothing. */
  lemma NobodyIsStuck(run: seq<Action>, a: nat)
    requires Runs(Init(), run)
    ensures var s := Final(Init(), run);
            var pc := s.Of(a);
            if pc.Done? then Enabled(s, StartWorker(a))
            else if pc.Initing? then Enabled(s, InitSucceeds(a)) && Enabled(s, InitFails(a))
            else if pc.Running? then Enabled(s, CallbackEnds(a, true)) && Enabled(s, CallbackEnds(a, false))
            else Enabled(s, Step(a))
  {
    Reached(run);
    var s := Final(Init(), run);
    var pc := s.Of(a);
    if !pc.Done? && !pc.Fetching? {
      if HoldsToken(pc, pc.h) { TokenIsWanted(s, a, pc.h); }
      if HoldsRef(pc, pc.h) { ReferencedLives(s, a, pc.h); }
    }
  }
}
