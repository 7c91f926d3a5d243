/**
 Each invariant of the scheduler is kept by each step.
 */
module SchedulerSteps {
  import opened Scheduler
  import opened SchedulerInvariant

  // ----- one token

  /** A step of actor `a` keeps tokens single if it only passes on its own, takes one from the global queue, or creates one for a queue that has none. */
  lemma OneTokenAfter(s: State, t: State, a: nat)
    requires OneToken(s) && forall b :: b != a ==> t.Of(b) == s.Of(b)
    requires Distinct(t.global)
    requires forall h :: HoldsToken(t.Of(a), h) ==> h !in t.global && (HoldsToken(s.Of(a), h) || h in s.global || !HasToken(s, h))
    requires forall h :: h in t.global ==> h in s.global || HoldsToken(s.Of(a), h) || !HasToken(s, h)
    requires t.Of(a).Returning? ==> t.Of(a).h != t.Of(a).q
    ensures OneToken(t)
  {
    forall b, h | HoldsToken(t.Of(b), h) ensures h !in t.global {
      if b != a && h in t.global {
        assert HoldsToken(s.Of(b), h);
        assert HasToken(s, h);
      }
    }
    forall b, c, h | HoldsToken(t.Of(b), h) && HoldsToken(t.Of(c), h) ensures b == c {
      if b != a { assert HoldsToken(s.Of(b), h) && HasToken(s, h); }
      if c != a { assert HoldsToken(s.Of(c), h) && HasToken(s, h); }
    }
    forall b | t.Of(b).Returning? ensures t.Of(b).h != t.Of(b).q {
      if b != a { assert s.Of(b).Returning?; }
    }
  }

  lemma DistinctTail(q: seq<Handle>)
    requires Distinct(q) && q != []
    ensures Distinct(q[1..]) && q[0] !in q[1..]
  {
    forall i | 0 <= i < |q[1..]| ensures q[1..][i] != q[0] {
      assert q[i + 1] == q[1..][i];
    }
  }

  lemma DistinctMore(q: seq<Handle>, h: Handle)
    requires Distinct(q) && h !in q
    ensures Distinct(q + [h])
  {
  }

  /** A queue whose reference count is positive has not been released. */
  lemma ReferencedLives(s: State, a: nat, h: Handle)
    requires RefInv(s) && LifeInv(s) && HoldsRef(s.Of(a), h)
    ensures h in s.services && s.services[h].ref > 0 && !s.services[h].release && s.services[h].frees == 0
  {
    assert a in RefSet(s.actors, h);
    assert LifeOf(s.services[h]);
  }

  lemma TokenIsWanted(s: State, a: nat, h: Handle)
    requires TokenWhenWanted(s) && HoldsToken(s.Of(a), h)
    ensures h in s.services && Wanted(s.services[h])
  {
    assert HasToken(s, h);
  }

  lemma OneTokenPops(s: State, act: Action)
    requires OneToken(s) && Enabled(s, act) && PopsGlobal(s, act)
    ensures OneToken(Apply(s, act))
  {
    var t, a := Apply(s, act), act.a;
    DistinctTail(s.global);
    forall b | b != a ensures t.Of(b) == s.Of(b) { OtherActors(s, act, b); }
    assert t.global == s.global[1..] && s.global[0] in s.global;
    forall x | x in t.global ensures x in s.global {}
    forall h | HoldsToken(t.Of(a), h)
      ensures h !in t.global && (HoldsToken(s.Of(a), h) || h in s.global || !HasToken(s, h))
    {
      if h != s.global[0] { assert HoldsToken(s.Of(a), h); }
    }
    if s.Of(a).Choosing? { assert HoldsToken(s.Of(a), s.Of(a).h); }
    OneTokenAfter(s, t, a);
  }

  /** An actor gets a token only from the global queue or by creating the queue. */
  lemma TokensPass(s: State, act: Action, h: Handle)
    requires Enabled(s, act) && !act.CallNew? && !PopsGlobal(s, act) && HoldsToken(Apply(s, act).Of(act.a), h)
    ensures HoldsToken(s.Of(act.a), h)
  {
  }

  /** Steps that put nothing in the global queue and take nothing from it. */
  lemma OneTokenQuiet(s: State, act: Action)
    requires OneToken(s) && TokenWhenWanted(s)
    requires Enabled(s, act) && !PopsGlobal(s, act) && Apply(s, act).global == s.global
    ensures OneToken(Apply(s, act))
  {
    var t, a := Apply(s, act), act.a;
    forall b | b != a ensures t.Of(b) == s.Of(b) { OtherActors(s, act, b); }
    forall h | HoldsToken(t.Of(a), h)
      ensures h !in t.global && (HoldsToken(s.Of(a), h) || h in s.global || !HasToken(s, h))
    {
      if act.CallNew? {
        assert !HasToken(s, h);
      } else {
        TokensPass(s, act, h);
      }
    }
    OneTokenAfter(s, t, a);
  }

  /** Which handle a step puts in the global queue, when it does, and why that queue had no other token. */
  predicate PutsGlobal(s: State, act: Action, h: Handle)
    requires Enabled(s, act)
  {
    Apply(s, act).global == s.global + [h] && !PopsGlobal(s, act)
  }

  lemma OneTokenPuts(s: State, act: Action, h: Handle)
    requires OneToken(s) && Enabled(s, act) && PutsGlobal(s, act, h) && !act.CallNew?
    requires HoldsToken(s.Of(act.a), h) || !HasToken(s, h)
    requires !HoldsToken(Apply(s, act).Of(act.a), h)
    requires !Apply(s, act).Of(act.a).Returning?
    ensures OneToken(Apply(s, act))
  {
    var t, a := Apply(s, act), act.a;
    forall b | b != a ensures t.Of(b) == s.Of(b) { OtherActors(s, act, b); }
    assert h !in s.global;
    DistinctMore(s.global, h);
    forall x | HoldsToken(t.Of(a), x)
      ensures x !in t.global && (HoldsToken(s.Of(a), x) || x in s.global || !HasToken(s, x))
    {
      TokensPass(s, act, x);
    }
    OneTokenAfter(s, t, a);
  }

  /** A creator's queue still carries the in_global flag, so ending its life does not enqueue it twice. */
  lemma LaunchPutsOnce(s: State, act: Action)
    requires Inv(s) && Enabled(s, act) && act.InitSucceeds?
    ensures Apply(s, act).global == s.global + [s.Of(act.a).h]
  {
    var h := s.Of(act.a).h;
    TokenIsWanted(s, act.a, h);
    ReferencedLives(s, act.a, h);
  }

  /** Who puts a queue in the global queue: its only token holder, or one who finds it without a token. */
  lemma PutsOwn(s: State, act: Action)
    requires Inv(s) && Enabled(s, act) && act.Step? && !PopsGlobal(s, act) && Apply(s, act).global != s.global
    ensures var h := s.Of(act.a).h;
            && PutsGlobal(s, act, h)
            && (HoldsToken(s.Of(act.a), h) || !HasToken(s, h))
            && !HoldsToken(Apply(s, act).Of(act.a), h)
            && !Apply(s, act).Of(act.a).Returning?
  {
    var a := act.a;
    var pc := s.Of(a);
    var h := pc.h;
    if pc.Queueing? {
      ReferencedLives(s, a, h);
      assert !Wanted(s.services[h]);
    } else if pc.Deleting? {
      assert !Wanted(s.services[h]);
      assert HoldsToken(pc, h) ==> HasToken(s, h);
    } else if pc.Returning? {
      assert pc.h != pc.q;
    }
  }

  lemma OneTokenKept(s: State, act: Action)
    requires Inv(s) && Enabled(s, act)
    ensures OneToken(Apply(s, act))
  {
    var t, a := Apply(s, act), act.a;
    if PopsGlobal(s, act) {
      OneTokenPops(s, act);
    } else if t.global == s.global {
      OneTokenQuiet(s, act);
    } else if act.InitSucceeds? {
      LaunchPutsOnce(s, act);
      OneTokenPuts(s, act, s.Of(a).h);
    } else {
      PutsOwn(s, act);
      OneTokenPuts(s, act, s.Of(a).h);
    }
  }

  // ----- a wanted queue has a token, and only then

  lemma KeepsToken(s: State, t: State, a: nat, h: Handle)
    requires HasToken(s, h) && forall b :: b != a ==> t.Of(b) == s.Of(b)
    requires HoldsToken(s.Of(a), h) ==> HoldsToken(t.Of(a), h) || h in t.global
    requires h in s.global ==> h in t.global || HoldsToken(t.Of(a), h)
    ensures HasToken(t, h)
  {
    if h in s.global {
      if h !in t.global { assert HoldsToken(t.Of(a), h); }
    } else {
      var b :| HoldsToken(s.Of(b), h);
      if b == a {
        if h !in t.global { assert HoldsToken(t.Of(a), h); }
      } else {
        assert HoldsToken(t.Of(b), h);
      }
    }
  }

  lemma NewToken(s: State, t: State, a: nat, h: Handle)
    requires HasToken(t, h) && forall b :: b != a ==> t.Of(b) == s.Of(b)
    requires HoldsToken(t.Of(a), h) ==> HasToken(s, h)
    requires h in t.global ==> HasToken(s, h)
    ensures HasToken(s, h)
  {
    if h !in t.global {
      var b :| HoldsToken(t.Of(b), h);
      if b != a { assert HoldsToken(s.Of(b), h); }
    }
  }

  /** The two steps that give a token up for good: the empty pop, and the free. */
  predicate EmptyPop(s: State, act: Action) {
    && act.Step? && (s.Of(act.a).Popping? || s.Of(act.a).Dropping?) && s.Of(act.a).h in s.services
    && s.services[s.Of(act.a).h].pending == []
  }

  lemma LosesToken(s: State, act: Action)
    requires OneToken(s) && Enabled(s, act) && EmptyPop(s, act)
    ensures !HasToken(Apply(s, act), s.Of(act.a).h)
  {
    var t, a := Apply(s, act), act.a;
    var h := s.Of(a).h;
    assert HoldsToken(s.Of(a), h);
    forall b ensures !HoldsToken(t.Of(b), h) {
      if b != a { OtherActors(s, act, b); }
    }
  }

  /** A token an actor has is kept, passed to the global queue, or given up by an empty pop. */
  lemma TokenPassedOn(s: State, act: Action, h: Handle)
    requires Enabled(s, act) && HoldsToken(s.Of(act.a), h)
    requires EmptyPop(s, act) ==> h != s.Of(act.a).h
    ensures HoldsToken(Apply(s, act).Of(act.a), h) || h in Apply(s, act).global
  {
  }

  lemma TokenStays(s: State, act: Action, h: Handle)
    requires Enabled(s, act) && HasToken(s, h)
    requires EmptyPop(s, act) ==> h != s.Of(act.a).h
    ensures HasToken(Apply(s, act), h)
  {
    var t, a := Apply(s, act), act.a;
    forall b | b != a ensures t.Of(b) == s.Of(b) { OtherActors(s, act, b); }
    GlobalStep(s, act);
    if HoldsToken(s.Of(a), h) { TokenPassedOn(s, act, h); }
    if h in s.global && PopsGlobal(s, act) && h == s.global[0] { assert HoldsToken(t.Of(a), h); }
    KeepsToken(s, t, a, h);
  }

  /** The steps that may make a queue wanted. */
  predicate Wants(s: State, act: Action) {
    act.CallNew? || act.InitSucceeds? || (act.Step? && (s.Of(act.a).Queueing? || s.Of(act.a).Deleting?))
  }

  /** They leave their queue wanted. */
  lemma WantsSubject(s: State, act: Action)
    requires Inv(s) && Enabled(s, act) && Wants(s, act)
    ensures var h := Subject(s, act);
            && h in Apply(s, act).services && Wanted(Apply(s, act).services[h])
            && (h in Apply(s, act).global || (h in s.services && Wanted(s.services[h])) || HoldsToken(Apply(s, act).Of(act.a), h))
  {
    var a := act.a;
    if act.InitSucceeds? {
      TokenIsWanted(s, a, s.Of(a).h);
    } else if act.Step? {
      var h := s.Of(a).h;
      if s.Of(a).Queueing? { ReferencedLives(s, a, h); }
      assert LifeOf(s.services[h]);
    }
  }

  /** Every other step leaves the flags of every queue alone, but for the empty pop. */
  lemma FlagsStay(s: State, act: Action, h: Handle)
    requires Enabled(s, act)
    requires h == Subject(s, act) ==> !Wants(s, act) && !EmptyPop(s, act)
    ensures h in Apply(s, act).services <==> h in s.services
    ensures h in s.services ==> (Wanted(Apply(s, act).services[h]) <==> Wanted(s.services[h]))
  {
    if h != Subject(s, act) {
      OtherServices(s, act, h);
    } else if h in s.services {
      ServiceEvolves(s, act, h);
    }
  }

  lemma TokensMeanWanted(s: State, act: Action, h: Handle)
    requires Inv(s) && Enabled(s, act) && HasToken(Apply(s, act), h)
    ensures h in Apply(s, act).services && Wanted(Apply(s, act).services[h])
  {
    if h == Subject(s, act) && Wants(s, act) {
      WantsSubject(s, act);
    } else if h == Subject(s, act) && EmptyPop(s, act) {
      LosesToken(s, act);
      assert false;
    } else {
      FlagsStay(s, act, h);
      TokenWasHere(s, act, h);
    }
  }

  lemma TokenWasHere(s: State, act: Action, h: Handle)
    requires Enabled(s, act) && HasToken(Apply(s, act), h)
    requires h == Subject(s, act) ==> !Wants(s, act) && !EmptyPop(s, act)
    ensures HasToken(s, h)
  {
    var t, a := Apply(s, act), act.a;
    forall b | b != a ensures t.Of(b) == s.Of(b) { OtherActors(s, act, b); }
    GlobalStep(s, act);
    if act.CallNew? {
      assert !HoldsToken(t.Of(a), h);
    } else if HoldsToken(t.Of(a), h) && !PopsGlobal(s, act) {
      TokensPass(s, act, h);
    }
    if h in t.global && h !in s.global {
      assert HoldsToken(s.Of(a), h);
    }
    if PopsGlobal(s, act) && HoldsToken(t.Of(a), h) && h != s.global[0] {
      assert HoldsToken(s.Of(a), h);
    }
    NewToken(s, t, a, h);
  }

  lemma WantedMeansToken(s: State, act: Action, h: Handle)
    requires Inv(s) && Enabled(s, act)
    requires h in Apply(s, act).services && Wanted(Apply(s, act).services[h])
    ensures HasToken(Apply(s, act), h)
  {
    if h == Subject(s, act) && Wants(s, act) {
      WantsSubject(s, act);
      if h in s.services && Wanted(s.services[h]) {
        TokenStays(s, act, h);
      }
    } else if h == Subject(s, act) && EmptyPop(s, act) {
      EmptiedIsUnwanted(s, act);
      assert false;
    } else {
      FlagsStay(s, act, h);
      TokenStays(s, act, h);
    }
  }

  lemma EmptiedIsUnwanted(s: State, act: Action)
    requires Inv(s) && Enabled(s, act) && EmptyPop(s, act)
    ensures !Wanted(Apply(s, act).services[s.Of(act.a).h])
  {
    if s.Of(act.a).Popping? { ReferencedLives(s, act.a, s.Of(act.a).h); }
  }

  lemma WantedKept(s: State, act: Action)
    requires Inv(s) && Enabled(s, act)
    ensures TokenWhenWanted(Apply(s, act))
  {
    forall h | HasToken(Apply(s, act), h) ensures h in Apply(s, act).services && Wanted(Apply(s, act).services[h]) {
      TokensMeanWanted(s, act, h);
    }
    forall h | h in Apply(s, act).services && Wanted(Apply(s, act).services[h]) ensures HasToken(Apply(s, act), h) {
      WantedMeansToken(s, act, h);
    }
  }

  // ----- references

  lemma RefStep(actors: map<nat, Actor>, a: nat, pc: Actor, h: Handle)
    ensures var was := a in actors && HoldsRef(actors[a], h);
            |RefSet(actors[a := pc], h)| ==
            |RefSet(actors, h)| + (if HoldsRef(pc, h) then 1 else 0) - (if was then 1 else 0)
  {
    var before, after := RefSet(actors, h), RefSet(actors[a := pc], h);
    if HoldsRef(pc, h) {
      assert after == before + {a};
    } else {
      assert after == before - {a};
    }
  }

  lemma SameActors(s: State, act: Action)
    requires Enabled(s, act)
    ensures Apply(s, act).actors == s.actors || Apply(s, act).actors == s.actors[act.a := Apply(s, act).Of(act.a)]
  {
    if act.Step? { SameActorsInStep(s, act.a, s.Of(act.a)); }
  }

  lemma SameActorsInStep(s: State, a: nat, pc: Actor)
    requires !pc.Done? && !pc.Initing? && !pc.Running? && (ByAnyHandle(pc) || pc.h in s.services)
    ensures StepOf(s, a, pc).actors == s.actors || StepOf(s, a, pc).actors == s.actors[a := StepOf(s, a, pc).Of(a)]
  {
    match pc {
      case Queueing(h, _) => assert StepOf(s, a, pc).actors == s.actors[a := Releasing(h, Stop)];
      case Deleting(h, next) => assert StepOf(s, a, pc).actors == s.actors[a := Resume(h, next)];
      case Releasing(_, _) =>
      case Dropping(_, _) =>
      case Yielding(_, _) =>
      case Popping(_) =>
      case _ =>
    }
  }

  /** An actor gains or loses a reference only to the service its step is about. */
  lemma OtherRefs(s: State, act: Action, h: Handle)
    requires Enabled(s, act) && h != Subject(s, act)
    ensures HoldsRef(Apply(s, act).Of(act.a), h) <==> HoldsRef(s.Of(act.a), h)
  {
  }

  /** The references to a service that no actor holds. */
  function Unheld(v: Service): int { v.ref - (if v.registered then 1 else 0) - v.reserved }

  function Ref(pc: Actor, h: Handle): int { if HoldsRef(pc, h) then 1 else 0 }

  /** What a step adds to the count it adds to the holders. */
  lemma RefDelta(s: State, act: Action, h: Handle)
    requires Enabled(s, act) && h == Subject(s, act) && h in s.services
    ensures var t := Apply(s, act);
            h in t.services && Unheld(t.services[h]) - Ref(t.Of(act.a), h) == Unheld(s.services[h]) - Ref(s.Of(act.a), h)
  {
    if act.Step? { RefDeltaStep(s, act, h); }
  }

  predicate Balanced(s: State, t: State, a: nat, h: Handle)
    requires h in s.services
  {
    h in t.services && Unheld(t.services[h]) - Ref(t.Of(a), h) == Unheld(s.services[h]) - Ref(s.Of(a), h)
  }

  lemma QueueBalanced(s: State, a: nat)
    requires (s.Of(a).Queueing? || s.Of(a).Deleting?) && s.Of(a).h in s.services
    ensures Balanced(s, StepOf(s, a, s.Of(a)), a, s.Of(a).h)
  {
    if s.Of(a).Queueing? {
      assert StepOf(s, a, s.Of(a)).Of(a) == Releasing(s.Of(a).h, Stop);
    } else {
      assert StepOf(s, a, s.Of(a)).Of(a) == Resume(s.Of(a).h, s.Of(a).next);
    }
  }

  lemma ReleaseBalanced(s: State, a: nat)
    requires s.Of(a).Releasing? && s.Of(a).h in s.services
    ensures Balanced(s, StepOf(s, a, s.Of(a)), a, s.Of(a).h)
  {
    var t := StepOf(s, a, s.Of(a));
    assert Ref(t.Of(a), s.Of(a).h) == 0;
  }

  lemma RefDeltaStep(s: State, act: Action, h: Handle)
    requires Enabled(s, act) && act.Step? && h == Subject(s, act) && h in s.services
    ensures Balanced(s, Apply(s, act), act.a, h)
  {
    match s.Of(act.a) {
      case Queueing(_, _) => QueueBalanced(s, act.a);
      case Deleting(_, _) => QueueBalanced(s, act.a);
      case Releasing(_, _) => ReleaseBalanced(s, act.a);
      case Fetching => assert Apply(s, act).services == s.services;
      case _ => RestBalanced(s, act.a);
    }
  }

  lemma RestBalanced(s: State, a: nat)
    requires var pc := s.Of(a);
             && !pc.Done? && !pc.Initing? && !pc.Running? && !pc.Fetching? && !pc.Queueing? && !pc.Deleting? && !pc.Releasing?
             && pc.h in s.services
    ensures Balanced(s, StepOf(s, a, s.Of(a)), a, s.Of(a).h)
  {
    if s.Of(a).Pushing? || s.Of(a).Retiring? || s.Of(a).FailRetiring? || s.Of(a).Grabbing? {
      TableBalanced(s, a);
    } else {
      HolderBalanced(s, a);
    }
  }

  lemma TableBalanced(s: State, a: nat)
    requires s.Of(a).Pushing? || s.Of(a).Retiring? || s.Of(a).FailRetiring? || s.Of(a).Grabbing?
    requires s.Of(a).h in s.services
    ensures Balanced(s, StepOf(s, a, s.Of(a)), a, s.Of(a).h)
  {
  }

  lemma HolderBalanced(s: State, a: nat)
    requires s.Of(a).Popping? || s.Of(a).Choosing? || s.Of(a).Returning? || s.Of(a).Yielding? || s.Of(a).Dropping?
    requires s.Of(a).h in s.services
    ensures Balanced(s, StepOf(s, a, s.Of(a)), a, s.Of(a).h)
  {
  }

  lemma RefKept(s: State, act: Action, h: Handle)
    requires RefInv(s) && Enabled(s, act) && h in Apply(s, act).services
    ensures Apply(s, act).services[h].ref == RefCount(Apply(s, act), h)
  {
    var t, a := Apply(s, act), act.a;
    SameActors(s, act);
    RefStep(s.actors, a, t.Of(a), h);
    assert t.actors != s.actors || t.Of(a) == s.Of(a);
    if h in s.services {
      assert s.services[h].ref == RefCount(s, h);
      if h != Subject(s, act) {
        OtherServices(s, act, h);
        OtherRefs(s, act, h);
      } else {
        RefDelta(s, act, h);
      }
    } else {
      assert act.CallNew? && h == act.h;
      NoRefs(s, h);
    }
  }

  lemma NoRefs(s: State, h: Handle)
    requires RefInv(s) && h !in s.services
    ensures RefSet(s.actors, h) == {}
  {
    forall a | a in s.actors ensures !HoldsRef(s.actors[a], h) {
      assert HoldsRef(s.Of(a), h) ==> h in s.services;
    }
  }

  lemma RefsKnown(s: State, act: Action, b: nat, h: Handle)
    requires RefInv(s) && Enabled(s, act) && HoldsRef(Apply(s, act).Of(b), h)
    ensures h in Apply(s, act).services
  {
    if b != act.a {
      OtherActors(s, act, b);
      assert HoldsRef(s.Of(b), h);
    }
    OtherServicesStay(s, act);
  }

  lemma OtherServicesStay(s: State, act: Action)
    requires Enabled(s, act)
    ensures forall h :: h in s.services ==> h in Apply(s, act).services
  {
  }

  lemma RefInvKept(s: State, act: Action)
    requires RefInv(s) && Enabled(s, act)
    ensures RefInv(Apply(s, act))
  {
    forall h | h in Apply(s, act).services ensures Apply(s, act).services[h].ref == RefCount(Apply(s, act), h) {
      RefKept(s, act, h);
    }
    forall b, h | HoldsRef(Apply(s, act).Of(b), h) ensures h in Apply(s, act).services {
      RefsKnown(s, act, b, h);
    }
  }

  // ----- life: deletion, freeing, the ledger

  lemma LifeOfKept(s: State, act: Action, h: Handle)
    requires Inv(s) && Enabled(s, act) && h in Apply(s, act).services
    ensures LifeOf(Apply(s, act).services[h])
  {
    var a := act.a;
    if h != Subject(s, act) {
      OtherServices(s, act, h);
      assert LifeOf(s.services[h]);
    } else if h in s.services {
      assert LifeOf(s.services[h]);
      SubjectLife(s, act);
    }
  }

  lemma PopLife(v: Service, dropping: bool)
    requires LifeOf(v) && v.pending != [] && v.frees == 0 && (dropping <==> v.release)
    requires v.inGlobal || v.release
    ensures !dropping ==> LifeOf(v.(pending := v.pending[1..], handed := v.handed + [v.pending[0]]))
    ensures dropping ==> LifeOf(v.(pending := v.pending[1..], dropped := v.dropped + [v.pending[0]]))
  {
    assert v.pending == [v.pending[0]] + v.pending[1..];
    if !dropping {
      assert v.dropped == [];
      assert v.handed + [] == v.handed && (v.handed + [v.pending[0]]) + [] == v.handed + [v.pending[0]];
      assert v.handed + v.pending == v.handed + [v.pending[0]] + v.pending[1..];
    } else {
      assert v.handed + v.dropped + v.pending == v.handed + (v.dropped + [v.pending[0]]) + v.pending[1..];
    }
  }

  lemma PushLife(v: Service, m: Message)
    requires LifeOf(v) && !v.release
    ensures LifeOf(v.(pending := v.pending + [m], accepted := v.accepted + [m], inGlobal := true))
  {
    assert v.handed + v.dropped + (v.pending + [m]) == v.handed + v.dropped + v.pending + [m];
  }

  lemma SubjectLife(s: State, act: Action)
    requires Inv(s) && Enabled(s, act) && Subject(s, act) in s.services
    ensures Subject(s, act) in Apply(s, act).services && LifeOf(Apply(s, act).services[Subject(s, act)])
  {
    var a, h := act.a, Subject(s, act);
    var v := s.services[h];
    var pc := s.Of(a);
    assert LifeOf(v);
    if HoldsRef(pc, h) { ReferencedLives(s, a, h); }
    if HoldsToken(pc, h) { TokenIsWanted(s, a, h); }
    if v.registered { RegisteredLives(s, h); }
    if act.Step? {
      match pc {
        case Popping(_) => if v.pending != [] { PopLife(v, false); }
        case Dropping(_, _) => if v.pending != [] { PopLife(v, true); }
        case Queueing(_, m) => PushLife(v, m);
        case _ => StepLife(s, act);
      }
    } else {
      CallLife(s, act);
    }
  }

  /** Steps that touch neither the messages nor the frees. */
  lemma StepLife(s: State, act: Action)
    requires Enabled(s, act) && act.Step? && Subject(s, act) in s.services && LifeOf(s.services[Subject(s, act)])
    requires !s.Of(act.a).Popping? && !s.Of(act.a).Dropping? && !s.Of(act.a).Queueing?
    requires s.Of(act.a).Deleting? ==> !s.services[Subject(s, act)].release && s.services[Subject(s, act)].ref == 0
    requires s.Of(act.a).Releasing? ==> !s.services[Subject(s, act)].release
    requires s.services[Subject(s, act)].registered ==> !s.services[Subject(s, act)].release
    ensures Subject(s, act) in Apply(s, act).services && LifeOf(Apply(s, act).services[Subject(s, act)])
  {
  }

  lemma CallLife(s: State, act: Action)
    requires RefInv(s) && Enabled(s, act) && !act.Step? && Subject(s, act) in s.services && LifeOf(s.services[Subject(s, act)])
    requires act.InitSucceeds? || act.Reserve? ==> !s.services[Subject(s, act)].release
    ensures Subject(s, act) in Apply(s, act).services && LifeOf(Apply(s, act).services[Subject(s, act)])
  {
  }

  lemma RegisteredLives(s: State, h: Handle)
    requires RefInv(s) && LifeInv(s) && h in s.services && s.services[h].registered
    ensures s.services[h].ref > 0 && !s.services[h].release && s.services[h].frees == 0
  {
    assert s.services[h].ref == RefCount(s, h);
    assert LifeOf(s.services[h]);
  }

  /** With no reference left, only the one deleting actor changes the context or the release flag. */
  lemma UnreferencedIsStill(s: State, act: Action, h: Handle)
    requires Inv(s) && Enabled(s, act) && h in s.services && s.services[h].ref == 0
    requires !(s.Of(act.a).Deleting? && s.Of(act.a).h == h)
    ensures h in Apply(s, act).services
    ensures Apply(s, act).services[h].ref == 0 && Apply(s, act).services[h].release == s.services[h].release
  {
    var a := act.a;
    assert s.services[h].ref == RefCount(s, h);
    if h != Subject(s, act) {
      OtherServices(s, act, h);
    } else {
      if HoldsRef(s.Of(a), h) { ReferencedLives(s, a, h); assert false; }
      assert !s.services[h].registered && s.services[h].reserved == 0;
      UntouchedBy(s, act, h);
    }
  }

  lemma UntouchedBy(s: State, act: Action, h: Handle)
    requires Enabled(s, act) && h in s.services && h == Subject(s, act) && !HoldsRef(s.Of(act.a), h)
    requires !s.services[h].registered && s.services[h].reserved == 0 && !s.Of(act.a).Deleting?
    ensures h in Apply(s, act).services && Apply(s, act).services[h].ref == s.services[h].ref
    ensures Apply(s, act).services[h].release == s.services[h].release
  {
  }

  /** Release and init are never taken back. */
  lemma FlagsGrow(s: State, act: Action, h: Handle)
    requires Enabled(s, act) && h in s.services
    ensures h in Apply(s, act).services
    ensures s.services[h].release ==> Apply(s, act).services[h].release
    ensures s.services[h].started ==> Apply(s, act).services[h].started
  {
    ServiceEvolves(s, act, h);
  }

  /** The count reaches zero in a release or in the success tail, and nowhere else. */
  lemma ReachesZero(s: State, act: Action, h: Handle)
    requires Enabled(s, act) && h in s.services && s.services[h].ref > 0
    requires h in Apply(s, act).services && Apply(s, act).services[h].ref == 0
    ensures Apply(s, act).services[h].release || (Apply(s, act).Of(act.a).Deleting? && Apply(s, act).Of(act.a).h == h)
  {
    if h != Subject(s, act) {
      OtherServices(s, act, h);
    } else if act.Step? {
      StepToZero(s, act, h);
    }
  }

  lemma StepToZero(s: State, act: Action, h: Handle)
    requires Enabled(s, act) && act.Step? && h == Subject(s, act) && h in s.services && s.services[h].ref > 0
    requires h in Apply(s, act).services && Apply(s, act).services[h].ref == 0
    ensures Apply(s, act).Of(act.a).Deleting? && Apply(s, act).Of(act.a).h == h
  {
    match s.Of(act.a) {
      case Queueing(_, _) => RefsOfQueueStep(s, act.a);
      case Deleting(_, _) => RefsOfQueueStep(s, act.a);
      case Releasing(_, _) =>
      case Fetching =>
      case _ => RefsOfRest(s, act.a);
    }
  }

  lemma RefsOfQueueStep(s: State, a: nat)
    requires (s.Of(a).Queueing? || s.Of(a).Deleting?) && s.Of(a).h in s.services
    ensures StepOf(s, a, s.Of(a)).services[s.Of(a).h].ref == s.services[s.Of(a).h].ref
  {
  }

  lemma RefsOfRest(s: State, a: nat)
    requires var pc := s.Of(a);
             && !pc.Done? && !pc.Initing? && !pc.Running? && !pc.Fetching? && !pc.Queueing? && !pc.Deleting? && !pc.Releasing?
             && pc.h in s.services
    ensures s.Of(a).h in StepOf(s, a, s.Of(a)).services
    ensures StepOf(s, a, s.Of(a)).services[s.Of(a).h].ref >= s.services[s.Of(a).h].ref
  {
  }

  lemma ZeroIsDeleted(s: State, act: Action, h: Handle)
    requires Inv(s) && Enabled(s, act) && h in Apply(s, act).services
    requires Apply(s, act).services[h].ref == 0 && !Apply(s, act).services[h].release
    ensures BeingDeleted(Apply(s, act), h)
  {
    var t, a := Apply(s, act), act.a;
    if h in s.services {
      FlagsGrow(s, act, h);
      if s.services[h].ref == 0 {
        var b :| s.Of(b).Deleting? && s.Of(b).h == h;
        if b != a {
          OtherActors(s, act, b);
          assert t.Of(b).Deleting?;
        }
      } else {
        assert s.services[h].ref == RefCount(s, h);
        ReachesZero(s, act, h);
      }
    }
  }

  /** A new deleting actor has just taken the last reference. */
  lemma NewDeleter(s: State, act: Action)
    requires Inv(s) && Enabled(s, act) && Apply(s, act).Of(act.a).Deleting?
    ensures s.Of(act.a).Releasing? && s.Of(act.a).h == Apply(s, act).Of(act.a).h
    ensures var h := s.Of(act.a).h;
            && h in s.services && s.services[h].ref == 1
            && h in Apply(s, act).services && Apply(s, act).services[h].ref == 0 && !Apply(s, act).services[h].release
  {
    var a := act.a;
    if s.Of(a).Releasing? { ReferencedLives(s, a, s.Of(a).h); }
  }

  lemma DeletersKept(s: State, act: Action, b: nat)
    requires Inv(s) && Enabled(s, act) && Apply(s, act).Of(b).Deleting?
    ensures var t := Apply(s, act);
            t.Of(b).h in t.services && t.services[t.Of(b).h].ref == 0 && !t.services[t.Of(b).h].release
  {
    if b == act.a {
      NewDeleter(s, act);
    } else {
      OtherActors(s, act, b);
      var h := s.Of(b).h;
      assert s.Of(b).Deleting?;
      UnreferencedIsStill(s, act, h);
    }
  }

  lemma OneDeleter(s: State, act: Action, b: nat, c: nat)
    requires Inv(s) && Enabled(s, act)
    requires Apply(s, act).Of(b).Deleting? && Apply(s, act).Of(c).Deleting? && Apply(s, act).Of(b).h == Apply(s, act).Of(c).h
    ensures b == c
  {
    if b != act.a { OtherActors(s, act, b); assert s.Of(b).Deleting?; }
    if c != act.a { OtherActors(s, act, c); assert s.Of(c).Deleting?; }
    if b == act.a || c == act.a { NewDeleter(s, act); }
  }

  lemma DroppersKept(s: State, act: Action, b: nat)
    requires Inv(s) && Enabled(s, act) && Apply(s, act).Of(b).Dropping?
    ensures var t := Apply(s, act);
            t.Of(b).h in t.services && t.services[t.Of(b).h].release
  {
    if b != act.a {
      OtherActors(s, act, b);
      assert s.Of(b).Dropping?;
      FlagsGrow(s, act, s.Of(b).h);
    } else if s.Of(b).Dropping? {
      FlagsGrow(s, act, s.Of(b).h);
    }
  }

  lemma LifeKept(s: State, act: Action)
    requires Inv(s) && Enabled(s, act)
    ensures LifeInv(Apply(s, act))
  {
    var t := Apply(s, act);
    forall h | h in t.services ensures LifeOf(t.services[h]) { LifeOfKept(s, act, h); }
    forall h | h in t.services && t.services[h].ref == 0 && !t.services[h].release ensures BeingDeleted(t, h) {
      ZeroIsDeleted(s, act, h);
    }
    forall b | t.Of(b).Deleting?
      ensures t.Of(b).h in t.services && t.services[t.Of(b).h].ref == 0 && !t.services[t.Of(b).h].release
    {
      DeletersKept(s, act, b);
    }
    forall b, c | t.Of(b).Deleting? && t.Of(c).Deleting? && t.Of(b).h == t.Of(c).h ensures b == c { OneDeleter(s, act, b, c); }
    forall b | t.Of(b).Dropping? ensures t.Of(b).h in t.services && t.services[t.Of(b).h].release { DroppersKept(s, act, b); }
  }

  // ----- init

  /** A worker that has found its service in the table finds it started: the creator no longer holds the token. */
  lemma GrabbedIsStarted(s: State, a: nat)
    requires Inv(s) && s.Of(a).Grabbing? && Registered(s, s.Of(a).h)
    ensures s.services[s.Of(a).h].started
  {
    var h := s.Of(a).h;
    if !s.services[h].started {
      var b :| Creates(s.Of(b), h);
      assert HoldsToken(s.Of(b), h) && HoldsToken(s.Of(a), h);
      assert false;
    }
  }

  lemma DispatchStarts(s: State, act: Action, h: Handle)
    requires Enabled(s, act) && Dispatches(Apply(s, act).Of(act.a), h) && !Dispatches(s.Of(act.a), h)
    ensures s.Of(act.a).Grabbing? && s.Of(act.a).h == h && Registered(s, h)
  {
  }

  lemma DispatchersKept(s: State, act: Action, b: nat, h: Handle)
    requires Inv(s) && Enabled(s, act) && Dispatches(Apply(s, act).Of(b), h)
    ensures h in Apply(s, act).services && Apply(s, act).services[h].started
  {
    if b != act.a {
      OtherActors(s, act, b);
      assert Dispatches(s.Of(b), h);
      FlagsGrow(s, act, h);
    } else if Dispatches(s.Of(b), h) {
      FlagsGrow(s, act, h);
    } else {
      DispatchStarts(s, act, h);
      GrabbedIsStarted(s, b);
      FlagsGrow(s, act, h);
    }
  }

  lemma CreatorsKept(s: State, act: Action, h: Handle)
    requires Inv(s) && Enabled(s, act)
    requires h in Apply(s, act).services && Apply(s, act).services[h].registered && !Apply(s, act).services[h].started
    ensures exists b :: Creates(Apply(s, act).Of(b), h)
  {
    var t, a := Apply(s, act), act.a;
    if act.CallNew? && h == act.h {
      assert Creates(t.Of(a), h);
    } else {
      RegistersOnlyOnce(s, act, h);
      var b :| Creates(s.Of(b), h);
      if b != a {
        OtherActors(s, act, b);
      } else {
        CreatorGoesOn(s, act, h);
      }
      assert Creates(t.Of(b), h);
    }
  }

  lemma RegistersOnlyOnce(s: State, act: Action, h: Handle)
    requires Enabled(s, act) && !(act.CallNew? && h == act.h)
    requires h in Apply(s, act).services && Apply(s, act).services[h].registered && !Apply(s, act).services[h].started
    ensures h in s.services && s.services[h].registered && !s.services[h].started
  {
    if h in s.services {
      ServiceEvolves(s, act, h);
    } else {
      OtherServices(s, act, h);
    }
  }

  /** After a successful init a service still in the table is started. */
  lemma LaunchStarts(s: State, act: Action)
    requires RefInv(s) && Enabled(s, act) && act.InitSucceeds?
    ensures var v := Apply(s, act).services[s.Of(act.a).h]; v.registered ==> v.started
  {
    var h := s.Of(act.a).h;
    assert HoldsRef(s.Of(act.a), h);
    assert s.services[h].ref == RefCount(s, h);
    assert act.a in RefSet(s.actors, h);
  }

  /** Nothing else marks a service as started. */
  lemma OnlyLaunchStarts(s: State, act: Action, h: Handle)
    requires Enabled(s, act) && h in s.services && !s.services[h].started
    requires !(act.InitSucceeds? && s.Of(act.a).h == h)
    ensures h in Apply(s, act).services && !Apply(s, act).services[h].started
  {
    if h != Subject(s, act) {
      OtherServices(s, act, h);
    } else if act.Step? {
      StepStartsNothing(s, act.a, s.Of(act.a), h);
    }
  }

  lemma StepStartsNothing(s: State, a: nat, pc: Actor, h: Handle)
    requires Enabled(s, Step(a)) && s.Of(a) == pc && h in s.services && !s.services[h].started
    ensures h in StepOf(s, a, pc).services && !StepOf(s, a, pc).services[h].started
  {
    match pc {
      case Queueing(_, _) =>
      case Deleting(_, _) =>
      case Releasing(_, _) =>
      case Dropping(_, _) =>
      case _ =>
    }
  }

  lemma CreatorGoesOn(s: State, act: Action, h: Handle)
    requires Inv(s) && Enabled(s, act) && Creates(s.Of(act.a), h)
    requires h in Apply(s, act).services && Apply(s, act).services[h].registered && !Apply(s, act).services[h].started
    ensures Creates(Apply(s, act).Of(act.a), h)
  {
    if act.InitSucceeds? { LaunchStarts(s, act); }
  }

  lemma StartKept(s: State, act: Action)
    requires Inv(s) && Enabled(s, act)
    ensures StartInv(Apply(s, act))
  {
    var t := Apply(s, act);
    forall h | h in t.services && t.services[h].registered && !t.services[h].started ensures exists b :: Creates(t.Of(b), h) {
      CreatorsKept(s, act, h);
    }
    forall b, h | Dispatches(t.Of(b), h) ensures h in t.services && t.services[h].started {
      DispatchersKept(s, act, b, h);
    }
  }

  lemma StepKeeps(s: State, act: Action)
    requires Inv(s) && Enabled(s, act)
    ensures Inv(Apply(s, act))
  {
    OneTokenKept(s, act);
    WantedKept(s, act);
    RefInvKept(s, act);
    LifeKept(s, act);
    StartKept(s, act);
  }
}
