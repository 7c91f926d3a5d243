/**
 What becomes of every call: each message pushed to a service is queued once, unless the service is not registered;
 a service is registered from its creation to the first retirement, and referenced as often as it was reserved; a
 worker works on for ever, one turn after the other.
 */
module SchedulerCalls {
  import opened Scheduler
  import opened SchedulerInvariant
  import opened SchedulerSteps
  import opened SchedulerTheorems

  /** The state a run has reached, step by step from the end. */
  lemma FinalLast(s: State, run: seq<Action>)
    requires Runs(s, run) && run != []
    ensures var before := run[..|run| - 1];
            && Runs(s, before) && Enabled(Final(s, before), run[|run| - 1])
            && Final(s, run) == Apply(Final(s, before), run[|run| - 1])
    decreases |run|
  {
    if |run| == 1 {
      assert run[..0] == [] && run[1..] == [];
    } else {
      var a, rest := run[0], run[1..];
      FinalLast(Apply(s, a), rest);
      assert run[..|run| - 1][0] == a && run[..|run| - 1][1..] == rest[..|rest| - 1];
    }
  }

  function One(b: bool): nat { if b then 1 else 0 }

  // ----- calls, refusals, and what is under way

  predicate Calls(act: Action, h: Handle, m: Message) { act.CallPush? && act.h == h && act.m == m }

  /** How often a run calls skynet_context_push with this message. */
  function Called(run: seq<Action>, h: Handle, m: Message): nat {
    if run == [] then 0 else Called(run[..|run| - 1], h, m) + One(Calls(run[|run| - 1], h, m))
  }

  /** The grab of a push finds no context. */
  predicate Refuses(s: State, act: Action, h: Handle, m: Message) {
    act.Step? && s.Of(act.a) == Pushing(h, m) && !Registered(s, h)
  }

  function Refused(run: seq<Action>, h: Handle, m: Message): nat
    requires Runs(Init(), run)
  {
    if run == [] then 0
    else
      FinalLast(Init(), run);
      var before := run[..|run| - 1];
      Refused(before, h, m) + One(Refuses(Final(Init(), before), run[|run| - 1], h, m))
  }

  predicate Carries(pc: Actor, h: Handle, m: Message) { pc == Pushing(h, m) || pc == Queueing(h, m) }

  function Carriers(s: State, h: Handle, m: Message): set<nat> {
    set a | a in s.actors && Carries(s.Of(a), h, m)
  }

  function Accepted(s: State, h: Handle): seq<Message> { if h in s.services then s.services[h].accepted else [] }

  function Copies(q: seq<Message>, m: Message): nat { multiset(q)[m] }

  lemma CarriersStep(s: State, act: Action, h: Handle, m: Message)
    requires Enabled(s, act)
    ensures var t := Apply(s, act);
            |Carriers(t, h, m)| + One(Carries(s.Of(act.a), h, m)) == |Carriers(s, h, m)| + One(Carries(t.Of(act.a), h, m))
  {
    var t, a := Apply(s, act), act.a;
    var c, d := Carriers(s, h, m), Carriers(t, h, m);
    forall b | b != a
      ensures b in c <==> b in d
    {
      OtherActors(s, act, b);
    }
    assert a in c <==> Carries(s.Of(a), h, m);
    assert a in d <==> Carries(t.Of(a), h, m);
    assert c - {a} == d - {a};
    SizeWithout(c, a);
    SizeWithout(d, a);
  }

  lemma SizeWithout(c: set<nat>, a: nat)
    ensures |c| == |c - {a}| + One(a in c)
  {
    if a in c { assert c == (c - {a}) + {a}; } else { assert c == c - {a}; }
  }

  /** Only the locked body of skynet_mq_push accepts, and exactly the message of its call. */
  lemma AcceptedStep(s: State, act: Action, h: Handle)
    requires Enabled(s, act)
    ensures var pc := s.Of(act.a);
            Accepted(Apply(s, act), h) ==
            Accepted(s, h) + if act.Step? && pc.Queueing? && pc.h == h then [pc.m] else []
  {
    if h != Subject(s, act) {
      OtherServices(s, act, h);
    } else if act.Step? && s.Of(act.a).Fetching? {
    } else if act.Step? {
      StepAccepts(s, act.a, s.Of(act.a));
    } else {
    }
  }

  lemma StepAccepts(s: State, a: nat, pc: Actor)
    requires Enabled(s, Step(a)) && s.Of(a) == pc && !pc.Fetching?
    ensures Accepted(StepOf(s, a, pc), pc.h) == Accepted(s, pc.h) + if pc.Queueing? then [pc.m] else []
  {
    match pc {
      case Queueing(_, _) =>
      case Deleting(_, _) =>
      case Releasing(_, _) =>
      case Popping(_) =>
      case Dropping(_, _) =>
      case _ =>
    }
  }

  /** What one step does to the account of a message. */
  lemma AccountStep(s: State, act: Action, h: Handle, m: Message)
    requires Inv(s) && Enabled(s, act)
    ensures var t := Apply(s, act);
            Copies(Accepted(t, h), m) + |Carriers(t, h, m)| + One(Refuses(s, act, h, m)) ==
            Copies(Accepted(s, h), m) + |Carriers(s, h, m)| + One(Calls(act, h, m))
  {
    CarriersStep(s, act, h, m);
    AcceptedStep(s, act, h);
    CarriesNext(s, act, h, m);
    OneMore(Accepted(s, h), s.Of(act.a), act.Step?, h, m);
  }

  lemma OneMore(q: seq<Message>, pc: Actor, step: bool, h: Handle, m: Message)
    ensures Copies(q + if step && pc.Queueing? && pc.h == h then [pc.m] else [], m)
         == Copies(q, m) + One(step && pc == Queueing(h, m))
  {
    var more := if step && pc.Queueing? && pc.h == h then [pc.m] else [];
    assert multiset(q + more) == multiset(q) + multiset(more);
  }

  /** Only a call begins to carry a message, and only the grab of a registered service goes on with it. */
  lemma CarriesNext(s: State, act: Action, h: Handle, m: Message)
    requires Enabled(s, act)
    ensures Carries(Apply(s, act).Of(act.a), h, m) <==>
            Calls(act, h, m) ||
            (Carries(s.Of(act.a), h, m) && act.Step? && !Refuses(s, act, h, m) && s.Of(act.a).Pushing?)
    ensures Carries(s.Of(act.a), h, m) ==> act.Step?
  {
    if act.Step? { NextOfStep(s, act.a, s.Of(act.a)); }
  }

  lemma NextOfStep(s: State, a: nat, pc: Actor)
    requires Enabled(s, Step(a)) && s.Of(a) == pc
    ensures var next := StepOf(s, a, pc).Of(a);
            && !next.Pushing?
            && (next.Queueing? <==> pc.Pushing? && Registered(s, pc.h))
            && (next.Queueing? ==> next == Queueing(pc.h, pc.m))
  {
    match pc {
      case Queueing(_, _) =>
      case Deleting(_, _) =>
      case Releasing(_, _) =>
      case Pushing(_, _) =>
      case Dropping(_, _) =>
      case _ =>
    }
  }

  /**
   In every run: what a service has accepted, what is still on its way to it, and what was refused because it was not
   registered are together the messages pushed to it, each as often as it was pushed.
   */
  lemma {:induction false} EveryMessageAccounted(run: seq<Action>, h: Handle, m: Message)
    requires Runs(Init(), run)
    ensures var s := Final(Init(), run);
            Copies(Accepted(s, h), m) + |Carriers(s, h, m)| + Refused(run, h, m) == Called(run, h, m)
  {
    if run == [] {
      assert Carriers(Init(), h, m) == {};
    } else {
      var before := run[..|run| - 1];
      FinalLast(Init(), run);
      EveryMessageAccounted(before, h, m);
      Reached(before);
      AccountStep(Final(Init(), before), run[|run| - 1], h, m);
    }
  }

  // ----- from the call to its effect

  predicate Others(run: seq<Action>, a: nat) { forall i :: 0 <= i < |run| ==> run[i].a != a }

  lemma {:induction false} WaitsInPlace(s: State, run: seq<Action>, a: nat)
    requires Runs(s, run) && Others(run, a)
    ensures Final(s, run).Of(a) == s.Of(a)
    decreases |run|
  {
    if run != [] {
      OtherActors(s, run[0], a);
      assert Others(run[1..], a) by { assert forall i :: 0 <= i < |run| - 1 ==> run[1..][i] == run[i + 1]; }
      WaitsInPlace(Apply(s, run[0]), run[1..], a);
    }
  }

  lemma {:induction false} Follows(s: State, run: seq<Action>, more: seq<Action>)
    requires Runs(s, run) && Runs(Final(s, run), more)
    ensures Runs(s, run + more) && Final(s, run + more) == Final(Final(s, run), more)
    decreases |run|
  {
    if run == [] {
      assert run + more == more;
    } else {
      Follows(Apply(s, run[0]), run[1..], more);
      assert (run + more)[1..] == run[1..] + more;
    }
  }

  lemma AfterCall(s: State, call: Action, others: seq<Action>)
    requires Runs(s, [call] + others) && Others(others, call.a)
    ensures Enabled(s, call) && Final(s, [call] + others).Of(call.a) == Apply(s, call).Of(call.a)
  {
    assert ([call] + others)[0] == call && ([call] + others)[1..] == others;
    WaitsInPlace(Apply(s, call), others, call.a);
  }

  /**
   A push whose grab finds the service ends with its message behind all messages the service has accepted, exactly
   once and unchanged, whatever other threads do between its two steps.
   */
  lemma PushArrives(run: seq<Action>, a: nat, h: Handle, m: Message, first: seq<Action>, second: seq<Action>)
    requires Runs(Init(), run) && Others(first, a) && Others(second, a)
    requires Runs(Final(Init(), run), [CallPush(a, h, m)] + first)
    requires var s := Final(Final(Init(), run), [CallPush(a, h, m)] + first);
             Registered(s, h) && Runs(s, [Step(a)] + second)
    ensures var s := Final(Final(Init(), run), [CallPush(a, h, m)] + first);
            var t := Final(s, [Step(a)] + second);
            && Enabled(t, Step(a))
            && Accepted(Apply(t, Step(a)), h) == Accepted(t, h) + [m]
            && Apply(t, Step(a)).services[h].pending == t.services[h].pending + [m]
  {
    var s := Final(Final(Init(), run), [CallPush(a, h, m)] + first);
    AfterCall(Final(Init(), run), CallPush(a, h, m), first);
    AfterCall(s, Step(a), second);
    var t := Final(s, [Step(a)] + second);
    Follows(Init(), run, [CallPush(a, h, m)] + first);
    Follows(Init(), run + ([CallPush(a, h, m)] + first), [Step(a)] + second);
    Reached(run + ([CallPush(a, h, m)] + first) + ([Step(a)] + second));
    ReferencedLives(t, a, h);
  }

  /** A retirement takes the service out of the table in its first step. */
  lemma RetireTakesOut(run: seq<Action>, a: nat, h: Handle, others: seq<Action>)
    requires Runs(Init(), run) && Others(others, a)
    requires Runs(Final(Init(), run), [CallRetire(a, h)] + others)
    ensures var t := Final(Final(Init(), run), [CallRetire(a, h)] + others);
            Enabled(t, Step(a)) && !Registered(Apply(t, Step(a)), h)
  {
    AfterCall(Final(Init(), run), CallRetire(a, h), others);
  }

  // ----- who is in the table

  predicate Creation(act: Action, h: Handle) { act.CallNew? && act.h == h }

  predicate Retirement(s: State, act: Action, h: Handle) {
    act.Step? && (s.Of(act.a) == Retiring(h) || s.Of(act.a) == FailRetiring(h))
  }

  /** The service has been created, and nobody has retired it since. */
  predicate InTable(run: seq<Action>, h: Handle)
    requires Runs(Init(), run)
  {
    run != [] &&
    (FinalLast(Init(), run);
     var before, last := run[..|run| - 1], run[|run| - 1];
     Creation(last, h) || (InTable(before, h) && !Retirement(Final(Init(), before), last, h)))
  }

  lemma RegisteredNext(s: State, act: Action, h: Handle)
    requires Enabled(s, act)
    ensures Registered(Apply(s, act), h) <==> Creation(act, h) || (Registered(s, h) && !Retirement(s, act, h))
  {
    if h != Subject(s, act) {
      OtherServices(s, act, h);
    } else if act.Step? && !s.Of(act.a).Fetching? {
      RegisteredStep(s, act.a, s.Of(act.a));
    }
  }

  lemma RegisteredStep(s: State, a: nat, pc: Actor)
    requires Enabled(s, Step(a)) && s.Of(a) == pc && !pc.Fetching?
    ensures Registered(StepOf(s, a, pc), pc.h) <==> Registered(s, pc.h) && !pc.Retiring? && !pc.FailRetiring?
  {
    match pc {
      case Queueing(_, _) =>
      case Deleting(_, _) =>
      case Releasing(_, _) =>
      case Dropping(_, _) =>
      case _ =>
    }
  }

  /** In every run a service is found exactly from its creation to the first retirement after it. */
  lemma {:induction false} RegisteredIff(run: seq<Action>, h: Handle)
    requires Runs(Init(), run)
    ensures Registered(Final(Init(), run), h) <==> InTable(run, h)
  {
    if run != [] {
      FinalLast(Init(), run);
      RegisteredIff(run[..|run| - 1], h);
      RegisteredNext(Final(Init(), run[..|run| - 1]), run[|run| - 1], h);
    }
  }

  // ----- who is started, and who is reserved

  predicate Succeeds(s: State, act: Action, h: Handle) { act.InitSucceeds? && s.Of(act.a) == Initing(h) }

  predicate HasSucceeded(run: seq<Action>, h: Handle)
    requires Runs(Init(), run)
  {
    run != [] &&
    (FinalLast(Init(), run);
     var before, last := run[..|run| - 1], run[|run| - 1];
     Succeeds(Final(Init(), before), last, h) || HasSucceeded(before, h))
  }

  /** In every run only services whose init has succeeded are started, and those still in the table all are. */
  lemma {:induction false} StartedIff(run: seq<Action>, h: Handle)
    requires Runs(Init(), run)
    ensures var s := Final(Init(), run);
            && (h in s.services && s.services[h].started ==> HasSucceeded(run, h))
            && (Registered(s, h) && HasSucceeded(run, h) ==> s.services[h].started)
  {
    if run != [] {
      var before, act := run[..|run| - 1], run[|run| - 1];
      FinalLast(Init(), run);
      var s := Final(Init(), before);
      StartedIff(before, h);
      Reached(before);
      StartedNext(s, act, h);
      if HasSucceeded(before, h) { CreatedBefore(before, h); }
    }
  }

  lemma {:induction false} CreatedBefore(run: seq<Action>, h: Handle)
    requires Runs(Init(), run) && HasSucceeded(run, h)
    ensures h in Final(Init(), run).services
  {
    var before, act := run[..|run| - 1], run[|run| - 1];
    FinalLast(Init(), run);
    var s := Final(Init(), before);
    if HasSucceeded(before, h) { CreatedBefore(before, h); }
    FlagsGrow(s, act, h);
  }

  lemma StartedNext(s: State, act: Action, h: Handle)
    requires RefInv(s) && Enabled(s, act)
    ensures var t := Apply(s, act);
            && (h in t.services && t.services[h].started ==>
                  Succeeds(s, act, h) || (h in s.services && s.services[h].started))
            && (h in s.services && s.services[h].started ==> h in t.services && t.services[h].started)
            && (Succeeds(s, act, h) && Registered(t, h) ==> t.services[h].started)
            && (Registered(t, h) && h in s.services ==> Registered(s, h))
  {
    if h in s.services {
      FlagsGrow(s, act, h);
      ServiceEvolves(s, act, h);
      if !Succeeds(s, act, h) && !s.services[h].started { OnlyLaunchStarts(s, act, h); }
      if Succeeds(s, act, h) { LaunchStarts(s, act); }
    } else if h != Subject(s, act) {
      OtherServices(s, act, h);
    } else {
      UnknownStays(s, act, h);
    }
  }

  lemma UnknownStays(s: State, act: Action, h: Handle)
    requires Enabled(s, act) && h !in s.services && h == Subject(s, act)
    ensures h in Apply(s, act).services ==> !Apply(s, act).services[h].started
  {
  }

  predicate Reserves(s: State, act: Action, h: Handle) {
    act.Reserve? && (s.Of(act.a) == Initing(h) || (s.Of(act.a).Running? && s.Of(act.a).h == h))
  }

  predicate Unreserves(act: Action, h: Handle) { act.Unreserve? && act.h == h }

  /** The reserve calls for a service less the releases of them. */
  function Reservations(run: seq<Action>, h: Handle): int
    requires Runs(Init(), run)
  {
    if run == [] then 0
    else
      FinalLast(Init(), run);
      var before, last := run[..|run| - 1], run[|run| - 1];
      Reservations(before, h) + One(Reserves(Final(Init(), before), last, h)) - One(Unreserves(last, h))
  }

  function ReservedOf(s: State, h: Handle): nat { if h in s.services then s.services[h].reserved else 0 }

  lemma ReservedNext(s: State, act: Action, h: Handle)
    requires Enabled(s, act)
    ensures ReservedOf(Apply(s, act), h) == ReservedOf(s, h) + One(Reserves(s, act, h)) - One(Unreserves(act, h))
  {
    if h != Subject(s, act) {
      OtherServices(s, act, h);
    } else if act.Step? && !s.Of(act.a).Fetching? {
      ReservedStep(s, act.a, s.Of(act.a));
    }
  }

  lemma ReservedStep(s: State, a: nat, pc: Actor)
    requires Enabled(s, Step(a)) && s.Of(a) == pc && !pc.Fetching?
    ensures ReservedOf(StepOf(s, a, pc), pc.h) == ReservedOf(s, pc.h)
  {
    match pc {
      case Queueing(_, _) =>
      case Deleting(_, _) =>
      case Releasing(_, _) =>
      case Dropping(_, _) =>
      case _ =>
    }
  }

  lemma {:induction false} ReservedIs(run: seq<Action>, h: Handle)
    requires Runs(Init(), run)
    ensures ReservedOf(Final(Init(), run), h) == Reservations(run, h)
  {
    if run != [] {
      FinalLast(Init(), run);
      ReservedIs(run[..|run| - 1], h);
      ReservedNext(Final(Init(), run[..|run| - 1]), run[|run| - 1], h);
    }
  }

  /**
   In every run the reference count of a context is: one while it is in the table, the reserve calls not yet released,
   and the actors that hold it.
   */
  lemma ReferencesFromCalls(run: seq<Action>, h: Handle)
    requires Runs(Init(), run) && h in Final(Init(), run).services
    ensures var s := Final(Init(), run);
            s.services[h].ref == One(InTable(run, h)) + Reservations(run, h) + |RefSet(s.actors, h)|
  {
    Reached(run);
    RegisteredIff(run, h);
    ReservedIs(run, h);
    assert Final(Init(), run).services[h].ref == RefCount(Final(Init(), run), h);
  }

  // ----- a worker takes turns

  /**
   A worker whose callback ends its turn takes the first queue of the global list, if there is one when it looks, and
   then puts its own behind all that are in the list by then; with an empty list it keeps its own.
   */
  lemma WorkerTakesTurns(run: seq<Action>, a: nat, first: seq<Action>, more: seq<Action>)
    requires Runs(Init(), run) && Final(Init(), run).Of(a).Running? && Others(first, a) && Others(more, a)
    requires Runs(Final(Init(), run), [CallbackEnds(a, false)] + first)
    requires Runs(Final(Final(Init(), run), [CallbackEnds(a, false)] + first), [Step(a)] + more)
    ensures var s := Final(Final(Init(), run), [CallbackEnds(a, false)] + first);
            var t := Final(s, [Step(a)] + more);
            var h := Final(Init(), run).Of(a).h;
            && Enabled(t, Step(a))
            && (s.global == [] ==> t.Of(a) == Releasing(h, Keep(h)))
            && (s.global != [] ==>
                  && HoldsToken(t.Of(a), h) && HoldsToken(t.Of(a), s.global[0])
                  && Apply(t, Step(a)).global == t.global + [h]
                  && Apply(t, Step(a)).Of(a) == Releasing(h, Keep(s.global[0])))
  {
    var ended := [CallbackEnds(a, false)] + first;
    var s := Final(Final(Init(), run), ended);
    AfterCall(Final(Init(), run), CallbackEnds(a, false), first);
    AfterCall(s, Step(a), more);
    Follows(Init(), run, ended);
    Follows(Init(), run + ended, [Step(a)] + more);
    NobodyIsStuck(run + ended + ([Step(a)] + more), a);
  }

  // ----- workers

  /** The actor is in the loop of a worker thread. */
  predicate Works(pc: Actor) {
    match pc
    case Fetching => true
    case Grabbing(_) => true
    case Popping(_) => true
    case Running(_, _) => true
    case Choosing(_) => true
    case Returning(_, _) => true
    case Releasing(_, next) => next.TakeNext? || next.Keep?
    case Deleting(_, next) => next.TakeNext? || next.Keep?
    case Yielding(_, worker) => worker
    case Dropping(_, worker) => worker
    case _ => false
  }

  lemma WorksOn(s: State, act: Action)
    requires Enabled(s, act)
    ensures Works(Apply(s, act).Of(act.a)) <==> Works(s.Of(act.a)) || act.StartWorker?
  {
    if act.Step? { StepWorksOn(s, act.a, s.Of(act.a)); }
  }

  lemma StepWorksOn(s: State, a: nat, pc: Actor)
    requires Enabled(s, Step(a)) && s.Of(a) == pc
    ensures Works(StepOf(s, a, pc).Of(a)) <==> Works(pc)
  {
    match pc {
      case Queueing(_, _) =>
      case Deleting(_, _) =>
      case Releasing(_, _) =>
      case Dropping(_, _) =>
      case _ =>
    }
  }

  /** In every run the workers are those that were started: none ends, and no other thread becomes one. */
  lemma {:induction false} WorkersGoOn(run: seq<Action>, a: nat)
    requires Runs(Init(), run)
    ensures Works(Final(Init(), run).Of(a)) <==> StartWorker(a) in run
  {
    if run != [] {
      var before, act := run[..|run| - 1], run[|run| - 1];
      assert run == before + [act];
      FinalLast(Init(), run);
      WorkersGoOn(before, a);
      if act.a == a { WorksOn(Final(Init(), before), act); } else { OtherActors(Final(Init(), before), act, a); }
    }
  }
}
