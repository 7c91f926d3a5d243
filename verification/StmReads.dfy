/**
 What updates and reads on the shared object come to: the copy of the latest update is installed, every read
 answers by the copies that were installed when it looked.
 */
module StmReads {
  import opened RwLock
  import opened Stm
  import opened StmInvariant
  import opened StmTheorems

  // ----- updates

  /** How many updates a run has called; copy 0 is the one of stm_new. */
  function Updates(run: seq<Action>): nat {
    if run == [] then 0 else Updates(run[..|run| - 1]) + One(run[|run| - 1].Update?)
  }

  /** The copy that is installed when n updates have been called, the last one perhaps still going on. */
  function Version(job: Job, n: nat): CopyRef {
    if job.Leaving? || job.ReleaseEnd? || job.Gone? then None
    else if (job.Install? || job.Replace?) && n > 0 then Some(n - 1)
    else Some(n)
  }

  predicate VersionInv(s: State, n: nat) {
    && |s.threads| > 0 && |s.copies| == n + 1 && s.installed == Version(s.threads[0].job, n)
    && (s.threads[0].job.Install? || s.threads[0].job.Replace? ==> n > 0 && s.threads[0].job.c == n)
  }

  /** A reader leaves obj->copy and the writer alone, and makes no copy. */
  lemma ReaderLeaves(s: State, i: nat)
    requires Inv(s) && StepEnabled(s, i) && i > 0
    ensures var t := StepOf(s, i);
            t.installed == s.installed && |t.copies| == |s.copies| && |t.threads| == |s.threads| && t.threads[0] == s.threads[0]
  {
    assert ThreadOk(s, i);
  }

  lemma WriterVersion(s: State, n: nat)
    requires Inv(s) && VersionInv(s, n) && StepEnabled(s, 0)
    ensures VersionInv(StepOf(s, 0), n)
  {
    assert ThreadOk(s, 0);
    if Ready(s, 0) {
      match s.threads[0].job
      case Grab =>
      case Install(c) =>
      case Replace(c, was) =>
      case Release =>
      case Clear =>
      case Leaving =>
    } else {
      SelfOutside(s, 0);
    }
  }

  lemma VersionKept(s: State, a: Action, n: nat)
    requires Inv(s) && VersionInv(s, n) && Enabled(s, a)
    ensures VersionInv(Apply(s, a), n + One(a.Update?))
  {
    if a.Step? {
      if a.i == 0 { WriterVersion(s, n); } else { ReaderLeaves(s, a.i); }
    }
  }

  /** The state a run has reached, step by step from the end. */
  lemma FinalLast(s: State, run: seq<Action>)
    requires Runs(s, run) && run != []
    ensures var before := run[..|run| - 1];
            && Runs(s, before) && Enabled(Final(s, before), run[|run| - 1])
            && Final(s, run) == Apply(Final(s, before), run[|run| - 1])
    decreases |run|
  {
    if |run| == 1 {
      assert run[..0] == [] && run[1..] == [];
    } else {
      FinalLast(Apply(s, run[0]), run[1..]);
      assert run[..|run| - 1][0] == run[0] && run[..|run| - 1][1..] == run[1..][..|run| - 2];
    }
  }

  lemma {:induction false} VersionReached(run: seq<Action>)
    requires Runs(Init(), run)
    ensures VersionInv(Final(Init(), run), Updates(run))
  {
    if run != [] {
      var before := run[..|run| - 1];
      FinalLast(Init(), run);
      VersionReached(before);
      Reached(before);
      VersionKept(Final(Init(), before), run[|run| - 1], Updates(before));
    }
  }

  /** Whenever the writer is at rest, the copy of its latest update is installed. */
  lemma LatestUpdateInstalled(run: seq<Action>)
    requires Runs(Init(), run) && AtRest(Final(Init(), run), 0)
    ensures var s := Final(Init(), run);
            |s.copies| == Updates(run) + 1 && s.installed == Some(Updates(run))
  {
    VersionReached(run);
  }

  // ----- reads

  /** Thread i reads obj->copy for an lread. */
  predicate Looks(s: State, a: Action, i: nat) {
    && a == Step(i) && i < |s.threads| && i < |s.lock.pcs| && s.lock.pcs[i].Reading?
    && s.threads[i].job.Look? && s.threads[i].drop.None? && s.threads[i].free.None?
  }

  /** What was installed at each of a reader's looks. */
  function Seen(run: seq<Action>, i: nat): seq<CopyRef>
    requires Runs(Init(), run)
  {
    if run == [] then []
    else
      FinalLast(Init(), run);
      var before, a := run[..|run| - 1], run[|run| - 1];
      var s := Final(Init(), before);
      Seen(before, i) + if Looks(s, a, i) then [s.installed] else []
  }

  /** The answers reads are to give: a copy is new when the previous look saw another one, and there is one. */
  function Expected(seen: seq<CopyRef>, i: nat): seq<Answer> {
    if seen == [] then []
    else
      var n := |seen| - 1;
      Expected(seen[..n], i) + [Answer(i, seen[n], seen[n].Some? && seen[n] != if n == 0 then None else seen[n - 1])]
  }

  function Given(answers: seq<Answer>, i: nat): seq<Answer> {
    if answers == [] then []
    else
      var n := |answers| - 1;
      Given(answers[..n], i) + if answers[n].reader == i then [answers[n]] else []
  }

  /** A reader that has looked and not yet answered. */
  predicate Undecided(job: Job) { job.Take? || job.TakeEnd? || job.Compare? }

  function LastOf(seen: seq<CopyRef>): CopyRef { if seen == [] then None else seen[|seen| - 1] }

  /** A reader holds the last copy it saw, and has answered for every look but the one it is at. */
  predicate ReadInv(s: State, seen: seq<CopyRef>, i: nat) {
    if i >= |s.threads| then seen == [] && Given(s.answers, i) == []
    else
      var job := s.threads[i].job;
      if Undecided(job) then
        && seen != [] && job.got == LastOf(seen)
        && s.threads[i].last == LastOf(seen[..|seen| - 1])
        && Given(s.answers, i) == Expected(seen[..|seen| - 1], i)
      else
        && s.threads[i].last == (if job.Gone? then None else LastOf(seen))
        && Given(s.answers, i) == Expected(seen, i)
  }

  lemma GivenMore(answers: seq<Answer>, x: Answer, i: nat)
    ensures Given(answers + [x], i) == Given(answers, i) + if x.reader == i then [x] else []
  {
    assert (answers + [x])[..|answers|] == answers;
  }

  /** Only the Compare of lread answers, and only for its own reader. */
  lemma AnswersOf(s: State, a: Action, i: nat)
    requires Inv(s) && Enabled(s, a)
    ensures i != Actor(s, a) || !(a.Step? && s.threads[i].job.Compare?) ==> Given(Apply(s, a).answers, i) == Given(s.answers, i)
  {
    if a.Step? {
      var th := s.threads[a.i];
      assert ThreadOk(s, a.i);
      if th.job.Compare? && th.free.None? && th.drop.None? {
        GivenMore(s.answers, Apply(s, a).answers[|s.answers|], i);
      } else {
        assert Apply(s, a).answers == s.answers;
      }
    }
  }

  lemma ThreadsOf(s: State, a: Action)
    requires Inv(s) && Enabled(s, a)
    ensures |Apply(s, a).threads| == if a.NewReader? then |s.threads| + 1 else |s.threads|
  {
    if a.Step? { assert ThreadOk(s, a.i); }
  }

  lemma OtherReads(s: State, a: Action, i: nat, seen: seq<CopyRef>)
    requires Inv(s) && Enabled(s, a) && ReadInv(s, seen, i) && i != Actor(s, a)
    ensures ReadInv(Apply(s, a), seen, i)
  {
    AnswersOf(s, a, i);
    ThreadsOf(s, a);
    if i < |s.threads| {
      OthersStay(s, a, i);
    }
  }

  /** One more look, if the step is one. */
  function SeenAfter(s: State, a: Action, i: nat, seen: seq<CopyRef>): seq<CopyRef> {
    seen + if Looks(s, a, i) then [s.installed] else []
  }

  lemma LookReads(s: State, i: nat, seen: seq<CopyRef>)
    requires Inv(s) && Enabled(s, Step(i)) && Looks(s, Step(i), i) && ReadInv(s, seen, i)
    ensures ReadInv(Apply(s, Step(i)), seen + [s.installed], i)
  {
    assert ThreadOk(s, i);
    assert (seen + [s.installed])[..|seen|] == seen;
  }

  lemma CompareReads(s: State, i: nat, seen: seq<CopyRef>)
    requires Inv(s) && Enabled(s, Step(i)) && i < |s.threads| && s.threads[i].job.Compare? && ReadInv(s, seen, i)
    requires s.threads[i].drop.None? && s.threads[i].free.None?
    ensures ReadInv(Apply(s, Step(i)), seen, i)
  {
    var t := Apply(s, Step(i));
    assert ThreadOk(s, i);
    GivenMore(s.answers, t.answers[|s.answers|], i);
  }

  /** What a thread has in hand is not touched by a step that neither looks nor answers. */
  predicate Carries(before: Thread, after: Thread) {
    if Undecided(before.job) then Undecided(after.job) && after.job.got == before.job.got && after.last == before.last
    else !Undecided(after.job) && after.last == if after.job.Gone? then None else before.last
  }

  lemma CallCarries(s: State, a: Action)
    requires Inv(s) && Enabled(s, a) && !a.Step? && !a.NewReader?
    ensures Actor(s, a) < |s.threads| && Carries(s.threads[Actor(s, a)], Apply(s, a).threads[Actor(s, a)])
  {
  }

  lemma StepCarries(s: State, i: nat)
    requires Inv(s) && StepEnabled(s, i) && !Looks(s, Step(i), i)
    requires !s.threads[i].job.Compare? || s.threads[i].drop.Some? || s.threads[i].free.Some?
    requires s.threads[i].job.Gone? ==> s.threads[i].last.None?
    ensures StepOf(s, i).answers == s.answers && i < |StepOf(s, i).threads|
    ensures Carries(s.threads[i], StepOf(s, i).threads[i])
  {
    var th := s.threads[i];
    assert ThreadOk(s, i);
    if th.free.Some? {
    } else if th.drop.Some? {
    } else if EndsLocked(th.job) {
    } else if Wants(th.job) && !s.lock.pcs[i].Reading? && !s.lock.pcs[i].Writing? {
    } else if Writes(th.job) {
      WriteCarries(s, i);
    } else {
    }
  }

  lemma WriteCarries(s: State, i: nat)
    requires i < |s.threads| && Writes(s.threads[i].job) && s.threads[i].last.None?
    ensures Write(s, i).answers == s.answers && Carries(s.threads[i], Write(s, i).threads[i])
  {
    match s.threads[i].job
    case Grab =>
    case Install(c) =>
    case Replace(c, was) =>
    case Release =>
    case Clear =>
    case Leaving =>
  }

  /** Any other step of the reader. */
  lemma PlainReads(s: State, a: Action, i: nat, seen: seq<CopyRef>)
    requires Inv(s) && Enabled(s, a) && ReadInv(s, seen, i) && i == Actor(s, a) && !Looks(s, a, i)
    requires a.Step? ==> !s.threads[i].job.Compare? || s.threads[i].drop.Some? || s.threads[i].free.Some?
    ensures ReadInv(Apply(s, a), seen, i)
  {
    if a.Step? {
      StepCarries(s, i);
    } else if !a.NewReader? {
      CallCarries(s, a);
    }
  }

  lemma ReadKept(s: State, a: Action, i: nat, seen: seq<CopyRef>)
    requires Inv(s) && Enabled(s, a) && ReadInv(s, seen, i)
    ensures ReadInv(Apply(s, a), SeenAfter(s, a, i, seen), i)
  {
    assert seen + [] == seen;
    if i != Actor(s, a) {
      OtherReads(s, a, i, seen);
    } else if Looks(s, a, i) {
      LookReads(s, i, seen);
    } else if a.Step? && s.threads[i].job.Compare? && s.threads[i].drop.None? && s.threads[i].free.None? {
      CompareReads(s, i, seen);
    } else {
      PlainReads(s, a, i, seen);
    }
  }

  lemma {:induction false} ReadReached(run: seq<Action>, i: nat)
    requires Runs(Init(), run)
    ensures ReadInv(Final(Init(), run), Seen(run, i), i)
  {
    if run != [] {
      var before := run[..|run| - 1];
      FinalLast(Init(), run);
      ReadReached(before, i);
      Reached(before);
      ReadKept(Final(Init(), before), run[|run| - 1], i, Seen(before, i));
    }
  }

  /**
   In every run a reader has answered for each of its looks, but one it is still at: it calls the copy that
   was installed then new exactly when there was one and the look before saw another, or it was the first.
   */
  lemma ReadsAnswer(run: seq<Action>, i: nat)
    requires Runs(Init(), run) && i < |Final(Init(), run).threads|
    ensures var s := Final(Init(), run);
            var seen := Seen(run, i);
            if Undecided(s.threads[i].job) then seen != [] && Given(s.answers, i) == Expected(seen[..|seen| - 1], i)
            else Given(s.answers, i) == Expected(seen, i)
  {
    ReadReached(run, i);
  }

  /** Between reads a reader holds exactly the copy it saw last, and a deleted reader none. */
  lemma HoldsWhatItSaw(run: seq<Action>, i: nat)
    requires Runs(Init(), run) && i < |Final(Init(), run).threads| && !Undecided(Final(Init(), run).threads[i].job)
    ensures var th := Final(Init(), run).threads[i];
            th.last == if th.job.Gone? then None else LastOf(Seen(run, i))
  {
    ReadReached(run, i);
  }

  // ----- versions

  predicate NotNewer(c: CopyRef, d: CopyRef) { d.None? || (c.Some? && c.c <= d.c) }

  /** Looks go forward: to later updates, and to nothing once the writer is gone. */
  predicate Forward(seen: seq<CopyRef>, now: CopyRef) {
    && (forall k, l :: 0 <= k < l < |seen| ==> NotNewer(seen[k], seen[l]))
    && (forall k :: 0 <= k < |seen| ==> NotNewer(seen[k], now))
  }

  lemma InstalledForward(s: State, a: Action, n: nat)
    requires Inv(s) && VersionInv(s, n) && Enabled(s, a)
    ensures NotNewer(s.installed, Apply(s, a).installed)
  {
    VersionKept(s, a, n);
    assert ThreadOk(s, 0);
    if a.Step? { assert ThreadOk(s, a.i); }
  }

  lemma ForwardMore(seen: seq<CopyRef>, now: CopyRef, next: CopyRef)
    requires Forward(seen, now) && NotNewer(now, next)
    ensures Forward(seen, next) && Forward(seen + [now], next)
  {
  }

  /** No reader ever goes back to an older copy. */
  lemma {:induction false} NeverBack(run: seq<Action>, i: nat)
    requires Runs(Init(), run)
    ensures Forward(Seen(run, i), Final(Init(), run).installed)
  {
    if run != [] {
      var before := run[..|run| - 1];
      FinalLast(Init(), run);
      NeverBack(before, i);
      Reached(before);
      VersionReached(before);
      var s := Final(Init(), before);
      InstalledForward(s, run[|run| - 1], Updates(before));
      ForwardMore(Seen(before, i), s.installed, Final(Init(), run).installed);
      assert Seen(before, i) + [] == Seen(before, i);
    }
  }

  // ----- references handed out

  function Grabs(run: seq<Action>): nat {
    if run == [] then 0 else Grabs(run[..|run| - 1]) + One(run[|run| - 1].CallGrab?)
  }

  /** Every lcopy hands out one reference, which one reader box takes up. */
  lemma {:induction false} GrabsCount(run: seq<Action>)
    requires Runs(Init(), run)
    ensures var s := Final(Init(), run);
            |s.threads| > 0 && Grabs(run) == s.tickets + (|s.threads| - 1) + One(s.threads[0].job.Grab?)
  {
    if run != [] {
      var before := run[..|run| - 1];
      FinalLast(Init(), run);
      GrabsCount(before);
      Reached(before);
      GrabStep(Final(Init(), before), run[|run| - 1]);
    }
  }

  lemma GrabStep(s: State, a: Action)
    requires Inv(s) && Enabled(s, a)
    ensures var t := Apply(s, a);
            |t.threads| > 0 && t.tickets + |t.threads| + One(t.threads[0].job.Grab?) ==
                               s.tickets + |s.threads| + One(s.threads[0].job.Grab?) + One(a.CallGrab?)
  {
    assert ThreadOk(s, 0);
    if a.Step? { assert ThreadOk(s, a.i); }
  }
}
