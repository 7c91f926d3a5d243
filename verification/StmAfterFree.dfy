/**
 Who still touches the shared object after it has been freed.
 */
module StmAfterFree {
  import opened RwLock
  import opened Stm
  import opened StmInvariant
  import opened StmTheorems

  /** Whether the thread's next step reads or writes the object: its lock, its count or obj->copy. */
  predicate TouchesObject(s: State, a: Action) {
    && a.Step? && a.i < |s.threads|
    && var th := s.threads[a.i];
       && th.free.None? && th.drop.None?
       && (Wants(th.job) || EndsLocked(th.job) || th.job.Replace? || th.job.Clear? || th.job.Leaving?)
  }

  /** A reader about to unlock after it has counted down. */
  predicate AboutToUnlock(s: State, i: nat) { i < |s.threads| && s.threads[i].job.LeaveEnd? }

  ghost predicate SomeoneUnlocks(s: State) { exists i: nat :: AboutToUnlock(s, i) }

  // ----- two more invariants

  /** A writer that leaves the object to its readers unlocks it before the last of them counts down. */
  predicate WriterLeft(s: State) {
    |s.threads| > 0 && (s.threads[0].job.ReleaseEnd? ==> s.reference > 0)
  }

  predicate NothingPending(th: Thread) { th.job.LeaveEnd? ==> th.drop.None? && th.free.None? }

  ghost predicate LeavesClean(s: State) { forall i :: 0 <= i < |s.threads| ==> NothingPending(s.threads[i]) }

  lemma WriterLeftKept(s: State, a: Action)
    requires Inv(s) && WriterLeft(s) && Enabled(s, a)
    ensures WriterLeft(Apply(s, a))
  {
    assert ThreadOk(s, 0);
    if a.Step? { assert ThreadOk(s, a.i); }
  }

  lemma ActorLeavesClean(s: State, a: Action)
    requires ThreadsOk(s) && LeavesClean(s) && Enabled(s, a)
    ensures Actor(s, a) < |Apply(s, a).threads| && NothingPending(Apply(s, a).threads[Actor(s, a)])
  {
    if a.Step? { assert NothingPending(s.threads[a.i]) && ThreadOk(s, a.i); }
  }

  lemma LeavesCleanKept(s: State, a: Action)
    requires Inv(s) && LeavesClean(s) && Enabled(s, a)
    ensures LeavesClean(Apply(s, a))
  {
    var t := Apply(s, a);
    ActorLeavesClean(s, a);
    forall j | 0 <= j < |t.threads|
      ensures NothingPending(t.threads[j])
    {
      if j != Actor(s, a) {
        OthersStay(s, a, j);
        assert NothingPending(s.threads[j]);
      }
    }
  }

  lemma {:induction false} RunKeepsBoth(s: State, run: seq<Action>)
    requires Inv(s) && WriterLeft(s) && LeavesClean(s) && Runs(s, run)
    ensures Inv(Final(s, run)) && WriterLeft(Final(s, run)) && LeavesClean(Final(s, run))
    decreases |run|
  {
    if run != [] {
      StepKeeps(s, run[0]);
      WriterLeftKept(s, run[0]);
      LeavesCleanKept(s, run[0]);
      RunKeepsBoth(Apply(s, run[0]), run[1..]);
    }
  }

  lemma ReachedBoth(run: seq<Action>)
    requires Runs(Init(), run)
    ensures Inv(Final(Init(), run)) && WriterLeft(Final(Init(), run)) && LeavesClean(Final(Init(), run))
  {
    Reached([]);
    RunKeepsBoth(Init(), run);
  }

  // ----- after the free

  lemma NoMembers(s: State, i: nat)
    requires Inv(s) && s.frees == 1 && i < |s.threads|
    ensures !Member(s.threads[i].job) && s.tickets == 0 && s.reference == 0
  {
    TotalAtLeast(s.threads, i, Membership);
  }

  /** The only accesses left are the unlocks of readers that have counted down, and each of them is made. */
  lemma OnlyUnlocksTouch(s: State, a: Action)
    requires Inv(s) && WriterLeft(s) && LeavesClean(s) && s.frees == 1 && Enabled(s, a)
    ensures TouchesObject(s, a) <==> a.Step? && a.i > 0 && AboutToUnlock(s, a.i)
  {
    if a.Step? {
      NoMembers(s, a.i);
      NoMembers(s, 0);
      assert ThreadOk(s, a.i) && NothingPending(s.threads[a.i]);
    }
  }

  /** No reader gets there any more. */
  lemma NobodyFollows(s: State, a: Action)
    requires Inv(s) && WriterLeft(s) && s.frees == 1 && Enabled(s, a)
    ensures Apply(s, a).frees == 1
    ensures SomeoneUnlocks(Apply(s, a)) ==> SomeoneUnlocks(s)
  {
    var t := Apply(s, a);
    StepKeeps(s, a);
    if !a.NewReader? { NoMembers(s, Actor(s, a)); }
    if i: nat :| AboutToUnlock(t, i) {
      if i != Actor(s, a) { OthersStay(s, a, i); }
      assert AboutToUnlock(s, i);
    }
  }

  /** A run that ends with an access to the object. */
  ghost predicate EndsTouching(s: State, run: seq<Action>) {
    && run != [] && Runs(s, run[..|run| - 1])
    && var t := Final(s, run[..|run| - 1]);
       Enabled(t, run[|run| - 1]) && TouchesObject(t, run[|run| - 1])
  }

  lemma {:induction false} NoTouch(s: State, run: seq<Action>)
    requires Inv(s) && WriterLeft(s) && LeavesClean(s) && s.frees == 1 && EndsTouching(s, run)
    ensures SomeoneUnlocks(s)
    decreases |run|
  {
    var a := run[0];
    if |run| == 1 {
      OnlyUnlocksTouch(s, a);
      assert AboutToUnlock(s, a.i);
    } else {
      assert run[..|run| - 1][0] == a && run[..|run| - 1][1..] == run[1..][..|run| - 2];
      StepKeeps(s, a);
      WriterLeftKept(s, a);
      LeavesCleanKept(s, a);
      NobodyFollows(s, a);
      NoTouch(Apply(s, a), run[1..]);
    }
  }

  lemma UnlockTouches(s: State, i: nat)
    requires Inv(s) && LeavesClean(s) && AboutToUnlock(s, i)
    ensures Enabled(s, Step(i)) && EndsTouching(s, [Step(i)])
  {
    assert ThreadOk(s, i) && NothingPending(s.threads[i]);
    assert [Step(i)][..0] == [];
  }

  /**
   In every run: once the object is freed, the only accesses left are the unlocks in stm_releasereader of
   readers that had counted down before, and there is one exactly when such a reader is there.
   */
  lemma AccessAfterFree(run: seq<Action>)
    requires Runs(Init(), run) && Final(Init(), run).frees == 1
    ensures var s := Final(Init(), run);
            && (forall a :: Enabled(s, a) ==> (TouchesObject(s, a) <==> a.Step? && a.i > 0 && AboutToUnlock(s, a.i)))
            && ((exists later :: EndsTouching(s, later)) <==> exists i: nat :: AboutToUnlock(s, i))
  {
    ReachedBoth(run);
    var s := Final(Init(), run);
    forall a | Enabled(s, a)
      ensures TouchesObject(s, a) <==> a.Step? && a.i > 0 && AboutToUnlock(s, a.i)
    {
      OnlyUnlocksTouch(s, a);
    }
    if later :| EndsTouching(s, later) {
      NoTouch(s, later);
    }
    if i: nat :| AboutToUnlock(s, i) {
      UnlockTouches(s, i);
    }
  }

  /** The step that frees the object is a reader's or the writer's own count-down. */
  lemma FreeingStep(s: State, a: Action)
    requires Inv(s) && Enabled(s, a) && s.frees == 0 && Apply(s, a).frees == 1
    ensures a.Step? && a.i < |s.threads| == |s.lock.pcs| && Apply(s, a).threads[a.i].job != LeaveEnd
    ensures if a.i == 0 then s.lock.pcs[0].Writing? else s.lock.pcs[a.i].Reading?
  {
    if a.Step? { assert ThreadOk(s, a.i); }
  }

  lemma OthersUnlock(s: State, a: Action)
    requires Inv(s) && Enabled(s, a) && s.frees == 0 && Apply(s, a).frees == 1 && a.Step?
    ensures SomeoneUnlocks(Apply(s, a)) <==> exists i: nat :: i != a.i && AboutToUnlock(s, i)
  {
    var t := Apply(s, a);
    FreeingStep(s, a);
    if i: nat :| AboutToUnlock(t, i) {
      OthersStay(s, a, i);
      assert i != a.i && AboutToUnlock(s, i);
    }
    if i: nat :| i != a.i && AboutToUnlock(s, i) {
      OthersStay(s, a, i);
      assert AboutToUnlock(t, i);
    }
  }

  /**
   The object is accessed after its free exactly when, at the count-down that frees it, another reader
   stands between its own count-down and its unlock. That is never so when the writer is the one that frees it.
   */
  lemma FreedUnderAReader(run: seq<Action>, a: Action)
    requires Runs(Init(), run) && Enabled(Final(Init(), run), a)
    requires Final(Init(), run).frees == 0 && Apply(Final(Init(), run), a).frees == 1
    ensures var s := Final(Init(), run);
            && a.Step?
            && ((exists later :: EndsTouching(Apply(s, a), later)) <==> exists i: nat :: i != a.i && AboutToUnlock(s, i))
            && (a.i == 0 ==> !SomeoneUnlocks(s))
  {
    ReachedBoth(run);
    var s := Final(Init(), run);
    FreeingStep(s, a);
    OthersUnlock(s, a);
    Then(Init(), run, a);
    AccessAfterFree(run + [a]);
    forall i: nat | a.i == 0
      ensures !AboutToUnlock(s, i)
    {
      if i < |s.threads| { assert ThreadOk(s, i); }
    }
  }

  // ----- a run in which it happens

  predicate Idle(s: State, i: nat) { AtRest(s, i) && s.lock.pcs[i].Outside? && !s.lock.write }

  /** The four instructions of rwlock_rlock on a lock no writer wants. */
  lemma EnterRead(s: State, i: nat) returns (run: seq<Action>)
    requires i < |s.threads| == |s.lock.pcs| && s.threads[i].drop.None? && s.threads[i].free.None?
    requires WantsRead(s.threads[i].job) && s.lock.pcs[i].Outside? && !s.lock.write
    ensures Runs(s, run) && Final(s, run) == s.(lock := Lock(false, s.lock.read + 1, s.lock.pcs[i := Reading]))
  {
    var l, a := s.lock, Step(i);
    run := [];
    Then(s, run, a);
    assert Final(s, run + [a]) == s.(lock := Call(l, i, false));
    run := run + [a];
    Then(s, run, a);
    assert Final(s, run + [a]) == s.(lock := Lock(false, l.read, l.pcs[i := ReadAdd]));
    run := run + [a];
    Then(s, run, a);
    assert Final(s, run + [a]) == s.(lock := Lock(false, l.read + 1, l.pcs[i := ReadCheck]));
    run := run + [a];
    Then(s, run, a);
    run := run + [a];
  }

  /** One call of lcopy. */
  lemma GrabPath(s: State) returns (run: seq<Action>)
    requires Idle(s, 0)
    ensures Runs(s, run) && Final(s, run) == s.(reference := s.reference + 1, tickets := s.tickets + 1)
  {
    run := [];
    Then(s, run, CallGrab);
    run := run + [CallGrab];
    var enter := EnterRead(Final(s, run), 0);
    RunsOn(s, run, enter);
    run := run + enter;
    Then(s, run, Step(0));
    run := run + [Step(0)];
    Then(s, run, Step(0));
    run := run + [Step(0)];
    assert Final(s, run).threads == s.threads && Final(s, run).lock.pcs == s.lock.pcs;
  }

  /** stm_releasereader up to the count-down. */
  lemma LeavePath(s: State, i: nat) returns (run: seq<Action>)
    requires i > 0 && Idle(s, i)
    ensures Runs(s, run)
    ensures Final(s, run) ==
            s.(threads := s.threads[i := s.threads[i].(job := if s.reference == 1 then LeaveLast else LeaveEnd)],
               lock := Lock(false, s.lock.read + 1, s.lock.pcs[i := Reading]),
               reference := s.reference - 1, frees := if s.reference == 1 then s.frees + 1 else s.frees)
  {
    run := [];
    Then(s, run, CallLeave(i));
    run := run + [CallLeave(i)];
    var enter := EnterRead(Final(s, run), i);
    RunsOn(s, run, enter);
    run := run + enter;
    Then(s, run, Step(i));
    run := run + [Step(i)];
    assert Final(s, run).threads == s.threads[i := s.threads[i].(job := if s.reference == 1 then LeaveLast else LeaveEnd)];
  }

  /** The instructions of rwlock_wlock on an unused lock. */
  lemma EnterWrite(s: State) returns (run: seq<Action>)
    requires 0 < |s.threads| == |s.lock.pcs| && s.threads[0].drop.None? && s.threads[0].free.None?
    requires WantsWrite(s.threads[0].job) && s.lock.pcs[0].Outside? && !s.lock.write && s.lock.read == 0
    ensures Runs(s, run) && Final(s, run) == s.(lock := Lock(true, 0, s.lock.pcs[0 := Writing]))
  {
    var l, a := s.lock, Step(0);
    run := [];
    Then(s, run, a);
    assert Final(s, run + [a]) == s.(lock := Call(l, 0, true));
    run := run + [a];
    Then(s, run, a);
    assert Final(s, run + [a]) == s.(lock := Lock(true, 0, l.pcs[0 := WriteDrain]));
    run := run + [a];
    Then(s, run, a);
    run := run + [a];
  }

  /** stm_release gives away its copy, which nobody else holds. */
  lemma CopyGoes(s: State) returns (run: seq<Action>)
    requires 0 < |s.threads| == |s.lock.pcs| && s.threads[0] == Thread(Release, None, None, None) && s.lock.pcs[0].Writing?
    requires s.installed == Some(0) && s.copies == [Copy(1, 0)]
    ensures Runs(s, run)
    ensures Final(s, run) == s.(threads := s.threads[0 := Thread(Clear, None, None, None)], copies := [Copy(0, 1)])
  {
    var a := Step(0);
    run := [];
    Then(s, run, a);
    run := run + [a];
    assert Final(s, run) == s.(threads := s.threads[0 := Thread(Clear, None, Some(0), None)]);
    Then(s, run, a);
    run := run + [a];
    assert Final(s, run) == s.(threads := s.threads[0 := Thread(Clear, None, None, Some(0))], copies := [Copy(0, 0)]);
    Then(s, run, a);
    run := run + [a];
    assert Final(s, run).threads == s.threads[0 := Thread(Clear, None, None, None)];
  }

  /** Then it leaves the object to its readers. */
  lemma ObjectStays(s: State) returns (run: seq<Action>)
    requires 0 < |s.threads| == |s.lock.pcs| && s.threads[0] == Thread(Clear, None, None, None) && s.lock.pcs[0].Writing?
    requires s.reference > 1
    ensures Runs(s, run)
    ensures Final(s, run) == s.(threads := s.threads[0 := Thread(Gone, None, None, None)],
                                lock := Unlock(s.lock, 0), installed := None, reference := s.reference - 1)
  {
    var a := Step(0);
    run := [];
    Then(s, run, a);
    run := run + [a];
    assert Final(s, run) == s.(threads := s.threads[0 := Thread(Leaving, None, None, None)], installed := None);
    Then(s, run, a);
    run := run + [a];
    assert Final(s, run).threads == s.threads[0 := Thread(ReleaseEnd, None, None, None)];
    Then(s, run, a);
    run := run + [a];
    assert Final(s, run).threads == s.threads[0 := Thread(Gone, None, None, None)];
  }

  const RESTING := Thread(Rest, None, None, None)

  /** The writer makes two readers and leaves them the object. */
  lemma TwoReaders() returns (run: seq<Action>)
    ensures Runs(Init(), run)
    ensures Final(Init(), run) == State(Lock(false, 0, [Outside, Outside, Outside]),
                                        [Thread(Gone, None, None, None), RESTING, RESTING], None, [Copy(0, 1)], 2, 0, 0, [])
  {
    run := GrabPath(Init());
    var more := GrabPath(Final(Init(), run));
    RunsOn(Init(), run, more);
    run := run + more;
    Then(Init(), run, NewReader);
    run := run + [NewReader];
    Then(Init(), run, NewReader);
    run := run + [NewReader];
    Then(Init(), run, CallRelease);
    run := run + [CallRelease];
    more := EnterWrite(Final(Init(), run));
    RunsOn(Init(), run, more);
    run := run + more;
    more := CopyGoes(Final(Init(), run));
    RunsOn(Init(), run, more);
    run := run + more;
    more := ObjectStays(Final(Init(), run));
    RunsOn(Init(), run, more);
    run := run + more;
  }

  /** One reader counts down, the other counts down and frees the object, the first one unlocks it. */
  lemma UnlockAfterFreeHappens() returns (run: seq<Action>)
    ensures Runs(Init(), run) && Final(Init(), run).frees == 1
    ensures Enabled(Final(Init(), run), Step(1)) && TouchesObject(Final(Init(), run), Step(1))
  {
    run := TwoReaders();
    var more := LeavePath(Final(Init(), run), 1);
    RunsOn(Init(), run, more);
    run := run + more;
    more := LeavePath(Final(Init(), run), 2);
    RunsOn(Init(), run, more);
    run := run + more;
  }
}
