/**
 What a read, an update and a deletion do from beginning to end when nobody is in their way.
 */
module StmProgress {
  import opened RwLock
  import opened Stm
  import opened StmInvariant
  import opened StmTheorems
  import opened StmAfterFree

  /** What is left of a call once its references have been counted down: nothing but the count of a copy. */
  predicate Tidied(s: State, t: State, i: nat)
    requires i < |s.threads|
  {
    && t.threads == s.threads[i := s.threads[i].(drop := None, free := None)]
    && t.lock == s.lock && t.installed == s.installed && t.reference == s.reference && t.tickets == s.tickets
    && t.frees == s.frees && t.answers == s.answers && |t.copies| == |s.copies|
  }

  lemma FreesCopy(s: State, i: nat) returns (run: seq<Action>)
    requires i < |s.threads| == |s.lock.pcs| && s.threads[i].drop.None? && Live(s, s.threads[i].free)
    ensures Runs(s, run) && Tidied(s, Final(s, run), i)
  {
    run := [];
    if s.threads[i].free.Some? {
      Then(s, run, Step(i));
      run := run + [Step(i)];
    }
    assert s.threads[i := s.threads[i].(drop := None, free := s.threads[i].free)] == s.threads;
  }

  lemma TidyUp(s: State, i: nat) returns (run: seq<Action>)
    requires i < |s.threads| == |s.lock.pcs| && s.threads[i].free.None? && Live(s, s.threads[i].drop)
    ensures Runs(s, run) && Tidied(s, Final(s, run), i)
  {
    if s.threads[i].drop.Some? {
      run := [];
      Then(s, run, Step(i));
      run := run + [Step(i)];
      var more := FreesCopy(Final(s, run), i);
      RunsOn(s, run, more);
      run := run + more;
    } else {
      run := FreesCopy(s, i);
    }
  }

  /** stm_copy, up to its unlock. */
  lemma TakesCopy(s: State, i: nat) returns (run: seq<Action>)
    requires i > 0 && Idle(s, i) && Live(s, s.installed)
    ensures Runs(s, run)
    ensures var t := Final(s, run);
            && t.threads == s.threads[i := s.threads[i].(job := Compare(s.installed))] && t.lock == s.lock
            && t.installed == s.installed && t.reference == s.reference && t.tickets == s.tickets && t.frees == s.frees
            && t.answers == s.answers && |t.copies| == |s.copies|
  {
    run := [];
    Then(s, run, CallRead(i));
    run := run + [CallRead(i)];
    var enter := EnterRead(Final(s, run), i);
    RunsOn(s, run, enter);
    run := run + enter;
    Then(s, run, Step(i));
    run := run + [Step(i)];
    assert Final(s, run).threads[i] == s.threads[i].(job := Take(s.installed));
    Then(s, run, Step(i));
    run := run + [Step(i)];
    assert Final(s, run).threads[i] == s.threads[i].(job := TakeEnd(s.installed));
    Then(s, run, Step(i));
    run := run + [Step(i)];
    assert Final(s, run).threads == s.threads[i := s.threads[i].(job := Compare(s.installed))];
    assert Final(s, run).lock.pcs == s.lock.pcs;
  }

  lemma Answers(s: State, i: nat) returns (run: seq<Action>)
    requires i < |s.threads| == |s.lock.pcs| && s.threads[i].job.Compare? && s.threads[i].drop.None? && s.threads[i].free.None?
    requires Live(s, s.threads[i].job.got) && Live(s, s.threads[i].last)
    ensures Runs(s, run)
    ensures var th, t := s.threads[i], Final(s, run);
            && t.threads == s.threads[i := Thread(Rest, th.job.got, None, None)] && t.lock == s.lock
            && t.installed == s.installed && t.reference == s.reference
            && t.answers == s.answers + [Answer(i, th.job.got, th.job.got.Some? && th.job.got != th.last)]
  {
    run := [];
    Then(s, run, Step(i));
    run := run + [Step(i)];
    var more := TidyUp(Final(s, run), i);
    RunsOn(s, run, more);
    run := run + more;
  }

  /**
   From every reachable state in which no writer has asked for the lock, a reader at rest that reads undisturbed gets
   the installed copy, keeps it, and is told whether it is another one than the last.
   */
  lemma ReadAlone(before: seq<Action>, i: nat) returns (run: seq<Action>)
    requires Runs(Init(), before) && i > 0 && Idle(Final(Init(), before), i)
    ensures var s := Final(Init(), before);
            && Runs(s, run)
            && var t := Final(s, run);
            && t.threads == s.threads[i := Thread(Rest, s.installed, None, None)] && t.lock == s.lock
            && t.installed == s.installed && t.reference == s.reference
            && t.answers == s.answers + [Answer(i, s.installed, s.installed.Some? && s.installed != s.threads[i].last)]
  {
    var s := Final(Init(), before);
    Reached(before);
    assert ThreadOk(s, i);
    run := TakesCopy(s, i);
    var more := Answers(Final(s, run), i);
    RunsOn(s, run, more);
    run := run + more;
  }

  /**
   From every reachable state with the lock unused, an undisturbed update installs its copy and gives up its
   reference to the old one.
   */
  lemma UpdateAlone(before: seq<Action>) returns (run: seq<Action>)
    requires Runs(Init(), before)
    requires var s := Final(Init(), before); Idle(s, 0) && s.lock.read == 0
    ensures var s := Final(Init(), before);
            && Runs(s, run)
            && var t := Final(s, run);
            && t.threads == s.threads && t.lock == s.lock && t.reference == s.reference && t.answers == s.answers
            && t.installed == Some(|s.copies|) && |t.copies| == |s.copies| + 1
  {
    var s := Final(Init(), before);
    Reached(before);
    assert ThreadOk(s, 0);
    run := Installs(s);
    var t := Final(s, run);
    var more := TidyUp(t, 0);
    RunsOn(s, run, more);
    run := run + more;
    assert Final(s, run).threads == s.threads;
  }

  /** stm_update, up to its unlock. */
  lemma Installs(s: State) returns (run: seq<Action>)
    requires Idle(s, 0) && s.lock.read == 0
    ensures Runs(s, run)
    ensures Final(s, run) == s.(threads := s.threads[0 := s.threads[0].(drop := s.installed)],
                                copies := s.copies + [Copy(1, 0)], installed := Some(|s.copies|))
  {
    run := [];
    Then(s, run, Update);
    run := run + [Update];
    var enter := EnterWrite(Final(s, run));
    RunsOn(s, run, enter);
    run := run + enter;
    Then(s, run, Step(0));
    run := run + [Step(0)];
    assert Final(s, run).threads[0] == s.threads[0].(job := Replace(|s.copies|, s.installed));
    Then(s, run, Step(0));
    run := run + [Step(0)];
    assert Final(s, run).threads[0] == s.threads[0].(job := InstallEnd(s.installed));
    Then(s, run, Step(0));
    run := run + [Step(0)];
    assert Final(s, run).threads == s.threads[0 := s.threads[0].(drop := s.installed)];
    assert Final(s, run).lock.pcs == s.lock.pcs;
  }
}
