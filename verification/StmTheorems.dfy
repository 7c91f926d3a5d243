/**
 What holds in every run on the shared object.
 */
module StmTheorems {
  import opened RwLock
  import opened Stm
  import opened StmInvariant

  lemma {:induction false} RunKeeps(s: State, run: seq<Action>)
    requires Inv(s) && Runs(s, run)
    ensures Inv(Final(s, run))
    decreases |run|
  {
    if run != [] {
      StepKeeps(s, run[0]);
      RunKeeps(Apply(s, run[0]), run[1..]);
    }
  }

  lemma {:induction false} RunsOn(s: State, run: seq<Action>, more: seq<Action>)
    requires Runs(s, run) && Runs(Final(s, run), more)
    ensures Runs(s, run + more) && Final(s, run + more) == Final(Final(s, run), more)
    decreases |run|
  {
    if run == [] {
      assert run + more == more;
    } else {
      var a, rest := run[0], run[1..];
      RunsOn(Apply(s, a), rest, more);
      assert (run + more)[0] == a && (run + more)[1..] == rest + more;
    }
  }

  lemma Then(s: State, run: seq<Action>, a: Action)
    requires Runs(s, run) && Enabled(Final(s, run), a)
    ensures Runs(s, run + [a]) && Final(s, run + [a]) == Apply(Final(s, run), a)
  {
    assert [a][1..] == [];
    assert Runs(Apply(Final(s, run), a), []);
    RunsOn(s, run, [a]);
  }

  lemma Reached(run: seq<Action>)
    requires Runs(Init(), run)
    ensures Inv(Final(Init(), run))
  {
    var s := Init();
    assert s.threads[..0] == [];
    forall w: What ensures Total(s.threads, w) == Amount(s.threads[0], w) {
      assert Total(s.threads, w) == Total(s.threads[..0], w) + Amount(s.threads[0], w);
    }
    assert Readers(s.lock.pcs) == Readers(s.lock.pcs[..0]) == 0;
    RunKeeps(s, run);
  }

  predicate Refers(th: Thread, c: nat) { JobClaim(th.job) == Some(c) || th.last == Some(c) || th.drop == Some(c) }

  ghost predicate Dead(s: State, c: nat)
    requires c < |s.copies|
  {
    s.copies[c].frees == 1 || exists i :: 0 <= i < |s.threads| && s.threads[i].free == Some(c)
  }

  lemma DeadIsUnreferenced(s: State, c: nat)
    requires |s.threads| > 0 && c < |s.copies| && CopyOk(s, c) && Dead(s, c)
    ensures !Holds(s, c) && forall i :: 0 <= i < |s.threads| ==> !Refers(s.threads[i], c)
  {
    if s.copies[c].frees != 1 {
      var i :| 0 <= i < |s.threads| && s.threads[i].free == Some(c);
      TotalAtLeast(s.threads, i, FreeOf(c));
    }
    assert s.copies[c].reference == 0;
    forall i | 0 <= i < |s.threads| ensures !Refers(s.threads[i], c) {
      TotalAtLeast(s.threads, i, ClaimOn(c));
    }
  }

  /**
   A copy is freed at most once. Once it is, or is about to be, no box refers to it, and it is not
   installed, unless the writer is in stm_release, alone inside the lock, about to clear obj->copy.
   */
  lemma CopyFreedOnce(run: seq<Action>, c: nat)
    requires Runs(Init(), run) && c < |Final(Init(), run).copies|
    ensures var s := Final(Init(), run);
            && 0 < |s.threads| == |s.lock.pcs| && s.copies[c].frees <= 1
            && (Dead(s, c) ==>
                  && (forall i :: 0 <= i < |s.threads| ==> !Refers(s.threads[i], c))
                  && (s.installed == Some(c) ==> s.threads[0].job.Clear? && s.lock.pcs[0].Writing?))
  {
    Reached(run);
    var s := Final(Init(), run);
    assert CopyOk(s, c) && ThreadOk(s, 0);
    if Dead(s, c) { DeadIsUnreferenced(s, c); }
  }

  predicate Quiet(th: Thread) { (th.job.Rest? || th.job.Gone?) && th.drop.None? && th.free.None? }

  lemma QuietCounts(s: State, c: nat)
    requires |s.threads| > 0 && c < |s.copies| && CopyOk(s, c)
    requires forall th :: th in s.threads ==> Quiet(th)
    ensures s.copies[c].frees == One(s.copies[c].reference == 0)
    ensures Holds(s, c) <==> s.installed == Some(c)
  {
    forall th | th in s.threads ensures Amount(th, FreeOf(c)) == 0 {}
    TotalZero(s.threads, FreeOf(c));
    assert s.threads[0] in s.threads;
  }

  lemma QuietClaims(ts: seq<Thread>, c: nat)
    requires forall th :: th in ts ==> Quiet(th)
    ensures Total(ts, ClaimOn(c)) == 0 <==> forall th :: th in ts ==> th.last != Some(c)
  {
    if forall th :: th in ts ==> th.last != Some(c) {
      forall th | th in ts ensures Amount(th, ClaimOn(c)) == 0 {}
      TotalZero(ts, ClaimOn(c));
    } else {
      var i :| 0 <= i < |ts| && ts[i].last == Some(c);
      TotalAtLeast(ts, i, ClaimOn(c));
    }
  }

  /** Between calls exactly the copies that are neither installed nor a reader's last copy have been freed. */
  lemma NothingLeaks(run: seq<Action>, c: nat)
    requires Runs(Init(), run) && c < |Final(Init(), run).copies|
    requires forall th :: th in Final(Init(), run).threads ==> Quiet(th)
    ensures var s := Final(Init(), run);
            s.copies[c].frees == 1 <==> s.installed != Some(c) && forall th :: th in s.threads ==> th.last != Some(c)
  {
    Reached(run);
    var s := Final(Init(), run);
    assert CopyOk(s, c);
    QuietCounts(s, c);
    QuietClaims(s.threads, c);
  }

  /** A reader's last copy is alive, so that comparing its address with a new copy's tells them apart. */
  lemma LastCopyLives(run: seq<Action>, i: nat)
    requires Runs(Init(), run) && i < |Final(Init(), run).threads|
    requires Final(Init(), run).threads[i].last.Some?
    ensures var s := Final(Init(), run);
            var c := s.threads[i].last.c;
            c < |s.copies| && s.copies[c].reference > 0 && s.copies[c].frees == 0
  {
    Reached(run);
    var s := Final(Init(), run);
    assert ThreadOk(s, i);
    var c := s.threads[i].last.c;
    assert CopyOk(s, c);
    TotalAtLeast(s.threads, i, ClaimOn(c));
  }

  /** stm_copy counts itself in on the copy that is installed, which it finds alive: the assertion on line 99. */
  lemma TakesTheInstalledCopy(run: seq<Action>, i: nat)
    requires Runs(Init(), run) && i < |Final(Init(), run).threads| && Final(Init(), run).threads[i].job.Take?
    ensures var s := Final(Init(), run);
            var got := s.threads[i].job.got;
            && got == s.installed && i < |s.lock.pcs| && s.lock.pcs[i].Reading?
            && (got.Some? ==> got.c < |s.copies| && s.copies[got.c].reference > 0 && s.copies[got.c].frees == 0)
  {
    Reached(run);
    var s := Final(Init(), run);
    assert ThreadOk(s, i) && ThreadOk(s, 0);
    assert !s.lock.pcs[0].Writing?;
    if s.installed.Some? { assert CopyOk(s, s.installed.c); }
  }

  /** The object is freed once, exactly when the writer, every reader and every ticket have given up their reference. */
  lemma ObjectFreedOnce(run: seq<Action>)
    requires Runs(Init(), run)
    ensures var s := Final(Init(), run);
            && s.frees <= 1
            && (s.frees == 1 <==> s.tickets == 0 && forall i :: 0 <= i < |s.threads| ==> !Member(s.threads[i].job))
  {
    Reached(run);
    var s := Final(Init(), run);
    if forall i :: 0 <= i < |s.threads| ==> !Member(s.threads[i].job) {
      forall th | th in s.threads ensures Amount(th, Membership) == 0 {
        var i :| 0 <= i < |s.threads| && s.threads[i] == th;
      }
      TotalZero(s.threads, Membership);
    } else {
      var i :| 0 <= i < |s.threads| && Member(s.threads[i].job);
      TotalAtLeast(s.threads, i, Membership);
    }
  }

  /** The assertions of lines 59, 78 and 90. */
  lemma AssertionsHold(run: seq<Action>, i: nat)
    requires Runs(Init(), run) && i < |Final(Init(), run).threads|
    ensures var s := Final(Init(), run);
            var job := s.threads[i].job;
            && (job.Release? || (i == 0 && job.Rest?) ==> s.installed.Some?)
            && (job.Leave? && s.reference == 1 ==> s.installed.None?)
            && (job.Grab? ==> s.reference > 0)
  {
    Reached(run);
    var s := Final(Init(), run);
    assert ThreadOk(s, i) && ThreadOk(s, 0);
    TotalAtLeast(s.threads, i, Membership);
    if s.threads[i].job.Leave? && s.reference == 1 && Member(s.threads[0].job) {
      TotalUpdate(s.threads, i, Thread(Gone, None, None, None), Membership);
      TotalAtLeast(s.threads[i := Thread(Gone, None, None, None)], 0, Membership);
    }
  }

  /** The writer never works on obj->copy while any other box is inside the lock. */
  lemma WriterAlone(run: seq<Action>, i: nat)
    requires Runs(Init(), run) && i < |Final(Init(), run).threads|
    requires var job := Final(Init(), run).threads[i].job;
             job.Replace? || job.InstallEnd? || job.Clear? || job.Leaving?
    ensures var s := Final(Init(), run);
            forall j :: 0 <= j < |s.lock.pcs| && j != i ==> !s.lock.pcs[j].Reading? && !s.lock.pcs[j].Writing?
  {
    Reached(run);
    assert ThreadOk(Final(Init(), run), i);
  }

  /** A box in the middle of a call always has a next step. */
  lemma NobodyIsStuck(run: seq<Action>, i: nat)
    requires Runs(Init(), run) && i < |Final(Init(), run).threads| && !Quiet(Final(Init(), run).threads[i])
    ensures Enabled(Final(Init(), run), Step(i))
  {
    Reached(run);
    var s := Final(Init(), run);
    assert ThreadOk(s, i);
  }
}
