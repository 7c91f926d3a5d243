/**
 What every step on the shared object keeps: who counts for which copy, and who counts for the object.
 */
module StmInvariant {
  import opened RwLock
  import opened Stm

  // ----- counting

  datatype What = ClaimOn(c: nat) | FreeOf(c: nat) | Membership

  /** The reference a job in progress stands for: a new copy before it is installed, one taken out, one just counted. */
  function JobClaim(job: Job): CopyRef {
    match job
    case Install(c) => Some(c)
    case Replace(c, _) => Some(c)
    case InstallEnd(was) => was
    case TakeEnd(got) => got
    case Compare(got) => got
    case _ => None
  }

  function One(b: bool): nat { if b then 1 else 0 }

  /** A box counts for the object until its stm_release or stm_releasereader has counted down. */
  predicate Member(job: Job) { !job.ReleaseEnd? && !job.LeaveEnd? && !job.LeaveLast? && !job.Gone? }

  function Amount(th: Thread, w: What): nat {
    match w
    case ClaimOn(c) => One(JobClaim(th.job) == Some(c)) + One(th.last == Some(c)) + One(th.drop == Some(c))
    case FreeOf(c) => One(th.free == Some(c))
    case Membership => One(Member(th.job))
  }

  function Total(ts: seq<Thread>, w: What): nat {
    if ts == [] then 0 else Total(ts[..|ts| - 1], w) + Amount(ts[|ts| - 1], w)
  }

  lemma {:induction false} TotalUpdate(ts: seq<Thread>, i: nat, th: Thread, w: What)
    requires i < |ts|
    ensures Total(ts[i := th], w) == Total(ts, w) - Amount(ts[i], w) + Amount(th, w)
  {
    var n := |ts| - 1;
    if i == n {
      assert ts[i := th][..n] == ts[..n];
    } else {
      TotalUpdate(ts[..n], i, th, w);
      assert ts[i := th][..n] == ts[..n][i := th];
    }
  }

  lemma {:induction false} TotalAtLeast(ts: seq<Thread>, i: nat, w: What)
    requires i < |ts|
    ensures Total(ts, w) >= Amount(ts[i], w)
  {
    if i < |ts| - 1 { TotalAtLeast(ts[..|ts| - 1], i, w); }
  }

  lemma {:induction false} TotalZero(ts: seq<Thread>, w: What)
    requires forall th :: th in ts ==> Amount(th, w) == 0
    ensures Total(ts, w) == 0
  {
    if ts != [] {
      assert ts[|ts| - 1] in ts;
      TotalZero(ts[..|ts| - 1], w);
    }
  }

  lemma TotalJoin(ts: seq<Thread>, th: Thread, w: What)
    ensures Total(ts + [th], w) == Total(ts, w) + Amount(th, w)
  {
    assert (ts + [th])[..|ts|] == ts;
  }

  // ----- the invariant

  predicate WriterJob(job: Job) {
    job.Rest? || job.Grab? || job.GrabEnd? || job.Install? || job.Replace? || job.InstallEnd? ||
    job.Release? || job.Clear? || job.Leaving? || job.ReleaseEnd? || job.Gone?
  }

  predicate ReaderJob(job: Job) {
    job.Rest? || job.Look? || job.Take? || job.TakeEnd? || job.Compare? ||
    job.Leave? || job.LeaveEnd? || job.LeaveLast? || job.Gone?
  }

  /** A job holds the lock it needs where it needs it. */
  predicate Placed(job: Job, pc: Pc) {
    if job.Rest? || job.Compare? then pc.Outside?
    else if WantsRead(job) then !pc.Writing? && !pc.WriteSpin? && !pc.WriteDrain?
    else if WantsWrite(job) then pc.Outside? || pc.WriteSpin? || pc.WriteDrain? || pc.Writing?
    else if job.GrabEnd? || job.Take? || job.TakeEnd? || job.LeaveEnd? then pc.Reading?
    else if job.LeaveLast? then pc.Outside? || pc.Reading?
    else if job.Gone? then !Busy(pc)
    else pc.Writing?
  }

  /** Between reading obj->copy and using it the pointer stays what it was. */
  predicate Agrees(job: Job, installed: CopyRef) {
    && (job.Take? ==> job.got == installed)
    && (job.Replace? ==> job.was == installed)
  }

  predicate Known(th: Thread, n: nat) {
    && (JobClaim(th.job).Some? ==> JobClaim(th.job).c < n)
    && (th.last.Some? ==> th.last.c < n)
    && (th.drop.Some? ==> th.drop.c < n)
    && (th.free.Some? ==> th.free.c < n)
  }

  predicate ThreadOk(s: State, i: nat)
    requires i < |s.threads| == |s.lock.pcs|
  {
    var th := s.threads[i];
    && Placed(th.job, s.lock.pcs[i]) && Agrees(th.job, s.installed) && Known(th, |s.copies|)
    && (if i == 0 then WriterJob(th.job) && th.last.None? else ReaderJob(th.job))
  }

  ghost predicate ThreadsOk(s: State) {
    && LockInv(s.lock) && 0 < |s.threads| == |s.lock.pcs|
    && forall i :: 0 <= i < |s.threads| ==> ThreadOk(s, i)
  }

  /** obj->copy counts for its copy until stm_release has given that reference away. */
  predicate Holds(s: State, c: nat)
    requires |s.threads| > 0
  {
    s.installed == Some(c) && !s.threads[0].job.Clear?
  }

  /** The count of a copy is exact, and the thread that takes it to zero frees it, once. */
  predicate CopyOk(s: State, c: nat)
    requires |s.threads| > 0 && c < |s.copies|
  {
    && s.copies[c].reference == One(Holds(s, c)) + Total(s.threads, ClaimOn(c))
    && s.copies[c].frees + Total(s.threads, FreeOf(c)) == One(s.copies[c].reference == 0)
  }

  ghost predicate CopiesOk(s: State) {
    |s.threads| > 0 && forall c :: 0 <= c < |s.copies| ==> CopyOk(s, c)
  }

  predicate ObjectOk(s: State) {
    && |s.threads| > 0
    && s.reference == s.tickets + Total(s.threads, Membership)
    && s.frees == One(s.reference == 0)
    && (s.installed.Some? ==> s.installed.c < |s.copies|)
    && (s.installed.None? <==> s.threads[0].job.Leaving? || s.threads[0].job.ReleaseEnd? || s.threads[0].job.Gone?)
  }

  ghost predicate Inv(s: State) { ThreadsOk(s) && CopiesOk(s) && ObjectOk(s) }

  // ----- threads

  /** What a step does to the lock keeps the lock's own invariant. */
  lemma LockKept(s: State, a: Action)
    requires ThreadsOk(s) && Enabled(s, a)
    ensures LockInv(Apply(s, a).lock)
  {
    match a
    case NewReader => JoinKeeps(s.lock);
    case Step(i) =>
      var th := s.threads[i];
      assert ThreadOk(s, i);
      if th.free.None? && th.drop.None? {
        if EndsLocked(th.job) {
          UnlockKeeps(s.lock, i);
        } else if Wants(th.job) && s.lock.pcs[i].Outside? {
          CallKeeps(s.lock, i, WantsWrite(th.job));
        } else if Wants(th.job) && Busy(s.lock.pcs[i]) {
          SpinKeeps(s.lock, i);
        }
      }
    case _ =>
  }

  function Actor(s: State, a: Action): nat {
    match a
    case Step(i) => i
    case CallRead(i) => i
    case CallLeave(i) => i
    case NewReader => |s.threads|
    case _ => 0
  }

  /** A step leaves other threads and their places in the lock alone. */
  lemma OthersStay(s: State, a: Action, j: nat)
    requires ThreadsOk(s) && Enabled(s, a) && j < |s.threads| && j != Actor(s, a)
    ensures var t := Apply(s, a);
            && |t.threads| == |t.lock.pcs| >= |s.threads| && |t.copies| >= |s.copies|
            && t.threads[j] == s.threads[j] && t.lock.pcs[j] == s.lock.pcs[j]
  {
  }

  /** obj->copy changes only under the write lock, so that no reader is looking at it. */
  lemma InstalledStays(s: State, a: Action, j: nat)
    requires ThreadsOk(s) && Enabled(s, a) && j < |s.threads| && j != Actor(s, a)
    requires s.lock.pcs[j].Reading? || s.lock.pcs[j].Writing?
    ensures Apply(s, a).installed == s.installed
  {
    var t := Apply(s, a);
    if a.Step? {
      var th := s.threads[a.i];
      assert ThreadOk(s, a.i);
    }
  }

  lemma OtherOk(s: State, a: Action, j: nat)
    requires ThreadsOk(s) && Enabled(s, a) && j < |s.threads| && j != Actor(s, a)
    ensures j < |Apply(s, a).threads| == |Apply(s, a).lock.pcs| && ThreadOk(Apply(s, a), j)
  {
    OthersStay(s, a, j);
    assert ThreadOk(s, j);
    if s.threads[j].job.Take? || s.threads[j].job.Replace? {
      InstalledStays(s, a, j);
    }
  }

  /** What thread i does inside the lock, or alone at the end of lread or ldeletereader. */
  predicate Ready(s: State, i: nat) {
    && StepEnabled(s, i) && s.threads[i].free.None? && s.threads[i].drop.None?
    && !EndsLocked(s.threads[i].job)
    && (Wants(s.threads[i].job) ==> s.lock.pcs[i].Reading? || s.lock.pcs[i].Writing?)
  }

  lemma SelfWrite(s: State, i: nat)
    requires i < |s.threads| == |s.lock.pcs| && ObjectOk(s) && ThreadOk(s, i)
    requires Writes(s.threads[i].job) && (s.lock.pcs[i].Reading? || s.lock.pcs[i].Writing?)
    ensures var t := Write(s, i);
            |t.threads| == |t.lock.pcs| && ThreadOk(t, i)
  {
    match s.threads[i].job
    case Grab =>
    case Install(c) =>
    case Replace(c, was) =>
    case Release =>
    case Clear =>
    case Leaving =>
  }

  lemma SelfRead(s: State, i: nat)
    requires i < |s.threads| == |s.lock.pcs| && ObjectOk(s) && ThreadOk(s, i)
    requires Reads(s.threads[i].job) && Live(s, Counting(s.threads[i].job))
    requires Wants(s.threads[i].job) ==> s.lock.pcs[i].Reading? || s.lock.pcs[i].Writing?
    ensures var t := Read(s, i);
            |t.threads| == |t.lock.pcs| && ThreadOk(t, i)
  {
    match s.threads[i].job
    case Look =>
    case Take(got) =>
    case Compare(got) =>
    case Leave =>
    case LeaveLast =>
  }

  lemma SelfOutside(s: State, i: nat)
    requires StepEnabled(s, i) && ThreadOk(s, i) && !Ready(s, i)
    ensures var t := StepOf(s, i);
            |t.threads| == |t.lock.pcs| == |s.threads| && ThreadOk(t, i)
  {
    var th := s.threads[i];
    if th.free.Some? {
    } else if th.drop.Some? {
    } else if EndsLocked(th.job) {
    } else {
    }
  }

  lemma SelfOk(s: State, a: Action)
    requires ThreadsOk(s) && ObjectOk(s) && Enabled(s, a)
    ensures var t := Apply(s, a);
            Actor(s, a) < |t.threads| == |t.lock.pcs| && ThreadOk(t, Actor(s, a))
  {
    var i := Actor(s, a);
    if i < |s.threads| { assert ThreadOk(s, i); }
    if a.Step? {
      if !Ready(s, i) {
        SelfOutside(s, i);
      } else if Writes(s.threads[i].job) {
        SelfWrite(s, i);
      } else {
        SelfRead(s, i);
      }
    }
  }

  lemma ThreadsKept(s: State, a: Action)
    requires ThreadsOk(s) && ObjectOk(s) && Enabled(s, a)
    ensures ThreadsOk(Apply(s, a))
  {
    var t := Apply(s, a);
    LockKept(s, a);
    SelfOk(s, a);
    forall j | 0 <= j < |t.threads| ensures ThreadOk(t, j) {
      if j != Actor(s, a) { OtherOk(s, a, j); }
    }
  }

  // ----- the object

  lemma ObjectWrite(s: State, i: nat)
    requires i == 0 && i < |s.threads| == |s.lock.pcs| && ObjectOk(s) && ThreadOk(s, i) && Writes(s.threads[i].job)
    ensures ObjectOk(Write(s, i))
  {
    TotalUpdate(s.threads, i, Write(s, i).threads[i], Membership);
    TotalAtLeast(s.threads, i, Membership);
    match s.threads[i].job
    case Grab =>
    case Install(c) =>
    case Replace(c, was) =>
    case Release =>
    case Clear =>
    case Leaving =>
  }

  lemma ObjectRead(s: State, i: nat)
    requires 0 < i < |s.threads| && ObjectOk(s)
    requires Reads(s.threads[i].job) && Live(s, Counting(s.threads[i].job))
    ensures ObjectOk(Read(s, i))
  {
    TotalUpdate(s.threads, i, Read(s, i).threads[i], Membership);
    TotalAtLeast(s.threads, i, Membership);
    match s.threads[i].job
    case Look =>
    case Take(got) =>
    case Compare(got) =>
    case Leave =>
    case LeaveLast =>
  }

  lemma ObjectOutside(s: State, i: nat)
    requires StepEnabled(s, i) && ObjectOk(s) && ThreadOk(s, i) && !Ready(s, i)
    ensures ObjectOk(StepOf(s, i))
  {
    var t, th := StepOf(s, i), s.threads[i];
    assert s.threads[i := th] == s.threads;
    TotalUpdate(s.threads, i, t.threads[i], Membership);
    if th.free.Some? {
    } else if th.drop.Some? {
    } else if EndsLocked(th.job) {
    } else {
      assert t.threads == s.threads;
    }
  }

  lemma ObjectKept(s: State, a: Action)
    requires ThreadsOk(s) && ObjectOk(s) && Enabled(s, a)
    ensures ObjectOk(Apply(s, a))
  {
    var i := Actor(s, a);
    if a.NewReader? {
      TotalJoin(s.threads, Thread(Rest, None, None, None), Membership);
    } else if a.Step? {
      assert ThreadOk(s, i);
      if !Ready(s, i) {
        ObjectOutside(s, i);
      } else if Writes(s.threads[i].job) {
        ObjectWrite(s, i);
      } else {
        ObjectRead(s, i);
      }
    } else {
      TotalUpdate(s.threads, i, Apply(s, a).threads[i], Membership);
    }
  }

  // ----- the copies

  lemma CopyWriter(s: State, i: nat, c: nat)
    requires i == 0 && i < |s.threads| && Writes(s.threads[i].job) && s.threads[i].drop.None?
    requires c < |s.copies| && CopyOk(s, c) && Agrees(s.threads[i].job, s.installed)
    ensures CopyOk(Write(s, i), c)
  {
    var t := Write(s, i);
    Totals(s, i, t.threads[i], c);
    match s.threads[i].job
    case Grab =>
    case Install(made) =>
    case Replace(made, was) =>
    case Release =>
    case Clear =>
    case Leaving =>
  }

  lemma Totals(s: State, i: nat, th: Thread, c: nat)
    requires i < |s.threads|
    ensures var ts := s.threads[i := th];
            && Total(ts, ClaimOn(c)) == Total(s.threads, ClaimOn(c)) - Amount(s.threads[i], ClaimOn(c)) + Amount(th, ClaimOn(c))
            && Total(ts, FreeOf(c)) == Total(s.threads, FreeOf(c)) - Amount(s.threads[i], FreeOf(c)) + Amount(th, FreeOf(c))
    ensures Total(s.threads, ClaimOn(c)) >= Amount(s.threads[i], ClaimOn(c))
    ensures Total(s.threads, FreeOf(c)) >= Amount(s.threads[i], FreeOf(c))
  {
    TotalUpdate(s.threads, i, th, ClaimOn(c));
    TotalUpdate(s.threads, i, th, FreeOf(c));
    TotalAtLeast(s.threads, i, ClaimOn(c));
    TotalAtLeast(s.threads, i, FreeOf(c));
  }

  /** A reader counts itself in only on a copy that obj->copy still counts for. */
  lemma CopyTake(s: State, i: nat, c: nat)
    requires Ready(s, i) && i > 0 && s.threads[i].job.Take? && c < |s.copies| && CopyOk(s, c) && ThreadOk(s, i)
    requires Placed(s.threads[0].job, s.lock.pcs[0]) && Exclusive(s.lock.pcs)
    ensures CopyOk(Read(s, i), c)
  {
    Totals(s, i, Read(s, i).threads[i], c);
    assert !s.lock.pcs[0].Writing?;
  }

  /** lread and ldeletereader pass their references on to stm_releasecopy. */
  lemma CopyPassed(s: State, i: nat, c: nat)
    requires 0 < i < |s.threads| && (s.threads[i].job.Compare? || s.threads[i].job.LeaveLast?)
    requires s.threads[i].drop.None? && c < |s.copies| && CopyOk(s, c)
    ensures CopyOk(Read(s, i), c)
  {
    Totals(s, i, Read(s, i).threads[i], c);
  }

  lemma CopyUntouched(s: State, i: nat, c: nat)
    requires 0 < i < |s.threads| && (s.threads[i].job.Look? || s.threads[i].job.Leave?)
    requires c < |s.copies| && CopyOk(s, c)
    ensures CopyOk(Read(s, i), c)
  {
    Totals(s, i, Read(s, i).threads[i], c);
  }

  lemma CopyFree(s: State, i: nat, c: nat)
    requires StepEnabled(s, i) && s.threads[i].free.Some? && c < |s.copies| && CopyOk(s, c) && ThreadOk(s, i)
    ensures CopyOk(FreeCopy(s, i), c)
  {
    Totals(s, i, FreeCopy(s, i).threads[i], c);
  }

  lemma CopyDrop(s: State, i: nat, c: nat)
    requires StepEnabled(s, i) && s.threads[i].drop.Some? && s.threads[i].free.None?
    requires c < |s.copies| && CopyOk(s, c) && ThreadOk(s, i)
    ensures CopyOk(DropCopy(s, i), c)
  {
    Totals(s, i, DropCopy(s, i).threads[i], c);
  }

  lemma CopyFinish(s: State, i: nat, c: nat)
    requires i < |s.threads| && EndsLocked(s.threads[i].job) && s.threads[i].drop.None?
    requires c < |s.copies| && CopyOk(s, c)
    ensures CopyOk(Finish(s, i), c)
  {
    Totals(s, i, Finish(s, i).threads[i], c);
    match s.threads[i].job
    case GrabEnd =>
    case InstallEnd(was) =>
    case ReleaseEnd =>
    case TakeEnd(got) =>
    case LeaveEnd =>
  }

  lemma CopyInside(s: State, i: nat, c: nat)
    requires Ready(s, i) && c < |s.copies| && CopyOk(s, c) && ThreadOk(s, i)
    requires Placed(s.threads[0].job, s.lock.pcs[0]) && Exclusive(s.lock.pcs)
    ensures |StepOf(s, i).copies| == |s.copies| && |StepOf(s, i).threads| > 0 && CopyOk(StepOf(s, i), c)
  {
    var job := s.threads[i].job;
    if Writes(job) {
      CopyWriter(s, i, c);
    } else if job.Take? {
      CopyTake(s, i, c);
    } else if job.Compare? || job.LeaveLast? {
      CopyPassed(s, i, c);
    } else {
      CopyUntouched(s, i, c);
    }
  }

  lemma CopyStep(s: State, i: nat, c: nat)
    requires StepEnabled(s, i) && !Ready(s, i) && c < |s.copies| && CopyOk(s, c) && ThreadOk(s, i)
    ensures |StepOf(s, i).copies| == |s.copies| && |StepOf(s, i).threads| > 0 && CopyOk(StepOf(s, i), c)
  {
    var th := s.threads[i];
    if th.free.Some? {
      CopyFree(s, i, c);
    } else if th.drop.Some? {
      CopyDrop(s, i, c);
    } else if EndsLocked(th.job) {
      CopyFinish(s.(lock := Unlock(s.lock, i)), i, c);
    }
  }

  lemma CopyCall(s: State, a: Action, c: nat)
    requires ThreadsOk(s) && Enabled(s, a) && !a.Step? && c < |s.copies| && CopyOk(s, c)
    ensures c < |Apply(s, a).copies| && |Apply(s, a).threads| > 0 && CopyOk(Apply(s, a), c)
  {
    if a.NewReader? {
      TotalJoin(s.threads, Thread(Rest, None, None, None), ClaimOn(c));
      TotalJoin(s.threads, Thread(Rest, None, None, None), FreeOf(c));
    } else {
      Totals(s, Actor(s, a), Apply(s, a).threads[Actor(s, a)], c);
    }
  }

  lemma CopyKept(s: State, a: Action, c: nat)
    requires Inv(s) && Enabled(s, a) && c < |s.copies|
    ensures c < |Apply(s, a).copies| && |Apply(s, a).threads| > 0 && CopyOk(Apply(s, a), c)
  {
    assert CopyOk(s, c) && ThreadOk(s, 0);
    if a.Step? {
      assert ThreadOk(s, a.i);
      if Ready(s, a.i) {
        CopyInside(s, a.i, c);
      } else {
        CopyStep(s, a.i, c);
      }
    } else {
      CopyCall(s, a, c);
    }
  }

  /** A copy just made is held by its maker alone. */
  lemma NewCopy(s: State)
    requires Inv(s) && Enabled(s, Update)
    ensures CopyOk(Apply(s, Update), |s.copies|)
  {
    var t, c := Apply(s, Update), |s.copies|;
    forall th | th in s.threads ensures Amount(th, ClaimOn(c)) == 0 && Amount(th, FreeOf(c)) == 0 {
      var i :| 0 <= i < |s.threads| && s.threads[i] == th;
      assert ThreadOk(s, i);
    }
    TotalZero(s.threads, ClaimOn(c));
    TotalZero(s.threads, FreeOf(c));
    TotalUpdate(s.threads, 0, t.threads[0], ClaimOn(c));
    TotalUpdate(s.threads, 0, t.threads[0], FreeOf(c));
  }

  lemma StepKeeps(s: State, a: Action)
    requires Inv(s) && Enabled(s, a)
    ensures Inv(Apply(s, a))
  {
    var t := Apply(s, a);
    ThreadsKept(s, a);
    ObjectKept(s, a);
    forall c | 0 <= c < |t.copies| ensures CopyOk(t, c) {
      if c < |s.copies| {
        CopyKept(s, a, c);
      } else {
        NewCopy(s);
      }
    }
  }
}
