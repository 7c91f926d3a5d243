/**
 The shared object of skynet/lualib-src/lua-stm.c: one writer box, any number of reader boxes, each
 driven by its own thread, over the lock of RwLock. Every access to shared memory is a step of its own.
 */
module Stm {
  import opened RwLock

  /** struct stm_copy: its count, and how often it has been freed. */
  datatype Copy = Copy(reference: int, frees: nat)

  /** A `struct stm_copy *`. */
  datatype CopyRef = None | Some(c: nat)

  /** What a box's thread is doing. Thread 0 drives the writer box, every other one a reader box. */
  datatype Job =
    | Rest
    | Grab | GrabEnd                               // stm_grab, for lcopy
    | Install(c: nat)                              // stm_update, wants obj->copy
    | Replace(c: nat, was: CopyRef)                 //   has read it into oldcopy
    | InstallEnd(was: CopyRef)                      //   has stored the new copy
    | Release                                      // stm_release, wants the lock
    | Clear                                        //   has called stm_releasecopy on obj->copy
    | Leaving                                      //   has cleared obj->copy
    | ReleaseEnd                                   //   has left the object to its readers
    | Look                                         // stm_copy, wants obj->copy
    | Take(got: CopyRef)                            //   has read it
    | TakeEnd(got: CopyRef)                         //   has counted itself in
    | Compare(got: CopyRef)                         // lread: the result of stm_copy
    | Leave | LeaveEnd | LeaveLast                 // stm_releasereader, and the last copy
    | Gone

  /** `drop` is the argument of a stm_releasecopy that has not yet counted down, `free` of one that must free. */
  datatype Thread = Thread(job: Job, last: CopyRef, drop: CopyRef, free: CopyRef)

  /** What an lread has answered: the copy it compared, and whether it called that new. */
  datatype Answer = Answer(reader: nat, got: CopyRef, changed: bool)

  /** `tickets` are the references handed out by lcopy that no reader box has taken up. */
  datatype State = State(lock: Lock, threads: seq<Thread>, installed: CopyRef, copies: seq<Copy>,
                         reference: int, tickets: nat, frees: nat, answers: seq<Answer>)

  function Put(s: State, i: nat, th: Thread): State
    requires i < |s.threads|
  {
    s.(threads := s.threads[i := th])
  }

  function Go(s: State, i: nat, job: Job): State
    requires i < |s.threads|
  {
    Put(s, i, s.threads[i].(job := job))
  }

  predicate Wants(job: Job) { WantsRead(job) || WantsWrite(job) }
  predicate WantsRead(job: Job) { job.Grab? || job.Look? || job.Leave? }
  predicate WantsWrite(job: Job) { job.Install? || job.Release? }
  predicate EndsLocked(job: Job) {
    job.GrabEnd? || job.InstallEnd? || job.ReleaseEnd? || job.TakeEnd? || job.LeaveEnd?
  }

  // ----- steps

  datatype Action =
    | Update | CallGrab | CallRelease        // by the writer
    | NewReader
    | CallRead(i: nat) | CallLeave(i: nat)   // by a reader
    | Step(i: nat)

  predicate AtRest(s: State, i: nat) {
    && i < |s.threads| && |s.lock.pcs| == |s.threads|
    && s.threads[i].job.Rest? && s.threads[i].drop.None? && s.threads[i].free.None?
  }

  predicate Live(s: State, c: CopyRef) { c.None? || c.c < |s.copies| }

  predicate StepEnabled(s: State, i: nat) {
    && i < |s.threads| && |s.lock.pcs| == |s.threads|
    && var th := s.threads[i];
       if th.free.Some? then Live(s, th.free)
       else if th.drop.Some? then Live(s, th.drop)
       else if th.job.Rest? || th.job.Gone? then false
       else if th.job.Compare? || th.job.LeaveLast? then true
       else if Wants(th.job) then !s.lock.pcs[i].Writing? || WantsWrite(th.job)
       else Live(s, Counting(th.job)) && (EndsLocked(th.job) ==> s.lock.pcs[i].Reading? || s.lock.pcs[i].Writing?)
  }

  function Counting(job: Job): CopyRef { if job.Take? then job.got else None }

  predicate Enabled(s: State, a: Action) {
    match a
    case Update => AtRest(s, 0)
    case CallGrab => AtRest(s, 0)
    case CallRelease => AtRest(s, 0)
    case NewReader => s.tickets > 0 && |s.lock.pcs| == |s.threads|
    case CallRead(i) => 0 < i && AtRest(s, i)
    case CallLeave(i) => 0 < i && AtRest(s, i)
    case Step(i) => StepEnabled(s, i)
  }

  function Apply(s: State, a: Action): State
    requires Enabled(s, a)
  {
    match a
    case Update => Go(s, 0, Install(|s.copies|)).(copies := s.copies + [Copy(1, 0)])
    case CallGrab => Go(s, 0, Grab)
    case CallRelease => Go(s, 0, Release)
    case NewReader =>
      s.(tickets := s.tickets - 1, lock := Join(s.lock), threads := s.threads + [Thread(Rest, None, None, None)])
    case CallRead(i) => Go(s, i, Look)
    case CallLeave(i) => Go(s, i, Leave)
    case Step(i) => StepOf(s, i)
  }

  function StepOf(s: State, i: nat): State
    requires StepEnabled(s, i)
  {
    var th := s.threads[i];
    if th.free.Some? then FreeCopy(s, i)
    else if th.drop.Some? then DropCopy(s, i)
    else if EndsLocked(th.job) then Finish(s.(lock := Unlock(s.lock, i)), i)
    else if Wants(th.job) && s.lock.pcs[i].Outside? then s.(lock := Call(s.lock, i, WantsWrite(th.job)))
    else if Wants(th.job) && Busy(s.lock.pcs[i]) then s.(lock := Spin(s.lock, i))
    else if Writes(th.job) then Write(s, i)
    else Read(s, i)
  }

  /** The end of stm_releasecopy when the count came to zero. */
  function FreeCopy(s: State, i: nat): State
    requires i < |s.threads| && s.threads[i].free.Some? && Live(s, s.threads[i].free)
  {
    var c := s.threads[i].free.c;
    Put(s, i, s.threads[i].(free := None)).(copies := s.copies[c := s.copies[c].(frees := s.copies[c].frees + 1)])
  }

  /** The atomic decrement of stm_releasecopy. */
  function DropCopy(s: State, i: nat): State
    requires i < |s.threads| && s.threads[i].drop.Some? && Live(s, s.threads[i].drop)
  {
    var c := s.threads[i].drop.c;
    var left := s.copies[c].reference - 1;
    Put(s, i, s.threads[i].(drop := None, free := if left == 0 then Some(c) else None))
      .(copies := s.copies[c := s.copies[c].(reference := left)])
  }

  /** After the unlock. */
  function Finish(s: State, i: nat): State
    requires i < |s.threads| && EndsLocked(s.threads[i].job)
  {
    var th := s.threads[i];
    match th.job
    case GrabEnd => Go(s, i, Rest)
    case InstallEnd(was) => Put(s, i, th.(job := Rest, drop := was))
    case ReleaseEnd => Go(s, i, Gone)
    case TakeEnd(got) => Go(s, i, Compare(got))
    case LeaveEnd => Go(s, i, LeaveLast)
  }

  predicate Writes(job: Job) {
    job.Grab? || job.Install? || job.Replace? || job.Release? || job.Clear? || job.Leaving?
  }

  predicate Reads(job: Job) { job.Look? || job.Take? || job.Compare? || job.Leave? || job.LeaveLast? }

  /** The writer box, inside the lock. */
  function Write(s: State, i: nat): State
    requires i < |s.threads| && Writes(s.threads[i].job)
  {
    var th := s.threads[i];
    match th.job
    case Grab => Go(s, i, GrabEnd).(reference := s.reference + 1, tickets := s.tickets + 1)
    case Install(c) => Go(s, i, Replace(c, s.installed))
    case Replace(c, was) => Go(s, i, InstallEnd(was)).(installed := Some(c))
    case Release => Put(s, i, th.(job := Clear, drop := s.installed))
    case Clear => Go(s, i, Leaving).(installed := None)
    case Leaving =>
      if s.reference - 1 > 0 then Go(s, i, ReleaseEnd).(reference := s.reference - 1)
      else Go(s, i, Gone).(reference := s.reference - 1, frees := s.frees + 1)
  }

  /** A reader box, inside the lock and in the thread-local ends of lread and ldeletereader. */
  function Read(s: State, i: nat): State
    requires i < |s.threads| && Reads(s.threads[i].job) && Live(s, Counting(s.threads[i].job))
  {
    var th := s.threads[i];
    match th.job
    case Look => Go(s, i, Take(s.installed))
    case Take(got) =>
      var t := Go(s, i, TakeEnd(got));
      if got.None? then t
      else t.(copies := s.copies[got.c := s.copies[got.c].(reference := s.copies[got.c].reference + 1)])
    case Compare(got) =>
      if got == th.last then Put(s, i, th.(job := Rest, drop := got)).(answers := s.answers + [Answer(i, got, false)])
      else
        Put(s, i, th.(job := Rest, drop := th.last, last := got)).(answers := s.answers + [Answer(i, got, got.Some?)])
    case Leave =>
      if s.reference == 1 then Go(s, i, LeaveLast).(reference := 0, frees := s.frees + 1)
      else Go(s, i, LeaveEnd).(reference := s.reference - 1)
    case LeaveLast => Put(s, i, th.(job := Gone, drop := th.last, last := None))
  }

  // ----- runs

  /** stm_new, in the hands of the writer. */
  function Init(): State {
    State(Lock(false, 0, [Outside]), [Thread(Rest, None, None, None)], Some(0), [Copy(1, 0)], 1, 0, 0, [])
  }

  predicate Runs(s: State, run: seq<Action>)
    decreases |run|
  {
    run == [] || (Enabled(s, run[0]) && Runs(Apply(s, run[0]), run[1..]))
  }

  function Final(s: State, run: seq<Action>): State
    requires Runs(s, run)
    decreases |run|
  {
    if run == [] then s else Final(Apply(s, run[0]), run[1..])
  }
}
