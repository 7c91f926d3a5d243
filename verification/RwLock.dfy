/**
 The reader/writer spin lock of skynet/skynet-src/rwlock.h (the __sync version), for any number of
 threads that step one atomic instruction at a time, sequentially consistent.
 */
module RwLock {

  /** Where a thread is: the two spin loops, the drain loop of the writer, and the two critical sections. */
  datatype Pc =
    | Outside
    | ReadSpin    // while (write)
    | ReadAdd     // add 1 to read
    | ReadCheck   // if (write)
    | ReadUndo    // subtract 1 from read
    | Reading
    | WriteSpin   // test-and-set of write
    | WriteDrain  // while (read)
    | Writing

  datatype Lock = Lock(write: bool, read: int, pcs: seq<Pc>)

  /** Between the two calls of a lock operation: the thread's next step is its own. */
  predicate Busy(pc: Pc) { !pc.Outside? && !pc.Reading? && !pc.Writing? }

  /** A thread that `read` counts. */
  predicate Counted(pc: Pc) { pc.ReadCheck? || pc.ReadUndo? || pc.Reading? }

  /** A thread that has set `write`. */
  predicate Owns(pc: Pc) { pc.WriteDrain? || pc.Writing? }

  /** rwlock_rlock or rwlock_wlock is entered. */
  function Call(l: Lock, i: nat, writing: bool): Lock
    requires i < |l.pcs|
  {
    l.(pcs := l.pcs[i := if writing then WriteSpin else ReadSpin])
  }

  /** One atomic instruction inside rwlock_rlock or rwlock_wlock. */
  function Spin(l: Lock, i: nat): Lock
    requires i < |l.pcs| && Busy(l.pcs[i])
  {
    match l.pcs[i]
    case ReadSpin => if l.write then l else l.(pcs := l.pcs[i := ReadAdd])
    case ReadAdd => l.(read := l.read + 1, pcs := l.pcs[i := ReadCheck])
    case ReadCheck => l.(pcs := l.pcs[i := if l.write then ReadUndo else Reading])
    case ReadUndo => l.(read := l.read - 1, pcs := l.pcs[i := ReadSpin])
    case WriteSpin => if l.write then l else l.(write := true, pcs := l.pcs[i := WriteDrain])
    case WriteDrain => if l.read != 0 then l else l.(pcs := l.pcs[i := Writing])
  }

  /** rwlock_runlock or rwlock_wunlock. */
  function Unlock(l: Lock, i: nat): Lock
    requires i < |l.pcs| && (l.pcs[i].Reading? || l.pcs[i].Writing?)
  {
    if l.pcs[i].Reading? then l.(read := l.read - 1, pcs := l.pcs[i := Outside])
    else l.(write := false, pcs := l.pcs[i := Outside])
  }

  function Join(l: Lock): Lock { l.(pcs := l.pcs + [Outside]) }

  // ----- the invariant

  function Readers(pcs: seq<Pc>): nat {
    if pcs == [] then 0 else Readers(pcs[..|pcs| - 1]) + if Counted(pcs[|pcs| - 1]) then 1 else 0
  }

  ghost predicate OneOwner(l: Lock) {
    && (forall i, j :: 0 <= i < |l.pcs| && 0 <= j < |l.pcs| && Owns(l.pcs[i]) && Owns(l.pcs[j]) ==> i == j)
    && (l.write <==> exists i :: 0 <= i < |l.pcs| && Owns(l.pcs[i]))
  }

  /** A writer is never inside with a reader or another writer. */
  ghost predicate Exclusive(pcs: seq<Pc>) {
    forall i, j :: 0 <= i < |pcs| && 0 <= j < |pcs| && pcs[i].Writing? && (pcs[j].Writing? || pcs[j].Reading?) ==> i == j
  }

  ghost predicate LockInv(l: Lock) {
    l.read == Readers(l.pcs) && OneOwner(l) && Exclusive(l.pcs)
  }

  lemma {:induction false} ReadersUpdate(pcs: seq<Pc>, i: nat, pc: Pc)
    requires i < |pcs|
    ensures Readers(pcs[i := pc]) ==
            Readers(pcs) - (if Counted(pcs[i]) then 1 else 0) + (if Counted(pc) then 1 else 0)
  {
    var n := |pcs| - 1;
    if i == n {
      assert pcs[i := pc][..n] == pcs[..n];
    } else {
      ReadersUpdate(pcs[..n], i, pc);
      assert pcs[i := pc][..n] == pcs[..n][i := pc];
    }
  }

  lemma {:induction false} NoReaders(pcs: seq<Pc>, i: nat)
    requires Readers(pcs) == 0 && i < |pcs|
    ensures !Counted(pcs[i])
  {
    if i < |pcs| - 1 { NoReaders(pcs[..|pcs| - 1], i); }
  }

  lemma CallKeeps(l: Lock, i: nat, writing: bool)
    requires LockInv(l) && i < |l.pcs| && l.pcs[i].Outside?
    ensures LockInv(Call(l, i, writing))
  {
    var t := Call(l, i, writing);
    ReadersUpdate(l.pcs, i, t.pcs[i]);
    OwnerStays(l, t, i);
  }

  /** `write` and its owner do not change when thread i neither takes nor gives it. */
  lemma OwnerStays(l: Lock, t: Lock, i: nat)
    requires OneOwner(l) && i < |l.pcs| && t.write == l.write
    requires t.pcs == l.pcs[i := if i < |t.pcs| then t.pcs[i] else l.pcs[i]]
    requires Owns(t.pcs[i]) == Owns(l.pcs[i])
    ensures OneOwner(t)
  {
    if l.write {
      var o :| 0 <= o < |l.pcs| && Owns(l.pcs[o]);
      assert Owns(t.pcs[o]);
    }
  }

  lemma UnlockKeeps(l: Lock, i: nat)
    requires LockInv(l) && i < |l.pcs| && (l.pcs[i].Reading? || l.pcs[i].Writing?)
    ensures LockInv(Unlock(l, i))
  {
    var t := Unlock(l, i);
    ReadersUpdate(l.pcs, i, Outside);
    if l.pcs[i].Reading? { OwnerStays(l, t, i); }
  }

  lemma SpinOwner(l: Lock, i: nat)
    requires OneOwner(l) && i < |l.pcs| && Busy(l.pcs[i])
    ensures OneOwner(Spin(l, i))
  {
    var t := Spin(l, i);
    if l.pcs[i].WriteSpin? && !l.write {
      assert Owns(t.pcs[i]);
    } else {
      OwnerStays(l, t, i);
    }
  }

  /** Entering a section: the reader has seen no owner, the writer has seen no reader. */
  lemma SpinExcludes(l: Lock, i: nat)
    requires LockInv(l) && i < |l.pcs| && Busy(l.pcs[i])
    ensures Exclusive(Spin(l, i).pcs)
  {
    if l.pcs[i].WriteDrain? && l.read == 0 {
      forall j | 0 <= j < |l.pcs| ensures !l.pcs[j].Reading? {
        NoReaders(l.pcs, j);
      }
    }
    if l.pcs[i].ReadCheck? && !l.write {
      assert forall j :: 0 <= j < |l.pcs| ==> !Owns(l.pcs[j]);
    }
  }

  lemma SpinKeeps(l: Lock, i: nat)
    requires LockInv(l) && i < |l.pcs| && Busy(l.pcs[i])
    ensures LockInv(Spin(l, i))
  {
    SpinOwner(l, i);
    SpinExcludes(l, i);
    ReadersUpdate(l.pcs, i, Spin(l, i).pcs[i]);
    assert l.pcs[i := l.pcs[i]] == l.pcs;
  }

  lemma JoinKeeps(l: Lock)
    requires LockInv(l)
    ensures LockInv(Join(l))
  {
    var t := Join(l);
    assert t.pcs[..|l.pcs|] == l.pcs;
    if l.write {
      var o :| 0 <= o < |l.pcs| && Owns(l.pcs[o]);
      assert Owns(t.pcs[o]);
    }
  }

  // ----- runs of the lock alone

  datatype LockAction = Enter(i: nat, writing: bool) | Instruction(i: nat) | Exit(i: nat) | Arrive

  predicate LockEnabled(l: Lock, a: LockAction) {
    match a
    case Enter(i, _) => i < |l.pcs| && l.pcs[i].Outside?
    case Instruction(i) => i < |l.pcs| && Busy(l.pcs[i])
    case Exit(i) => i < |l.pcs| && (l.pcs[i].Reading? || l.pcs[i].Writing?)
    case Arrive => true
  }

  function LockApply(l: Lock, a: LockAction): Lock
    requires LockEnabled(l, a)
  {
    match a
    case Enter(i, writing) => Call(l, i, writing)
    case Instruction(i) => Spin(l, i)
    case Exit(i) => Unlock(l, i)
    case Arrive => Join(l)
  }

  predicate LockRuns(l: Lock, run: seq<LockAction>)
    decreases |run|
  {
    run == [] || (LockEnabled(l, run[0]) && LockRuns(LockApply(l, run[0]), run[1..]))
  }

  function LockFinal(l: Lock, run: seq<LockAction>): Lock
    requires LockRuns(l, run)
    decreases |run|
  {
    if run == [] then l else LockFinal(LockApply(l, run[0]), run[1..])
  }

  lemma {:induction false} LockRunKeeps(l: Lock, run: seq<LockAction>)
    requires LockInv(l) && LockRuns(l, run)
    ensures LockInv(LockFinal(l, run))
    decreases |run|
  {
    if run != [] {
      match run[0] {
        case Enter(i, writing) => CallKeeps(l, i, writing);
        case Instruction(i) => SpinKeeps(l, i);
        case Exit(i) => UnlockKeeps(l, i);
        case Arrive => JoinKeeps(l);
      }
      LockRunKeeps(LockApply(l, run[0]), run[1..]);
    }
  }

  /** In every run a writer is alone inside, and `read` is exactly the number of threads past its increment. */
  lemma MutualExclusion(run: seq<LockAction>)
    requires LockRuns(Lock(false, 0, []), run)
    ensures var l := LockFinal(Lock(false, 0, []), run);
            Exclusive(l.pcs) && l.read == Readers(l.pcs)
  {
    LockRunKeeps(Lock(false, 0, []), run);
  }

  /** A thread that takes the steps its program asks for, alone, from here on. */
  function Alone(l: Lock, i: nat, n: nat): (t: Lock)
    requires i < |l.pcs|
    ensures |t.pcs| == |l.pcs|
    decreases n
  {
    if n == 0 || !Busy(l.pcs[i]) then l else Alone(Spin(l, i), i, n - 1)
  }

  /** The lock is free again once everyone has left it: neither counter leaks. */
  lemma EverybodyOut(run: seq<LockAction>)
    requires LockRuns(Lock(false, 0, []), run)
    requires forall pc :: pc in LockFinal(Lock(false, 0, []), run).pcs ==> pc.Outside?
    ensures var l := LockFinal(Lock(false, 0, []), run);
            l.read == 0 && !l.write
  {
    LockRunKeeps(Lock(false, 0, []), run);
    NobodyInside(LockFinal(Lock(false, 0, []), run));
  }

  lemma {:induction false} AllOutside(pcs: seq<Pc>)
    requires forall pc :: pc in pcs ==> pc.Outside?
    ensures Readers(pcs) == 0
  {
    if pcs != [] {
      assert pcs[|pcs| - 1] in pcs;
      AllOutside(pcs[..|pcs| - 1]);
    }
  }

  lemma NobodyInside(l: Lock)
    requires LockInv(l) && forall pc :: pc in l.pcs ==> pc.Outside?
    ensures l.read == 0 && !l.write
  {
    AllOutside(l.pcs);
    forall i | 0 <= i < |l.pcs| ensures !Owns(l.pcs[i]) {
      assert l.pcs[i] in l.pcs;
    }
  }

  /** A thread that comes to a lock nobody uses gets in with its own instructions alone. */
  lemma FreeLockAdmits(l: Lock, i: nat, writing: bool)
    requires LockInv(l) && i < |l.pcs| && forall pc :: pc in l.pcs ==> pc.Outside?
    ensures var t := Alone(Call(l, i, writing), i, 3);
            if writing then t.pcs[i].Writing? else t.pcs[i].Reading?
  {
    NobodyInside(l);
    var t := Call(l, i, writing);
    var u := Spin(t, i);
    var v := Spin(u, i);
    assert Alone(t, i, 3) == Alone(u, i, 2) == Alone(v, i, 1);
    if !writing {
      var w := Spin(v, i);
      assert Alone(v, i, 1) == Alone(w, i, 0) == w;
    }
  }
}
