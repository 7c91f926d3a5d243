/**
 The lock of RwLock lets everybody in: from every reachable state, however entangled, and a writer that has come holds
 new readers back.
 */
module LockProgress {
  import opened RwLock

  /** Thread i is inside, as a writer or as a reader. */
  predicate Inside(l: Lock, i: nat, writing: bool) {
    i < |l.pcs| && if writing then l.pcs[i].Writing? else l.pcs[i].Reading?
  }

  /** Which section a thread in one of the lock operations wants. */
  predicate ForWriting(pc: Pc) { pc.WriteSpin? || pc.WriteDrain? }

  ghost predicate GetsIn(l: Lock, i: nat, writing: bool) {
    exists run :: LockRuns(l, run) && Inside(LockFinal(l, run), i, writing)
  }

  lemma IsIn(l: Lock, i: nat, writing: bool)
    requires Inside(l, i, writing)
    ensures GetsIn(l, i, writing)
  {
    assert LockRuns(l, []) && LockFinal(l, []) == l;
  }

  lemma GetsInLater(l: Lock, a: LockAction, i: nat, writing: bool)
    requires LockEnabled(l, a) && GetsIn(LockApply(l, a), i, writing)
    ensures GetsIn(l, i, writing)
  {
    var run :| LockRuns(LockApply(l, a), run) && Inside(LockFinal(LockApply(l, a), run), i, writing);
    assert ([a] + run)[1..] == run;
    assert LockRuns(l, [a] + run) && LockFinal(l, [a] + run) == LockFinal(LockApply(l, a), run);
  }

  lemma {:induction false} SomeReader(pcs: seq<Pc>) returns (j: nat)
    requires Readers(pcs) > 0
    ensures j < |pcs| && Counted(pcs[j])
  {
    j := |pcs| - 1;
    if !Counted(pcs[j]) { j := SomeReader(pcs[..j]); }
  }

  /** Nobody owns or reads: the thread's own instructions take it in. */
  lemma Unused(l: Lock, i: nat)
    requires i < |l.pcs| && !l.write && l.read == 0
    requires l.pcs[i].ReadSpin? || l.pcs[i].ReadAdd? || l.pcs[i].WriteSpin?
    ensures GetsIn(l, i, ForWriting(l.pcs[i]))
  {
    var a, w := Instruction(i), ForWriting(l.pcs[i]);
    var t := Spin(l, i);
    var u := Spin(t, i);
    if l.pcs[i].ReadSpin? {
      IsIn(Spin(u, i), i, w);
      GetsInLater(u, a, i, w);
    } else {
      IsIn(u, i, w);
    }
    GetsInLater(t, a, i, w);
    GetsInLater(l, a, i, w);
  }

  /** Nobody reads: the owner, if there is one, goes through and leaves. */
  lemma OwnerLeaves(l: Lock, i: nat)
    requires LockInv(l) && i < |l.pcs| && Busy(l.pcs[i]) && Readers(l.pcs) == 0
    ensures GetsIn(l, i, ForWriting(l.pcs[i]))
  {
    var w := ForWriting(l.pcs[i]);
    NoReaders(l.pcs, i);
    if !l.write {
      assert !Owns(l.pcs[i]);
      Unused(l, i);
    } else {
      var o :| 0 <= o < |l.pcs| && Owns(l.pcs[o]);
      if o == i {
        IsIn(Spin(l, i), i, w);
        GetsInLater(l, Instruction(i), i, w);
      } else if l.pcs[o].WriteDrain? {
        var t := Spin(l, o);
        SpinKeeps(l, o);
        assert !Owns(l.pcs[i]);
        Unused(Unlock(t, o), i);
        GetsInLater(t, Exit(o), i, w);
        GetsInLater(l, Instruction(o), i, w);
      } else {
        assert !Owns(l.pcs[i]);
        Unused(Unlock(l, o), i);
        GetsInLater(l, Exit(o), i, w);
      }
    }
  }

  /** Every thread that is counted in `read` counts itself out; then the owner leaves. */
  lemma {:induction false} ReadersLeave(l: Lock, i: nat)
    requires LockInv(l) && i < |l.pcs| && Busy(l.pcs[i])
    ensures GetsIn(l, i, ForWriting(l.pcs[i]))
    decreases Readers(l.pcs)
  {
    var w := ForWriting(l.pcs[i]);
    if Readers(l.pcs) == 0 {
      OwnerLeaves(l, i);
    } else {
      var j := SomeReader(l.pcs);
      match l.pcs[j] {
        case Reading => OneLeaves(l, i, j);
        case ReadUndo => OneUndoes(l, i, j);
        case ReadCheck =>
          var t := Spin(l, j);
          SpinKeeps(l, j);
          ReadersUpdate(l.pcs, j, t.pcs[j]);
          if l.write {
            OneUndoes(t, i, j);
          } else if j == i {
            IsIn(t, i, w);
          } else {
            OneLeaves(t, i, j);
          }
          GetsInLater(l, Instruction(j), i, w);
      }
    }
  }

  lemma {:induction false} OneLeaves(l: Lock, i: nat, j: nat)
    requires LockInv(l) && i < |l.pcs| && Busy(l.pcs[i]) && j < |l.pcs| && l.pcs[j].Reading?
    ensures GetsIn(l, i, ForWriting(l.pcs[i]))
    decreases Readers(l.pcs), 0
  {
    ReadersUpdate(l.pcs, j, Outside);
    UnlockKeeps(l, j);
    NoReadersOrMore(l, j);
    ReadersLeave(Unlock(l, j), i);
    GetsInLater(l, Exit(j), i, ForWriting(l.pcs[i]));
  }

  lemma {:induction false} OneUndoes(l: Lock, i: nat, j: nat)
    requires LockInv(l) && i < |l.pcs| && Busy(l.pcs[i]) && j < |l.pcs| && l.pcs[j].ReadUndo?
    ensures GetsIn(l, i, ForWriting(l.pcs[i]))
    decreases Readers(l.pcs), 0
  {
    ReadersUpdate(l.pcs, j, ReadSpin);
    SpinKeeps(l, j);
    NoReadersOrMore(l, j);
    ReadersLeave(Spin(l, j), i);
    GetsInLater(l, Instruction(j), i, ForWriting(l.pcs[i]));
  }

  lemma NoReadersOrMore(l: Lock, j: nat)
    requires j < |l.pcs| && Counted(l.pcs[j])
    ensures Readers(l.pcs) > 0
  {
    if Readers(l.pcs) == 0 { NoReaders(l.pcs, j); }
  }

  /** From every reachable state a thread that has asked for the lock can get into the section it wants. */
  lemma EverybodyGetsIn(run: seq<LockAction>, i: nat)
    requires LockRuns(Lock(false, 0, []), run)
    requires var l := LockFinal(Lock(false, 0, []), run); i < |l.pcs| && Busy(l.pcs[i])
    ensures var l := LockFinal(Lock(false, 0, []), run); GetsIn(l, i, ForWriting(l.pcs[i]))
  {
    LockRunKeeps(Lock(false, 0, []), run);
    ReadersLeave(LockFinal(Lock(false, 0, []), run), i);
  }

  // ----- a writer holds new readers back

  lemma HeldBack(l: Lock, a: LockAction, o: nat)
    requires LockInv(l) && LockEnabled(l, a) && o < |l.pcs| && Owns(l.pcs[o]) && a != Exit(o)
    ensures var t := LockApply(l, a);
            && LockInv(t) && Owns(t.pcs[o]) && |l.pcs| <= |t.pcs|
            && forall j :: 0 <= j < |t.pcs| && t.pcs[j].ReadAdd? ==> j < |l.pcs| && l.pcs[j].ReadAdd?
  {
    match a {
      case Enter(i, writing) => CallKeeps(l, i, writing);
      case Instruction(i) => SpinKeeps(l, i);
      case Exit(i) => UnlockKeeps(l, i);
      case Arrive => JoinKeeps(l);
    }
  }

  lemma {:induction false} HeldBackInRun(l: Lock, run: seq<LockAction>, o: nat)
    requires LockInv(l) && LockRuns(l, run) && o < |l.pcs| && Owns(l.pcs[o]) && Exit(o) !in run
    ensures var t := LockFinal(l, run);
            forall j :: 0 <= j < |t.pcs| && t.pcs[j].ReadAdd? ==> j < |l.pcs| && l.pcs[j].ReadAdd?
    decreases |run|
  {
    if run != [] {
      HeldBack(l, run[0], o);
      HeldBackInRun(LockApply(l, run[0]), run[1..], o);
    }
  }

  /**
   From the moment a writer has set `write` until it leaves, no further thread comes to its increment of `read`: the
   writer waits for those at most that were on their way already.
   */
  lemma WriterHoldsReadersBack(before: seq<LockAction>, run: seq<LockAction>, o: nat)
    requires LockRuns(Lock(false, 0, []), before)
    requires var l := LockFinal(Lock(false, 0, []), before);
             LockRuns(l, run) && o < |l.pcs| && Owns(l.pcs[o]) && Exit(o) !in run
    ensures var l := LockFinal(Lock(false, 0, []), before);
            var t := LockFinal(l, run);
            forall j :: 0 <= j < |t.pcs| && t.pcs[j].ReadAdd? ==> j < |l.pcs| && l.pcs[j].ReadAdd?
  {
    LockRunKeeps(Lock(false, 0, []), before);
    HeldBackInRun(LockFinal(Lock(false, 0, []), before), run, o);
  }
}
