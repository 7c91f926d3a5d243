/**
 The number a little-endian sequence of 32-bit limbs stands for, and the one-limb steps of the
 carry and borrow loops of game_room/luaclib-src/lua-cjson/dtoa.c.
 */
module LimbValue {
  import opened Arithmetic

  const BASE := 0x1_0000_0000
  const WORD := 0x1_0000_0000_0000_0000

  predicate IsLimb(v: nat) { v < BASE }

  predicate Limbs(s: seq<nat>) { forall i :: 0 <= i < |s| ==> IsLimb(s[i]) }

  /** `v` at limb position `n`: v times BASE to the n. */
  function At(v: int, n: nat): int {
    if n == 0 then v else BASE * At(v, n - 1)
  }

  function Val(s: seq<nat>): int {
    if s == [] then 0 else Val(s[..|s| - 1]) + At(s[|s| - 1], |s| - 1)
  }

  // ----- positions

  lemma {:induction false} AtAdd(a: int, b: int, n: nat)
    ensures At(a + b, n) == At(a, n) + At(b, n)
  {
    if n > 0 { AtAdd(a, b, n - 1); }
  }

  lemma {:induction false} AtScale(m: int, v: int, n: nat)
    ensures At(m * v, n) == m * At(v, n)
  {
    if n > 0 {
      AtScale(m, v, n - 1);
      assert BASE * (m * At(v, n - 1)) == m * (BASE * At(v, n - 1));
    }
  }

  /** The high half of an accumulator belongs one position up. */
  lemma {:induction false} AtCarry(high: int, low: int, n: nat)
    ensures At(high * BASE + low, n) == At(high, n + 1) + At(low, n)
  {
    if n > 0 { AtCarry(high, low, n - 1); }
  }

  lemma {:induction false} AtMono(a: int, b: int, n: nat)
    requires a <= b
    ensures At(a, n) <= At(b, n)
    ensures a < b ==> At(a, n) < At(b, n)
  {
    if n > 0 { AtMono(a, b, n - 1); }
  }

  lemma {:induction false} AtZero(n: nat)
    ensures At(0, n) == 0
  {
    if n > 0 { AtZero(n - 1); }
  }

  lemma {:induction false} AtAt(v: int, a: nat, b: nat)
    ensures At(At(v, a), b) == At(v, a + b)
  {
    if b > 0 { AtAt(v, a, b - 1); }
  }

  lemma {:induction false} AtGrows(a: nat, b: nat)
    requires a <= b
    ensures 1 <= At(1, a) <= At(1, b)
  {
    if a < b {
      AtGrows(a, b - 1);
    } else if a > 0 {
      AtGrows(a - 1, b - 1);
    }
  }

  // ----- values

  lemma ValAppend(s: seq<nat>, v: nat)
    ensures Val(s + [v]) == Val(s) + At(v, |s|)
  {
    assert (s + [v])[..|s|] == s;
  }

  lemma {:induction false} ValConcat(s: seq<nat>, t: seq<nat>)
    ensures Val(s + t) == Val(s) + At(Val(t), |s|)
  {
    if t == [] {
      assert s + t == s;
      AtZero(|s|);
    } else {
      var n := |t| - 1;
      ValConcat(s, t[..n]);
      assert s + t == s + t[..n] + [t[n]];
      ValAppend(s + t[..n], t[n]);
      AtAt(t[n], n, |s|);
      AtAdd(Val(t[..n]), At(t[n], n), |s|);
    }
  }

  /** A number of `n` limbs is below BASE to the `n`. */
  lemma {:induction false} ValBound(s: seq<nat>)
    requires Limbs(s)
    ensures 0 <= Val(s) < At(1, |s|)
  {
    if s != [] {
      var n := |s| - 1;
      ValBound(s[..n]);
      AtMono(s[n], BASE - 1, n);
      AtMono(0, s[n], n);
      AtZero(n);
      AtCarry(1, -1, n);
      AtAdd(1, -1, n);
    }
  }

  /** The top limb bounds a number from both sides. */
  lemma TopBounds(s: seq<nat>)
    requires s != [] && Limbs(s)
    ensures At(s[|s| - 1], |s| - 1) <= Val(s) < At(s[|s| - 1] + 1, |s| - 1)
  {
    var n := |s| - 1;
    ValBound(s[..n]);
    AtAdd(s[n], 1, n);
  }

  lemma {:induction false} ValZeros(s: seq<nat>)
    requires forall i :: 0 <= i < |s| ==> s[i] == 0
    ensures Val(s) == 0
  {
    if s != [] {
      ValZeros(s[..|s| - 1]);
      AtZero(|s| - 1);
    }
  }

  /** High zero limbs do not count. */
  lemma {:induction false} ValTrim(s: seq<nat>, n: nat)
    requires n <= |s| && forall i :: n <= i < |s| ==> s[i] == 0
    ensures Val(s) == Val(s[..n])
  {
    if n < |s| {
      ValTrim(s[..|s| - 1], n);
      assert s[..|s| - 1][..n] == s[..n];
      AtZero(|s| - 1);
    } else {
      assert s[..n] == s;
    }
  }

  /** A number at least BASE to the (n-1) needs its limb n-1. */
  lemma TopLimb(s: seq<nat>)
    requires s != [] && Limbs(s) && Val(s) >= At(1, |s| - 1)
    ensures s[|s| - 1] > 0
  {
    ValBound(s[..|s| - 1]);
    AtZero(|s| - 1);
  }

  /** A number with fewer limbs is smaller than one with more and a non-zero top limb. */
  lemma FewerLimbs(s: seq<nat>, t: seq<nat>)
    requires Limbs(s) && Limbs(t) && |s| < |t| && t[|t| - 1] > 0
    ensures Val(s) < Val(t)
  {
    ValBound(s);
    TopBounds(t);
    AtMono(1, t[|t| - 1], |t| - 1);
    AtGrows(|s|, |t| - 1);
  }

  /** The highest limb in which two numbers differ decides. */
  lemma {:induction false} ValCompare(s: seq<nat>, t: seq<nat>, i: nat)
    requires |s| == |t| && Limbs(s) && Limbs(t) && i < |s| && s[i] < t[i]
    requires forall j :: i < j < |s| ==> s[j] == t[j]
    ensures Val(s) < Val(t)
  {
    var n := |s| - 1;
    if i == n {
      TopBounds(s);
      TopBounds(t);
      AtMono(s[n] + 1, t[n], n);
    } else {
      ValCompare(s[..n], t[..n], i);
      assert s[n] == t[n];
    }
  }

  lemma LimbsPrefix(s: seq<nat>, n: nat)
    requires Limbs(s) && n <= |s|
    ensures Limbs(s[..n])
  {
    assert forall i :: 0 <= i < n ==> IsLimb(s[i]);
  }

  // ----- 64-bit accumulators

  /** An unsigned 64-bit result. */
  function Wrap64(y: int): nat { y % WORD }

  /** `y >> 32 & 1` and `y & FFFFFFFF` after an unsigned subtraction give borrow and limb. */
  lemma BorrowStep(y: int)
    requires -BASE <= y < BASE
    ensures Wrap64(y) / BASE % 2 == (if y < 0 then 1 else 0)
    ensures Wrap64(y) % BASE == (if y < 0 then y + BASE else y)
  {
    if y < 0 {
      assert Wrap64(y) == y + WORD == (y + BASE) + (BASE - 1) * BASE;
      assert Wrap64(y) / BASE == BASE - 1;
    }
  }

  /** A product of two limbs plus two limbs fits a 64-bit accumulator, and its high part is a limb. */
  lemma MulFits(a: nat, b: nat, c: nat, d: nat)
    requires IsLimb(a) && IsLimb(b) && IsLimb(c) && IsLimb(d)
    ensures a * b + c + d < WORD && IsLimb((a * b + c + d) / BASE)
  {
    MulMono(a, BASE - 1, b);
    MulMono(b, BASE - 1, BASE - 1);
  }
}
