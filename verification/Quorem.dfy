/** quorem of game_room/luaclib-src/lua-cjson/dtoa.c: one quotient digit from an estimate and one correction. */
module Quorem {
  import opened Arithmetic
  import opened LimbValue
  import opened Bignum

  // ----- the multiply-and-subtract loop

  lemma SubMulStep(q: int, carry: int, borrow: int, u: int, limb: int, carry': int, y: int,
                   borrow': int, low: int, n: nat)
    requires limb * q + carry == carry' * BASE + y
    requires u - y - borrow == low - borrow' * BASE
    ensures At(carry + borrow, n) + At(low, n) == At(u, n) - q * At(limb, n) + At(carry' + borrow', n + 1)
  {
    AtCarry(carry', y, n);
    AtAdd(q * limb, carry, n);
    AtScale(q, limb, n);
    AtCarry(0 - borrow', low, n);
    AtScale(-1, borrow', n + 1);
    AtAdd(u - y - borrow, y, n);
    AtAdd(u - borrow, borrow, n);
    AtAdd(carry, borrow, n);
    AtAdd(carry', borrow', n + 1);
  }

  /** One limb of b - q * s; carry and borrow together are what is still to be subtracted above. */
  lemma SubMulLimb(out: seq<nat>, bs: seq<nat>, ss: seq<nat>, q: nat, carry: nat, borrow: nat,
                   u: nat, limb: nat, carry': nat, y: nat, borrow': nat, low: nat)
    requires |out| == |bs| == |ss|
    requires Val(out) == Val(bs) - q * Val(ss) + At(carry + borrow, |bs|)
    requires limb * q + carry == carry' * BASE + y
    requires u - y - borrow == low - borrow' * BASE
    ensures Val(out + [low]) == Val(bs + [u]) - q * Val(ss + [limb]) + At(carry' + borrow', |bs| + 1)
  {
    ValAppend(out, low);
    ValAppend(bs, u);
    ValAppend(ss, limb);
    SubMulStep(q, carry, borrow, u, limb, carry', y, borrow', low, |bs|);
    Distribute(q, Val(ss), At(limb, |bs|), Val(ss + [limb]));
  }

  /** One limb: the product limb, and the 64-bit difference with its borrow. */
  method SubMulCell(u: nat, limb: nat, q: nat, carry: nat, borrow: nat)
    returns (carry': nat, ghost y: nat, borrow': nat, low: nat)
    requires IsLimb(u) && IsLimb(limb) && IsLimb(q) && IsLimb(carry) && borrow <= 1
    ensures IsLimb(carry') && borrow' <= 1 && IsLimb(low)
    ensures limb * q + carry == carry' * BASE + y && u - y - borrow == low - borrow' * BASE
  {
    var high, ys := Accumulate(limb, q, 0, carry);
    carry', y := high, ys;
    BorrowStep(u - ys - borrow);
    var d := Wrap64(u - ys - borrow);
    borrow', low := d / BASE % 2, d % BASE;
  }

  /** b[..n] - q * s[..n] in place; `over` is what the limbs cannot hold. The correction loop is this with q = 1. */
  method SubMul(b: array<nat>, s: array<nat>, n: nat, q: nat) returns (ghost over: nat)
    requires b != s && 1 <= n <= b.Length && n <= s.Length
    requires Limbs(b[..n]) && Limbs(s[..n]) && IsLimb(q)
    modifies b
    ensures Limbs(b[..n])
    ensures Val(b[..n]) == old(Val(b[..n])) - q * Val(s[..n]) + At(over, n)
  {
    ghost var was := b[..n];
    ghost var out: seq<nat>, bs: seq<nat>, ss: seq<nat> := [], [], [];
    var i, borrow, carry: nat := 0, 0, 0;
    over := 0;
    while i < n
      invariant 0 <= i <= n && borrow <= 1 && IsLimb(carry) && over == carry + borrow
      invariant forall j :: i <= j < n ==> b[j] == was[j]
      invariant |out| == i && Limbs(out) && forall j :: 0 <= j < i ==> b[j] == out[j]
      invariant bs == was[..i] && ss == s[..i] && Val(out) == Val(bs) - q * Val(ss) + At(over, i)
    {
      var u, limb := b[i], s[i];
      assert u == was[i] && limb == s[..n][i];
      var carry', y, borrow', low := SubMulCell(u, limb, q, carry, borrow);
      SubMulLimb(out, bs, ss, q, carry, borrow, u, limb, carry', y, borrow', low);
      bs, ss := bs + [u], ss + [limb];
      carry, borrow, over := carry', borrow', carry' + borrow';
      b[i] := low;
      out := out + [low];
      i := i + 1;
    }
    assert was[..n] == was && b[..n] == out;
  }

  // ----- the estimate

  /** The estimate from the top limbs is never too large ... */
  lemma EstimateLow(b: int, s: int, p: nat, u: nat, t: nat, q: nat)
    requires b >= u * p && 0 <= s < (t + 1) * p && q * (t + 1) <= u
    ensures q * s <= b
  {
    MulMono(s, (t + 1) * p, q);
    assert q * ((t + 1) * p) == q * (t + 1) * p;
    MulMono(q * (t + 1), u, p);
  }

  lemma QuotientBelowTop(u: nat, t: nat, q: nat)
    requires IsLimb(u) && t >= 0x10000 && q * (t + 1) <= u
    ensures q + 1 <= t
  {
    if q + 1 > t {
      MulMono(0x10000, q, t + 1);
    }
  }

  /** ... and at most one too small when the divisor's top limb is at least 2^16. */
  lemma EstimateHigh(b: int, s: int, p: nat, u: nat, t: nat, q: nat)
    requires b < (u + 1) * p && s >= t * p && q + 1 <= t && u < (q + 1) * (t + 1)
    ensures b - q * s < 2 * s
  {
    assert (q + 1) * (t + 1) == (q + 1) * t + q + 1;
    assert (q + 2) * t == (q + 1) * t + t;
    MulMono(u + 1, (q + 2) * t, p);
    assert (q + 2) * t * p == (q + 2) * (t * p);
    MulMono(t * p, s, q + 2);
    assert (q + 2) * s == q * s + 2 * s;
  }

  /** Unsigned division of limbs. */
  function Ratio(u: nat, d: nat): nat
    requires d > 0
  {
    u / d
  }

  lemma RatioBounds(u: nat, d: nat)
    requires d > 0
    ensures Ratio(u, d) * d <= u < (Ratio(u, d) + 1) * d && Ratio(u, d) <= u
  {
    var q := Ratio(u, d);
    assert u == d * q + u % d;
    assert (q + 1) * d == q * d + d;
    MulMono(1, d, q);
  }

  /** A limb sequence between two multiples of its top position. */
  lemma TopMultiples(b: seq<nat>, u: nat)
    requires |b| > 0 && Limbs(b) && u == b[|b| - 1]
    ensures var p := At(1, |b| - 1); p >= 1 && u * p <= Val(b) < (u + 1) * p
  {
    TopBounds(b);
    AtGrows(0, |b| - 1);
    AtScale(u, 1, |b| - 1);
    AtScale(u + 1, 1, |b| - 1);
  }

  /** The lower bound on limb sequences of equal length, for any top limb of the divisor. */
  lemma EstimateBelow(b: seq<nat>, s: seq<nat>, u: nat, t: nat, q: nat)
    requires |b| == |s| > 0 && Limbs(b) && Limbs(s)
    requires u == b[|b| - 1] && t == s[|s| - 1] && q == Ratio(u, t + 1)
    ensures q <= u && q * Val(s) <= Val(b)
  {
    var p := At(1, |s| - 1);
    TopMultiples(b, u);
    TopMultiples(s, t);
    RatioBounds(u, t + 1);
    MulMono(0, t, p);
    EstimateLow(Val(b), Val(s), p, u, t, q);
  }

  /** The upper bound, for top limbs of the divisor from 2^16 on. */
  lemma Estimate(b: seq<nat>, s: seq<nat>, u: nat, t: nat, q: nat)
    requires |b| == |s| > 0 && Limbs(b) && Limbs(s)
    requires u == b[|b| - 1] && t == s[|s| - 1] && t >= 0x10000 && q == Ratio(u, t + 1)
    ensures Val(b) - q * Val(s) < 2 * Val(s)
  {
    var p := At(1, |s| - 1);
    assert IsLimb(u);
    TopMultiples(b, u);
    TopMultiples(s, t);
    RatioBounds(u, t + 1);
    QuotientBelowTop(u, t, q);
    EstimateHigh(Val(b), Val(s), p, u, t, q);
  }

  /** A divisor with a small top limb whose estimate leaves more than one correction can take away. */
  lemma EstimateFallsShort()
    ensures Ratio(0xFFFF_FFFF, 1 + 1) == 0x7FFF_FFFF
    ensures Val([0, 0xFFFF_FFFF]) - 0x7FFF_FFFF * Val([0, 1]) >= 2 * Val([0, 1])
  {
    assert [0, 1][..1] == [0] && [0, 0xFFFF_FFFF][..1] == [0] && [0][..0] == [];
    assert Val([0]) == 0;
    assert At(1, 1) == BASE && At(0xFFFF_FFFF, 1) == 0xFFFF_FFFF * BASE;
  }

  // ----- the whole operation

  /** Drops high zero limbs of an (n + 1)-limb number, down to `n` or fewer but never below one of several. */
  method TrimTop(b: Bigint, top: nat) returns (n: nat)
    requires b.Valid() && b.wds == top + 1
    modifies b
    ensures b.x == old(b.x) && b.k == old(b.k) && b.maxwds == old(b.maxwds) && b.sign == old(b.sign)
    ensures b.Valid() && b.Normal() && b.Value() == old(b.Value()) && b.wds <= old(b.wds)
    ensures b.wds == old(b.wds) ==> n == top && b.x[top] > 0
    ensures b.wds == 0 ==> b.x[0] == 0
  {
    n := top;
    ghost var was := b.x[..b.wds];
    if b.x[n] == 0 {
      while n - 1 > 0 && b.x[n - 1] == 0
        invariant 0 <= n <= top && b.x[..top + 1] == was
        invariant forall i :: n <= i <= top ==> was[i] == 0
      {
        n := n - 1;
      }
      LimbsPrefix(was, n);
      ValTrim(was, n);
      assert was[..n] == b.x[..n];
      b.wds := n;
    }
  }

  /** Subtracts q times the divisor and normalises. */
  method Reduce(b: Bigint, S: Bigint, q: nat) returns (n: nat)
    requires b.Valid() && S.Valid() && b != S && b.x != S.x && b.wds == S.wds > 0 && IsLimb(q)
    requires q * S.Value() <= b.Value()
    modifies b, b.x
    ensures b.x == old(b.x) && b.sign == old(b.sign)
    ensures b.Valid() && b.Normal() && b.wds <= S.wds && b.Value() == old(b.Value()) - q * S.Value()
    ensures b.wds == S.wds ==> n == S.wds - 1 && b.x[n] > 0
    ensures b.wds == 0 ==> b.x[0] == 0
  {
    ghost var d := b.Value() - q * S.Value();
    ghost var over := SubMul(b.x, S.x, S.wds, q);
    NoBorrow(b.x[..S.wds], d, over);
    n := TrimTop(b, S.wds - 1);
  }

  /** The correction of quorem. */
  method Correct(b: Bigint, S: Bigint, estimate: nat) returns (q: nat)
    requires b.Valid() && S.Valid() && b != S && b.x != S.x && b.Normal() && 0 < S.wds && b.wds <= S.wds
    requires S.x[S.wds - 1] > 0
    requires b.wds == 0 ==> b.x[0] == 0
    modifies b, b.x
    ensures b.x == old(b.x) && b.sign == old(b.sign)
    ensures b.Valid() && b.Normal() && b.wds <= S.wds
    ensures q >= estimate && b.Value() == old(b.Value()) - (q - estimate) * S.Value()
    ensures b.Value() < S.Value() <==> old(b.Value()) < 2 * S.Value()
    ensures b.wds == 0 ==> b.x[0] == 0
  {
    q := estimate;
    var c := Cmp(b, S);
    if c >= 0 {
      q := q + 1;
      var n := Reduce(b, S, 1);
    } else {
      FewerLimbs([], S.x[..S.wds]);
    }
  }

  /** The quotient digit quorem starts from: the top limbs' quotient, the divisor's one up; 0 for a shorter b. */
  ghost function Guessed(b: Bigint, S: Bigint): nat
    requires 0 < S.wds <= S.x.Length && b.wds <= b.x.Length
    reads b, b.x, S, S.x
  {
    if b.wds < S.wds then 0 else Ratio(b.x[S.wds - 1], S.x[S.wds - 1] + 1)
  }

  /** The estimate of quorem: never too large. */
  method Guess(b: Bigint, S: Bigint) returns (q: nat)
    requires b.Valid() && S.Valid()
    requires 0 < S.wds == b.wds && S.x[S.wds - 1] < 0xFFFF_FFFF
    ensures IsLimb(q) && q == Guessed(b, S) && q * S.Value() <= b.Value()
    ensures S.x[S.wds - 1] >= 0x10000 ==> b.Value() - q * S.Value() < 2 * S.Value()
  {
    var n := S.wds - 1;
    var u, t := b.x[n], S.x[n];
    ghost var bs, ss := b.x[..b.wds], S.x[..S.wds];
    assert u == bs[n] && IsLimb(u);
    q := Ratio(u, t + 1);
    EstimateBelow(bs, ss, u, t, q);
    if t >= 0x10000 { Estimate(bs, ss, u, t, q); }
  }

  lemma Together(v: int, s: int, estimate: int, q: int, between: int, rest: int)
    requires between == v - estimate * s && rest == between - (q - estimate) * s
    ensures v == q * s + rest
  {
    Distribute(s, estimate, q - estimate, q);
  }

  /** quorem on numbers of equal length: estimate, subtract, correct. */
  method Divide(b: Bigint, S: Bigint) returns (q: nat)
    requires b.Valid() && S.Valid() && b != S && b.x != S.x && b.Normal()
    requires 0 < S.wds == b.wds && 0 < S.x[S.wds - 1] < 0xFFFF_FFFF
    modifies b, b.x
    ensures b.x == old(b.x) && b.sign == old(b.sign)
    ensures b.Valid() && b.Normal() && b.wds <= S.wds && (b.wds == 0 ==> b.x[0] == 0)
    ensures old(b.Value()) == q * S.Value() + b.Value()
    ensures b.Value() < S.Value() <==> old(b.Value()) - old(Guessed(b, S)) * S.Value() < 2 * S.Value()
    ensures S.x[S.wds - 1] >= 0x10000 ==> b.Value() < S.Value()
  {
    ghost var v := b.Value();
    var estimate := Guess(b, S);
    if estimate != 0 {
      var n := Reduce(b, S, estimate);
    }
    ghost var between := b.Value();
    q := Correct(b, S, estimate);
    Together(v, S.Value(), estimate, q, between, b.Value());
  }

  /**
   quorem, for b no longer than S and every divisor it can divide by (a top limb of 2^32 - 1 makes it
   divide by 0): b is split into q * S and what is left in b. That is quotient and remainder exactly when
   less than 2 * S is left after the estimate, which top limbs from 2^16 on guarantee; the program calls it
   with top limbs from 2^27 to 2^28.
   */
  method QuoRem(b: Bigint, S: Bigint) returns (q: nat)
    requires b.Valid() && S.Valid() && b != S && b.x != S.x && b.Normal()
    requires 0 < S.wds && b.wds <= S.wds && 0 < S.x[S.wds - 1] < 0xFFFF_FFFF
    requires b.wds == 0 ==> b.x[0] == 0
    modifies b, b.x
    ensures b.x == old(b.x) && b.sign == old(b.sign)
    ensures b.Valid() && b.Normal() && b.wds <= S.wds && (b.wds == 0 ==> b.x[0] == 0)
    ensures S.Value() > 0 && b.Value() >= 0 && old(b.Value()) == q * S.Value() + b.Value()
    ensures q == old(b.Value()) / S.Value() && b.Value() == old(b.Value()) % S.Value() <==>
              old(b.Value()) - old(Guessed(b, S)) * S.Value() < 2 * S.Value()
    ensures S.x[S.wds - 1] >= 0x10000 ==> q == old(b.Value()) / S.Value() && b.Value() == old(b.Value()) % S.Value()
  {
    ghost var v, s := b.Value(), S.Value();
    FewerLimbs([], S.x[..S.wds]);
    ValBound(b.x[..b.wds]);
    if b.wds < S.wds {
      FewerLimbs(b.x[..b.wds], S.x[..S.wds]);
      q := 0;
    } else {
      q := Divide(b, S);
      ValBound(b.x[..b.wds]);
    }
    QuotientIff(v, q, b.Value(), s);
  }

  lemma QuotientIff(v: int, q: nat, r: int, s: int)
    requires s > 0 && r >= 0 && v == q * s + r
    ensures q == v / s && r == v % s <==> r < s
  {
    if r < s { ModUnique(v, q, r, s); }
  }
}
