/**
 Facts about products, remainders and powers of two that several models share.
 */
module Arithmetic {

  lemma MulMono(a: nat, b: nat, c: nat)
    requires a <= b
    ensures a * c <= b * c
  {
    assert b * c == a * c + (b - a) * c;
  }

  lemma Distribute(a: int, b: int, c: int, sum: int)
    requires sum == b + c
    ensures a * sum == a * b + a * c
  {
  }

  lemma ModUnique(v: nat, q: nat, r: nat, base: nat)
    requires r < base && v == q * base + r
    ensures v % base == r && v / base == q
  {
    var q', r' := v / base, v % base;
    assert v == base * q' + r';
    if q' < q {
      MulMono(q' + 1, q, base);
    } else if q < q' {
      MulMono(q + 1, q', base);
    }
  }

  function TwoTo(k: nat): (n: nat)
    ensures n > 0
  {
    if k == 0 then 1 else 2 * TwoTo(k - 1)
  }

  lemma {:induction false} TwoToAdd(a: nat, b: nat)
    ensures TwoTo(a + b) == TwoTo(a) * TwoTo(b)
  {
    if b > 0 {
      TwoToAdd(a, b - 1);
      assert TwoTo(a + b) == 2 * (TwoTo(a) * TwoTo(b - 1)) == TwoTo(a) * (2 * TwoTo(b - 1));
    }
  }

  lemma TwoToGrows(a: nat, b: nat)
    requires a <= b
    ensures TwoTo(a) <= TwoTo(b)
  {
    TwoToAdd(a, b - a);
    MulMono(1, TwoTo(b - a), TwoTo(a));
  }

  // ----- bitwise operations on unsigned numbers

  function BitOr(a: nat, b: nat): nat {
    if a == 0 && b == 0 then 0
    else 2 * BitOr(a / 2, b / 2) + (if a % 2 == 1 || b % 2 == 1 then 1 else 0)
  }

  function BitAnd(a: nat, b: nat): nat {
    if a == 0 || b == 0 then 0
    else 2 * BitAnd(a / 2, b / 2) + (if a % 2 == 1 && b % 2 == 1 then 1 else 0)
  }

  lemma {:induction false} OrZero(a: nat)
    ensures BitOr(a, 0) == a
  {
    if a > 0 { OrZero(a / 2); }
  }

  /** The lowest k bits. */
  function LowBits(a: nat, k: nat): nat {
    if k == 0 then 0 else 2 * LowBits(a / 2, k - 1) + a % 2
  }

  /** The bits from the k-th on. */
  function HighBits(a: nat, k: nat): nat {
    if k == 0 then a else HighBits(a / 2, k - 1)
  }

  lemma HalfRemainder(a: nat, t: nat, u: nat)
    requires t > 0 && u == 2 * t
    ensures a % u == 2 * (a / 2 % t) + a % 2 && a / u == a / 2 / t
  {
    var q, r := a / 2 / t, a / 2 % t;
    assert a / 2 == t * q + r;
    Distribute(q, t, t, u);
    ModUnique(a, q, 2 * r + a % 2, u);
  }

  lemma {:induction false} BitsSplit(a: nat, k: nat)
    ensures LowBits(a, k) == a % TwoTo(k) && HighBits(a, k) == a / TwoTo(k)
  {
    if k > 0 {
      BitsSplit(a / 2, k - 1);
      HalfRemainder(a, TwoTo(k - 1), TwoTo(k));
    }
  }

  lemma {:induction false} AndLowBits(a: nat, k: nat)
    ensures BitAnd(a, TwoTo(k) - 1) == LowBits(a, k)
  {
    if k > 0 { AndLowBits(a / 2, k - 1); }
  }

  /** A mask of low ones keeps the remainder. */
  lemma AndLowOnes(a: nat, k: nat)
    ensures BitAnd(a, TwoTo(k) - 1) == a % TwoTo(k)
  {
    AndLowBits(a, k);
    BitsSplit(a, k);
  }

  lemma {:induction false} OrHighBits(a: nat, b: nat, k: nat)
    ensures BitOr(a, TwoTo(k) - 1) == BitOr(b, TwoTo(k) - 1) <==> HighBits(a, k) == HighBits(b, k)
  {
    if k == 0 {
      OrZero(a);
      OrZero(b);
    } else {
      OrHighBits(a / 2, b / 2, k - 1);
    }
  }

  /** Comparing two numbers under a mask of low ones compares the bits above. */
  lemma MaskCompares(a: nat, b: nat, k: nat)
    ensures BitOr(a, TwoTo(k) - 1) == BitOr(b, TwoTo(k) - 1) <==> a / TwoTo(k) == b / TwoTo(k)
  {
    OrHighBits(a, b, k);
    BitsSplit(a, k);
    BitsSplit(b, k);
  }

  /** Or of disjoint bits is a sum. */
  lemma {:induction false} OrDisjoint(a: nat, z: nat, k: nat)
    requires z < TwoTo(k)
    ensures BitOr(a * TwoTo(k), z) == a * TwoTo(k) + z
  {
    if k == 0 {
      OrZero(a);
    } else {
      var t := TwoTo(k - 1);
      var h := a * t;
      assert a * TwoTo(k) == 2 * h;
      OrDisjoint(a, z / 2, k - 1);
    }
  }
}
