/**
 64-bit modular exponentiation for the key exchange of skynet/lualib-src/lua-crypt.c.
 */
module KeyExchange {
  import opened Arithmetic
  import opened NumberTheory

  const P := 0xffff_ffff_ffff_ffc5
  const WORD := 0x1_0000_0000_0000_0000
  const G := 5

  type uint64 = n: nat | n < WORD witness 0

  /** The result of an unsigned 64-bit operation. */
  function Wrap(i: int): uint64 { i % WORD }

  // ----- multiplication

  /** One step keeps what is still to be added up, apart from multiples of P. */
  lemma MulStep(a: int, b: int, m: int, k: int, all: int, a': int, b': int, m': int, j: int, l: int)
    requires m + a * b + P * k == all
    requires a' == 2 * a - P * j && b == 2 * b' + (if b % 2 == 1 then 1 else 0)
    requires m' == m + (if b % 2 == 1 then a else 0) - P * l
    ensures m' + a' * b' + P * (k + l + j * b') == all
  {
    assert a' * b' == 2 * a * b' - P * (j * b');
    if b % 2 == 1 {
      assert a * b == 2 * a * b' + a;
    } else {
      assert a * b == 2 * a * b';
    }
  }

  /** The conditional addition of mul_mod_p; `l` tells whether P was taken off. */
  method AddModP(m: uint64, a: uint64) returns (r: uint64, ghost l: nat)
    requires m < P && a <= P
    ensures r < P && r == m + a - P * l
  {
    var t := Wrap(P - a);
    if m >= t {
      r, l := Wrap(m - t), 1;
    } else {
      r, l := Wrap(m + a), 0;
    }
  }

  /** The doubling of mul_mod_p, right even when a * 2 does not fit. */
  method DoubleModP(a: uint64) returns (r: uint64, ghost j: nat)
    requires a <= P
    ensures r <= P && r == 2 * a - P * j
  {
    if a >= Wrap(P - a) {
      r, j := Wrap(Wrap(a * 2) - P), 1;
    } else {
      r, j := Wrap(a * 2), 0;
    }
  }

  /** mul_mod_p: exact, although its sums wrap. */
  method MulModP(a0: uint64, b0: uint64) returns (m: uint64)
    requires a0 <= P
    ensures m == a0 * b0 % P
  {
    m := 0;
    var a: uint64, b: uint64 := a0, b0;
    ghost var k, all := 0, a0 * b0;
    while b != 0
      invariant a <= P && m < P && k >= 0
      invariant m + a * b + P * k == all
      decreases b
    {
      ghost var l, m0, a1, b1 := 0, m, a, b;
      if b % 2 == 1 {
        m, l := AddModP(m, a);
      }
      ghost var j: nat;
      a, j := DoubleModP(a);
      b := b / 2;
      MulStep(a1, b1, m0, k, all, a, b, m, j, l);
      k := k + l + j * b;
    }
    ModUnique(all, k, m, P);
  }

  // ----- powers

  lemma SquareStep(a: nat, b: nat)
    requires b > 1
    ensures var t := Power(a, b / 2);
            Power(a, b) == t * t * (if b % 2 == 1 then a else 1)
  {
    var h := b / 2;
    PowerAdd(a, h, h);
    if b % 2 == 1 {
      PowerAdd(a, 1, 2 * h);
      assert Power(a, 1) == a * Power(a, 0) == a;
      var t := Power(a, h);
      assert a * (t * t) == t * t * a;
    }
  }

  /** Squaring the partial result is squaring the power, even for the unreduced P. */
  lemma SquareMod(t: nat, whole: nat, a: nat, h: nat)
    requires h >= 1 && whole == Power(a, h) && t == if a == P && h == 1 then P else whole % P
    ensures t * t % P == whole * whole % P
  {
    if a == P && h == 1 {
      assert whole == P * Power(P, 0) == P;
    } else {
      ProductMod(whole, whole, P);
    }
  }

  /** One bit of the exponent. */
  lemma PowStep(a: nat, b: nat, t: nat, square: nat)
    requires b > 1 && t == if a == P && b / 2 == 1 then P else Power(a, b / 2) % P
    requires square == t * t % P
    ensures Power(a, b) % P == if b % 2 == 1 then square * a % P else square
  {
    var w := Power(a, b / 2);
    SquareMod(t, w, a, b / 2);
    SquareStep(a, b);
    if b % 2 == 1 { SameProduct(w * w, square, a, a, P); }
  }

  /** pow_mod_p by repeated squaring; P itself comes back unreduced from an exponent of 1. */
  method PowModP(a: uint64, b: uint64) returns (r: uint64)
    requires a <= P && b >= 1
    ensures r == if a == P && b == 1 then P else Power(a, b) % P
    decreases b
  {
    if b == 1 {
      assert Power(a, 1) == a * Power(a, 0) == a;
      return a;
    }
    var t := PowModP(a, b / 2);
    r := MulModP(t, t);
    PowStep(a, b, t, r);
    if b % 2 == 1 {
      r := MulModP(r, a);
    }
  }

  /** powmodp. */
  method PowerModP(a: uint64, b: uint64) returns (r: uint64)
    requires b >= 1
    ensures r == (if a == P && b == 1 then P else Power(a, b) % P)
    ensures r == Power(a, b) % P <==> !(a == P && b == 1)
  {
    var reduced := if a > P then a % P else a;
    r := PowModP(reduced, b);
    if a > P {
      PowerMod(a, b, P);
    } else if a == P && b == 1 {
      UnreducedBase();
    }
  }

  /** The one pair of arguments powmodp gets wrong: its test `a > P` lets P itself through. */
  lemma UnreducedBase()
    ensures Power(P, 1) % P == 0
  {
    assert Power(P, 1) == P * Power(P, 0);
  }

  // ----- the exchange

  datatype Result = Error | Key(k: uint64)

  /** Multiplying a non-zero remainder by 5 does not reach a multiple of P: none of P, 2P, 3P, 4P ends in 0 or 5. */
  lemma {:induction false} NeverZero(n: nat)
    ensures Power(G, n) % P != 0
  {
    if n > 0 {
      NeverZero(n - 1);
      var p := Power(G, n - 1);
      ProductMod(G, p, P);
      var r := p % P;
      var q := 5 * r / P;
      assert 5 * r == q * P + 5 * r % P;
      assert q < 5;
    }
  }

  /** ldhexchange. */
  method Exchange(x: uint64) returns (r: Result)
    ensures r == if x == 0 then Error else Key((Power(G, x) % P) as uint64)
    ensures r.Key? ==> 0 < r.k < P
  {
    if x == 0 {
      return Error;
    }
    NeverZero(x);
    var k := PowerModP(G, x);
    return Key(k);
  }

  /** ldhsecret. */
  method Secret(x: uint64, y: uint64) returns (r: Result)
    ensures r.Error? <==> x == 0 || y == 0
    ensures r.Key? ==> r.k == (if x == P && y == 1 then P else Power(x, y) % P)
  {
    if x == 0 || y == 0 {
      return Error;
    }
    var k := PowerModP(x, y);
    return Key(k);
  }

  lemma SharedSecret(x: nat, y: nat)
    ensures Power(Power(G, x) % P, y) % P == Power(G, x * y) % P
  {
    PowerMod(Power(G, x), y, P);
    PowerPower(G, x, y);
  }

  /** Two parties with any non-zero secrets accept each other's public key and derive the same, non-zero, key. */
  method Agreement(x: uint64, y: uint64) returns (first: Result, second: Result)
    requires x != 0 && y != 0
    ensures first.Key? && first == second && first.k != 0
    ensures first.k == Power(G, x * y) % P
  {
    var a := Exchange(x);
    var b := Exchange(y);
    first := Secret(b.k, x);
    second := Secret(a.k, y);
    SharedSecret(x, y);
    SharedSecret(y, x);
    assert x * y == y * x;
    NeverZero(x * y);
  }
}
