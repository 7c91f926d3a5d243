/**
 Powers modulo a number, the order of a number, and primes by certificate.
 */
module NumberTheory {
  import opened Arithmetic

  function Power(a: nat, n: nat): nat {
    if n == 0 then 1 else a * Power(a, n - 1)
  }

  lemma {:induction false} PowerAdd(a: nat, m: nat, n: nat)
    ensures Power(a, m + n) == Power(a, m) * Power(a, n)
  {
    if m > 0 {
      PowerAdd(a, m - 1, n);
      var p, q := Power(a, m - 1), Power(a, n);
      assert a * (p * q) == a * p * q;
    }
  }

  lemma {:induction false} PowerPower(a: nat, m: nat, n: nat)
    ensures Power(Power(a, m), n) == Power(a, m * n)
  {
    if n == 0 {
      assert m * 0 == 0;
    } else {
      PowerPower(a, m, n - 1);
      PowerAdd(a, m, m * (n - 1));
      assert m + m * (n - 1) == m * n;
    }
  }

  // ----- remainders

  /** A product does not notice reductions of its factors. */
  lemma ProductMod(a: nat, b: nat, n: nat)
    requires n > 0
    ensures (a % n) * (b % n) % n == a * b % n
  {
    ProductParts(a, b, n, a / n, a % n, b / n, b % n);
  }

  lemma ProductParts(a: nat, b: nat, n: nat, q: nat, r: nat, s: nat, t: nat)
    requires n > 0 && a == n * q + r && b == n * s + t
    ensures r * t % n == a * b % n
  {
    var u, v := r * t / n, r * t % n;
    MultiplyOut(n, q, r, s, t);
    Distribute(n, q * b + r * s, u, q * b + r * s + u);
    ModUnique(a * b, q * b + r * s + u, v, n);
  }

  lemma MultiplyOut(n: int, q: int, r: int, s: int, t: int)
    ensures (n * q + r) * (n * s + t) == n * (q * (n * s + t) + r * s) + r * t
  {
    assert (n * q + r) * (n * s + t) == n * q * (n * s + t) + r * (n * s + t);
  }

  lemma SameProduct(a: nat, b: nat, p: nat, q: nat, n: nat)
    requires n > 0 && a % n == b % n && p % n == q % n
    ensures a * p % n == b * q % n
  {
    ProductMod(a, p, n);
    ProductMod(b, q, n);
  }

  lemma SmallMod(v: nat, n: nat)
    requires v < n
    ensures v % n == v
  {
    ModUnique(v, 0, v, n);
  }

  lemma Multiple(n: nat, k: nat)
    requires n > 0
    ensures n * k % n == 0
  {
    ModUnique(n * k, k, 0, n);
  }

  lemma Quotient(n: nat, d: nat) returns (k: nat)
    requires d > 0 && n % d == 0
    ensures n == d * k
  {
    k := n / d;
  }

  /** A remainder by a multiple tells the remainder. */
  lemma RemainderOfRemainder(v: nat, n: nat, p: nat)
    requires p > 0 && n > 0 && n % p == 0
    ensures v % n % p == v % p
  {
    var k := Quotient(n, p);
    var w := v % n;
    assert v == n * (v / n) + w;
    assert n * (v / n) == p * (k * (v / n));
    assert w == p * (w / p) + w % p;
    Distribute(p, k * (v / n), w / p, k * (v / n) + w / p);
    ModUnique(v, k * (v / n) + w / p, w % p, p);
  }

  lemma {:induction false} PowerMod(a: nat, k: nat, n: nat)
    requires n > 0
    ensures Power(a % n, k) % n == Power(a, k) % n
  {
    if k > 0 {
      PowerMod(a, k - 1, n);
      assert a % n % n == a % n by { SmallMod(a % n, n); }
      SameProduct(a % n, a, Power(a % n, k - 1), Power(a, k - 1), n);
    }
  }

  lemma {:induction false} OneToThe(x: nat, k: nat, n: nat)
    requires n > 1 && x % n == 1
    ensures Power(x, k) % n == 1
  {
    if k == 0 {
      SmallMod(1, n);
    } else {
      OneToThe(x, k - 1, n);
      ProductMod(x, Power(x, k - 1), n);
      SmallMod(1, n);
    }
  }

  // ----- greatest common divisors

  /** A common divisor of two numbers that is a sum of multiples of them. */
  lemma {:induction false} Bezout(x: nat, y: nat) returns (g: nat, u: int, v: int)
    requires x > 0
    ensures g > 0 && g == u * x + v * y && x % g == 0 && y % g == 0
    decreases y
  {
    if y == 0 {
      g, u, v := x, 1, 0;
      Multiple(x, 1);
      Multiple(x, 0);
    } else {
      var r := x % y;
      var u', v';
      g, u', v' := Bezout(y, r);
      u, v := v', u' - x / y * v';
      Regroup(x, y, x / y, r, u', v');
      CommonDivisor(x, y, x / y, r, g);
    }
  }

  lemma Regroup(x: int, y: int, k: int, r: int, u: int, v: int)
    requires x == y * k + r
    ensures u * y + v * r == v * x + (u - k * v) * y
  {
  }

  lemma CommonDivisor(x: nat, y: nat, k: nat, r: nat, g: nat)
    requires g > 0 && x == y * k + r && y % g == 0 && r % g == 0
    ensures x % g == 0
  {
    var s := Quotient(y, g);
    var t := Quotient(r, g);
    assert g * s * k == g * (s * k);
    Distribute(g, s * k, t, s * k + t);
    Multiple(g, s * k + t);
  }

  // ----- primes

  predicate Prime(n: nat) { n > 1 && forall d :: 1 < d < n ==> n % d != 0 }

  /** What divides a prime times m, but not m, is a multiple of the prime. */
  lemma PrimeDivides(q: nat, m: nat, d: nat)
    requires Prime(q) && d > 0 && q * m % d == 0 && m % d != 0
    ensures d % q == 0
  {
    var g, u, v := Bezout(q, d);
    if g == 1 {
      var k := Quotient(q * m, d);
      CombineMultiples(q, m, d, k, u, v);
      assert false;
    } else {
      DivisorAtMost(q, g);
    }
  }

  lemma DivisorAtMost(n: nat, g: nat)
    requires n > 0 && g > 0 && n % g == 0
    ensures g <= n
  {
    if g > n { SmallMod(n, g); }
  }

  lemma CombineMultiples(q: nat, m: nat, d: nat, k: nat, u: int, v: int)
    requires d > 0 && q * m == d * k && u * q + v * d == 1
    ensures m % d == 0
  {
    calc {
      m;
      (u * q + v * d) * m;
      u * (q * m) + v * (d * m);
      u * (d * k) + v * (d * m);
      d * (u * k + v * m);
    }
    NonNegative(m, d, u * k + v * m);
    Multiple(d, u * k + v * m);
  }

  lemma NonNegative(m: nat, d: nat, t: int)
    requires d > 0 && m == d * t
    ensures t >= 0
  {
    if t < 0 { MulMono(1, -t, d); }
  }

  /** A number divisible by two coprime numbers is divisible by their product. */
  lemma CoprimeProduct(a: nat, b: nat, d: nat, u: int, v: int)
    requires a > 0 && b > 0 && d % a == 0 && d % b == 0 && u * a + v * b == 1
    ensures a * b > 0 && d % (a * b) == 0
  {
    var x := Quotient(d, a);
    var y := Quotient(d, b);
    MulMono(1, a, b);
    calc {
      d;
      d * (u * a + v * b);
      u * a * d + v * b * d;
      u * a * (b * y) + v * b * (a * x);
      a * b * (u * y + v * x);
    }
    NonNegative(d, a * b, u * y + v * x);
    Multiple(a * b, u * y + v * x);
  }

  // ----- orders

  /** The least exponent that gives 1. */
  predicate IsOrder(a: nat, n: nat, d: nat)
    requires n > 0
  {
    d > 0 && Power(a, d) % n == 1 && forall k :: 0 < k < d ==> Power(a, k) % n != 1
  }

  lemma FindOrder(a: nat, n: nat, e: nat) returns (d: nat)
    requires n > 0 && e > 0 && Power(a, e) % n == 1
    ensures IsOrder(a, n, d)
  {
    d := 1;
    while Power(a, d) % n != 1
      invariant 0 < d <= e && forall k :: 0 < k < d ==> Power(a, k) % n != 1
      decreases e - d
    {
      d := d + 1;
    }
  }

  lemma OrderDivides(a: nat, n: nat, d: nat, e: nat)
    requires n > 1 && IsOrder(a, n, d) && Power(a, e) % n == 1
    ensures e % d == 0
  {
    var k, r := e / d, e % d;
    assert e == d * k + r;
    PowerAdd(a, d * k, r);
    PowerPower(a, d, k);
    OneToThe(Power(a, d), k, n);
    ProductMod(Power(a, d * k), Power(a, r), n);
    SmallMod(Power(a, r) % n, n);
    assert Power(a, r) % n == 1;
  }

  lemma CancelPower(a: nat, n: nat, d: nat, i: nat, j: nat)
    requires n > 1 && Power(a, d) % n == 1 && i < j < d && Power(a, i) % n == Power(a, j) % n
    ensures Power(a, j - i) % n == 1
  {
    var b := Power(a, d - i);
    SameProduct(b, b, Power(a, i), Power(a, j), n);
    PowerAdd(a, d - i, i);
    PowerAdd(a, d - i, j);
    PowerAdd(a, d, j - i);
    ProductMod(Power(a, d), Power(a, j - i), n);
    SmallMod(Power(a, j - i) % n, n);
  }

  /** Below the order all powers differ. */
  lemma PowersDiffer(a: nat, n: nat, d: nat, i: nat, j: nat)
    requires n > 1 && IsOrder(a, n, d) && i < j < d
    ensures Power(a, i) % n != Power(a, j) % n
  {
    if Power(a, i) % n == Power(a, j) % n { CancelPower(a, n, d, i, j); }
  }

  lemma PowerNotZero(a: nat, n: nat, d: nat, i: nat)
    requires n > 1 && IsOrder(a, n, d) && i <= d
    ensures Power(a, i) % n != 0
  {
    if Power(a, i) % n == 0 {
      PowerAdd(a, i, d - i);
      ProductMod(Power(a, i), Power(a, d - i), n);
      SmallMod(0, n);
      assert false;
    }
  }

  /** The first i powers. */
  function Powers(a: nat, n: nat, i: nat): set<nat>
    requires n > 0
  {
    if i == 0 then {} else Powers(a, n, i - 1) + {Power(a, i - 1) % n}
  }

  function NonZero(n: nat): set<nat> {
    if n <= 1 then {} else NonZero(n - 1) + {n - 1}
  }

  lemma {:induction false} NonZeroSize(n: nat)
    requires n > 0
    ensures |NonZero(n)| == n - 1 && forall k :: k in NonZero(n) <==> 0 < k < n
  {
    if n > 1 { NonZeroSize(n - 1); }
  }

  lemma {:induction false} NewPower(a: nat, n: nat, i: nat, x: nat)
    requires n > 0 && forall k :: 0 <= k < i ==> Power(a, k) % n != x
    ensures x !in Powers(a, n, i)
  {
    if i > 0 { NewPower(a, n, i - 1, x); }
  }

  lemma {:induction false} PowersSize(a: nat, n: nat, d: nat, i: nat)
    requires n > 1 && IsOrder(a, n, d) && i <= d
    ensures |Powers(a, n, i)| == i
    ensures forall x :: x in Powers(a, n, i) ==> 0 < x < n
  {
    if i > 0 {
      PowersSize(a, n, d, i - 1);
      PowerNotZero(a, n, d, i - 1);
      forall k | 0 <= k < i - 1 ensures Power(a, k) % n != Power(a, i - 1) % n {
        PowersDiffer(a, n, d, k, i - 1);
      }
      NewPower(a, n, i - 1, Power(a, i - 1) % n);
    }
  }

  lemma SubsetSize<T>(a: set<T>, b: set<T>)
    requires a <= b
    ensures |a| <= |b|
  {
    assert b == a + (b - a);
  }

  /** There are fewer powers than numbers below n. */
  lemma OrderBelow(a: nat, n: nat, d: nat)
    requires n > 1 && IsOrder(a, n, d)
    ensures d < n
  {
    PowersSize(a, n, d, d);
    NonZeroSize(n);
    SubsetSize(Powers(a, n, d), NonZero(n));
  }

  // ----- certificates

  /** A divisor p of n for which a to the (n - 1) is 1, and a to the (n - 1) / q - 1 has an inverse, has an order that q divides. */
  lemma OrderModDivisor(n: nat, a: nat, p: nat, q: nat, m: nat, x: nat, w: nat) returns (d: nat)
    requires p > 1 && n > 1 && n % p == 0 && Prime(q) && n - 1 == q * m
    requires Power(a, n - 1) % n == 1 && Power(a, m) % n == x && x >= 1 && (x - 1) * w % n == 1
    ensures IsOrder(a, p, d) && d % q == 0
  {
    RemainderOfRemainder(Power(a, n - 1), n, p);
    SmallMod(1, p);
    d := FindOrder(a, p, n - 1);
    OrderDivides(a, p, d, n - 1);
    if m % d == 0 {
      var k := Quotient(m, d);
      PowerPower(a, d, k);
      OneToThe(Power(a, d), k, p);
      RemainderOfRemainder(Power(a, m), n, p);
      OneLessIsZero(x, p);
      RemainderOfRemainder((x - 1) * w, n, p);
      ProductMod(x - 1, w, p);
      SmallMod(0, p);
      assert false;
    }
    PrimeDivides(q, m, d);
  }

  lemma OneLessIsZero(x: nat, p: nat)
    requires p > 1 && x % p == 1
    ensures x >= 1 && (x - 1) % p == 0
  {
    assert x == p * (x / p) + 1;
    Multiple(p, x / p);
  }

  lemma IsOrderUnique(a: nat, n: nat, d: nat, e: nat)
    requires n > 0 && IsOrder(a, n, d) && IsOrder(a, n, e)
    ensures d == e
  {
  }

  /** When every divisor from 2 on is beyond the square root there is none but the number itself. */
  lemma NoSmallDivisor(n: nat, f: nat)
    requires n > 1 && f * f >= n
    requires forall p :: 1 < p <= n && n % p == 0 ==> p > f
    ensures Prime(n)
  {
    forall p | 1 < p < n ensures n % p != 0 {
      if n % p == 0 {
        var r := Quotient(n, p);
        OtherDivisor(n, p, r);
        MulMono(f, p, r);
        MulMono(f, r, f);
      }
    }
  }

  lemma OtherDivisor(n: nat, p: nat, r: nat)
    requires n == p * r && 1 < p < n
    ensures 1 < r <= n && n % r == 0
  {
    Multiple(r, p);
    if r > n { MulMono(1, p, r); }
  }
}
