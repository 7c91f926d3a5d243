/**
 What the key exchange of skynet/lualib-src/lua-crypt.c says of its modulus, and what its base is good for.
 */
module KeyPrime {
  import opened Arithmetic
  import opened Certificate
  import opened KeyExchange
  import opened NumberTheory

  // ----- small primes

  lemma {:induction false} NothingUpTo(n: nat, f: nat)
    requires n > 1 && f * f >= n && forall p :: 1 < p <= f ==> n % p != 0
    ensures Prime(n)
  {
    NoSmallDivisor(n, f);
  }

  lemma SmallPrimes()
    ensures Prime(11) && Prime(137) && Prime(547) && Prime(1427) && Prime(2131)
  {
    Trial137();
    Trial547();
    Trial1427();
    Trial2131();
  }

  lemma Trial137()
    ensures Prime(137)
  {
    assert forall p :: 1 < p <= 12 ==> 137 % p != 0;
    NothingUpTo(137, 12);
  }

  lemma Trial547()
    ensures Prime(547)
  {
    assert forall p :: 1 < p <= 24 ==> 547 % p != 0;
    NothingUpTo(547, 24);
  }

  lemma Trial1427()
    ensures Prime(1427)
  {
    assert forall p :: 1 < p <= 38 ==> 1427 % p != 0;
    NothingUpTo(1427, 38);
  }

  lemma Trial2131()
    ensures Prime(2131)
  {
    assert forall p :: 1 < p <= 47 ==> 2131 % p != 0;
    NothingUpTo(2131, 47);
  }

  // ----- the large factor of P - 1

  lemma LargePowers(a: nat, n: nat, e: nat, f: nat)
    requires a == 2 && n == LARGE && n - 1 == 1427 * e == 2131 * f
    ensures Power(a, n - 1) % n == 1 && Power(a, e) % n == 2485137133130 && Power(a, f) % n == 1346892610175
  {
    var k := FactorBase(a, n);
    var c := 3541463116380;
    var j := FactorToA(c, n);
    var l := FactorToB(c, n);
    var i := Compose(a, n, k, c, j, 1346892610175);
    var h := Compose(a, n, k, c, l, 2485137133130);
    var m := FactorToAB(2485137133130, n);
    var o := Compose(a, n, h, 2485137133130, m, 1);
    assert i == f && h == e && o == n - 1;
  }

  lemma InverseA(n: nat)
    requires n == LARGE
    ensures 2485137133129 * 2490305414854 % n == 1
  {
    ModUnique(2485137133129 * 2490305414854, 1106225891565, 1, n);
  }

  lemma InverseB(n: nat)
    requires n == LARGE
    ensures 1346892610174 * 1933328135809 % n == 1
  {
    ModUnique(1346892610174 * 1933328135809, 465456810165, 1, n);
  }

  lemma LargeOrderA(n: nat, p: nat, e: nat) returns (d: nat)
    requires n == LARGE && 1 < p <= n && n % p == 0 && n - 1 == 1427 * e
    requires Power(2, n - 1) % n == 1 && Power(2, e) % n == 2485137133130
    ensures IsOrder(2, p, d) && d % 1427 == 0
  {
    SmallPrimes();
    InverseA(n);
    d := OrderModDivisor(n, 2, p, 1427, e, 2485137133130, 2490305414854);
  }

  lemma LargeOrderB(n: nat, p: nat, f: nat) returns (d: nat)
    requires n == LARGE && 1 < p <= n && n % p == 0 && n - 1 == 2131 * f
    requires Power(2, n - 1) % n == 1 && Power(2, f) % n == 1346892610175
    ensures IsOrder(2, p, d) && d % 2131 == 0
  {
    SmallPrimes();
    InverseB(n);
    d := OrderModDivisor(n, 2, p, 2131, f, 1346892610175, 1933328135809);
  }

  /** A divisor of LARGE has an order that both factors divide. */
  lemma LargeOrder(n: nat, p: nat) returns (d: nat)
    requires n == LARGE && 1 < p <= n && n % p == 0
    ensures IsOrder(2, p, d) && d % 1427 == 0 && d % 2131 == 0
  {
    var e, f := 3920443320, 2625280440;
    LargePowers(2, n, e, f);
    d := LargeOrderA(n, p, e);
    var d' := LargeOrderB(n, p, f);
    IsOrderUnique(2, p, d, d');
  }

  lemma LargeDivisor(n: nat, p: nat)
    requires n == LARGE && 1 < p <= n && n % p == 0
    ensures p > 1427 * 2131
  {
    var d := LargeOrder(n, p);
    CoprimeProduct(1427, 2131, d, 2019, -1352);
    DivisorAtMost(d, 1427 * 2131);
    OrderBelow(2, p, d);
  }

  lemma LargeIsPrime()
    ensures Prime(LARGE)
  {
    var n := LARGE;
    forall p | 1 < p <= n && n % p == 0
      ensures p > 1427 * 2131
    {
      LargeDivisor(n, p);
    }
    NoSmallDivisor(n, 1427 * 2131);
  }

  // ----- P

  lemma GHigh(a: nat, n: nat, half: nat, eleventh: nat)
    requires a == G && n == P && n - 1 == 2 * half == 11 * eleventh
    ensures Power(a, n - 1) % n == 1 && Power(a, half) % n != 1 && Power(a, eleventh) % n != 1
  {
    var k := GToLarge(a, n);
    var h := LargeToHigh(899860011295891391, n);
    var e := Compose(a, n, k, 899860011295891391, h, 3769233288523906715);
    var four := HighTo4(3769233288523906715, n);
    var i := Compose(a, n, e, 3769233288523906715, four, 14926365385974592157);
    var many := HighTo22(3769233288523906715, n);
    var j := Compose(a, n, e, 3769233288523906715, many, 18446744073709551556);
    var two := Square22(18446744073709551556, n);
    var l := Compose(a, n, j, 18446744073709551556, two, 1);
    assert i == eleventh && j == half && l == n - 1;
  }

  lemma GLow(a: nat, n: nat, e: nat, f: nat)
    requires a == G && n == P && n - 1 == 137 * e == 547 * f
    ensures Power(a, e) % n != 1 && Power(a, f) % n != 1
  {
    var k := GToLarge(a, n);
    var l := LargeTo44(899860011295891391, n);
    var h := Compose(a, n, k, 899860011295891391, l, 15318189668295695229);
    var j := LowTo547(15318189668295695229, n);
    var i := Compose(a, n, h, 15318189668295695229, j, 3346097404549838006);
    var m := LowTo137(15318189668295695229, n);
    var o := Compose(a, n, h, 15318189668295695229, m, 10807434765896011965);
    assert i == e && o == f;
  }

  lemma InverseP(n: nat)
    requires n == P
    ensures 7293648916228302285 * 11180076022442021863 % n == 1
  {
    ModUnique(7293648916228302285 * 11180076022442021863, 4420484668654931122, 1, n);
  }

  lemma DivisorOfP(n: nat, p: nat)
    requires n == P && 1 < p <= n && n % p == 0
    ensures p > LARGE
  {
    var a: nat := G;
    var r := GToRest(a, n);
    GHigh(a, n, 9223372036854775778, 1676976733973595596);
    LargeIsPrime();
    InverseP(n);
    var d := OrderModDivisor(n, a, p, LARGE, r, 7293648916228302286, 11180076022442021863);
    DivisorAtMost(d, LARGE);
    OrderBelow(a, p, d);
  }

  /** P is prime ... */
  lemma PIsPrime()
    ensures Prime(P)
  {
    var n: nat := P;
    forall p | 1 < p <= n && n % p == 0
      ensures p > LARGE
    {
      DivisorOfP(n, p);
    }
    NoSmallDivisor(n, LARGE);
  }

  lemma Composite(n: nat, f: nat, r: nat)
    requires n == f * r && 1 < f < n
    ensures !Prime(n)
  {
    Multiple(f, r);
  }

  /** ... and no number from there to 2^64 is. */
  lemma NoPrimeBeyond(n: nat)
    requires P < n < WORD
    ensures !Prime(n)
  {
    if n % 2 == 0 {
      Composite(n, 2, n / 2);
    } else {
      match n - P
      case 2 => Composite(n, 41, 449920587163647599);
      case 4 => Composite(n, 3, 6148914691236517187);
      case 6 => Composite(n, 29, 636094623231363847);
      case 8 => Composite(n, 5, 3689348814741910313);
      case 10 => Composite(n, 3, 6148914691236517189);
      case 12 => Composite(n, 31, 595056260442243599);
      case 14 => Composite(n, 11071, 1666222028155501);
      case 16 => Composite(n, 3, 6148914691236517191);
      case 18 => Composite(n, 5, 3689348814741910315);
      case 20 => Composite(n, 139646831, 132095686967);
      case 22 => Composite(n, 3, 6148914691236517193);
      case 24 => Composite(n, 17, 1085102592571150093);
      case 26 => Composite(n, 827, 22305615566758829);
      case 28 => Composite(n, 3, 6148914691236517195);
      case 30 => Composite(n, 13, 1418980313362273199);
      case 32 => Composite(n, 11, 1676976733973595599);
      case 34 => Composite(n, 3, 6148914691236517197);
      case 36 => Composite(n, 7, 2635249153387078799);
      case 38 => Composite(n, 5, 3689348814741910319);
      case 40 => Composite(n, 3, 6148914691236517199);
      case 42 => Composite(n, 19, 970881267037344821);
      case 44 => Composite(n, 53, 348051774975651917);
      case 46 => Composite(n, 3, 6148914691236517201);
      case 48 => Composite(n, 5, 3689348814741910321);
      case 50 => Composite(n, 7, 2635249153387078801);
      case 52 => Composite(n, 3, 6148914691236517203);
      case 54 => Composite(n, 11, 1676976733973595601);
      case 56 => Composite(n, 13, 1418980313362273201);
      case 58 => Composite(n, 3, 6148914691236517205);
    }
  }

  // ----- G

  /** A number that four times m is a multiple of, but not twice m, is a multiple of four. */
  lemma FourDivides(m: nat, d: nat)
    requires d > 0 && 4 * m % d == 0 && 2 * m % d != 0
    ensures d % 4 == 0
  {
    var g, u, v := Bezout(4, d);
    DivisorAtMost(4, g);
    if g == 1 || g == 2 {
      var k := Quotient(4 * m, d);
      TwiceIsMultiple(m, d, k, g, u, v);
      assert false;
    }
    assert g != 3;
  }

  lemma TwiceIsMultiple(m: nat, d: nat, k: nat, g: nat, u: int, v: int)
    requires d > 0 && 4 * m == d * k && g == 4 * u + v * d && (g == 1 || g == 2)
    ensures 2 * m % d == 0
  {
    var c := 2 / g;
    assert c * g == 2;
    calc {
      2 * m;
      c * (4 * u + v * d) * m;
      c * u * (4 * m) + c * v * m * d;
      c * u * (d * k) + c * v * m * d;
      d * (c * u * k + c * v * m);
    }
    NonNegative(2 * m, d, c * u * k + c * v * m);
    Multiple(d, c * u * k + c * v * m);
  }

  /** An exponent whose power is not 1 is no multiple of the order. */
  lemma NotAMultiple(a: nat, n: nat, d: nat, e: nat)
    requires n > 1 && IsOrder(a, n, d) && Power(a, e) % n != 1
    ensures e % d != 0
  {
    if e % d == 0 {
      var k := Quotient(e, d);
      PowerPower(a, d, k);
      OneToThe(Power(a, d), k, n);
    }
  }

  lemma PrimeInOrder(a: nat, n: nat, d: nat, q: nat, m: nat)
    requires n > 1 && IsOrder(a, n, d) && Power(a, n - 1) % n == 1
    requires Prime(q) && n - 1 == q * m && Power(a, m) % n != 1
    ensures d % q == 0
  {
    OrderDivides(a, n, d, n - 1);
    NotAMultiple(a, n, d, m);
    PrimeDivides(q, m, d);
  }

  lemma SmallFactorsOfOrder(a: nat, n: nat, d: nat)
    requires a == G && n == P && IsOrder(a, n, d)
    ensures d % 4 == 0 && d % 11 == 0 && d % 137 == 0 && d % 547 == 0 && (n - 1) % d == 0
  {
    GHigh(a, n, 9223372036854775778, 1676976733973595596);
    GLow(a, n, 134647766961383588, 33723480939139948);
    SmallPrimes();
    PrimeInOrder(a, n, d, 11, 1676976733973595596);
    PrimeInOrder(a, n, d, 137, 134647766961383588);
    PrimeInOrder(a, n, d, 547, 33723480939139948);
    OrderDivides(a, n, d, n - 1);
    NotAMultiple(a, n, d, 9223372036854775778);
    FourDivides(4611686018427387889, d);
  }

  lemma LargeFactorOfOrder(a: nat, n: nat, d: nat)
    requires a == G && n == P && IsOrder(a, n, d)
    ensures d % LARGE == 0
  {
    GHigh(a, n, 9223372036854775778, 1676976733973595596);
    LargeIsPrime();
    var r := GToRest(a, n);
    PrimeInOrder(a, n, d, LARGE, r);
  }

  /** The order of G modulo P is P - 1: every prime power in P - 1 divides it. */
  lemma GGenerates(a: nat, n: nat)
    requires a == G && n == P
    ensures IsOrder(a, n, n - 1)
  {
    GHigh(a, n, 9223372036854775778, 1676976733973595596);
    var d := FindOrder(a, n, n - 1);
    SmallFactorsOfOrder(a, n, d);
    LargeFactorOfOrder(a, n, d);
    AllFactors(d, n);
  }

  lemma AllFactors(d: nat, n: nat)
    requires 0 < d < n == P
    requires d % 4 == 0 && d % 11 == 0 && d % 137 == 0 && d % 547 == 0 && d % LARGE == 0
    ensures d == n - 1
  {
    CoprimeProduct(4, 11, d, 3, -1);
    CoprimeProduct(44, 137, d, 109, -35);
    CoprimeProduct(6028, 547, d, 199, -2193);
    CoprimeProduct(3297316, LARGE, d, 68584681184, -40423);
    DivisorAtMost(d, n - 1);
  }

  /** Different secrets below P have different public keys. */
  lemma KeysDiffer(x: nat, y: nat)
    requires 1 <= x < y < P
    ensures Power(G, x) % P != Power(G, y) % P
  {
    var a: nat, n: nat := G, P;
    GGenerates(a, n);
    if y < n - 1 {
      PowersDiffer(a, n, n - 1, x, y);
    }
  }

  lemma {:induction false} PowerFrom(a: nat, n: nat, i: nat, x: nat) returns (k: nat)
    requires n > 0 && x in Powers(a, n, i)
    ensures k < i && Power(a, k) % n == x
  {
    if x == Power(a, i - 1) % n {
      k := i - 1;
    } else {
      k := PowerFrom(a, n, i - 1, x);
    }
  }

  lemma SameSize<T>(a: set<T>, b: set<T>)
    requires a <= b && |a| == |b|
    ensures a == b
  {
    assert b == a + (b - a);
  }

  /** Every number from 1 to P - 1 is the public key of a secret below P. */
  lemma EveryKey(key: nat) returns (x: nat)
    requires 0 < key < P
    ensures 1 <= x < P && Power(G, x) % P == key
  {
    var a: nat, n: nat := G, P;
    GGenerates(a, n);
    PowersSize(a, n, n - 1, n - 1);
    NonZeroSize(n);
    SameSize(Powers(a, n, n - 1), NonZero(n));
    x := PowerFrom(a, n, n - 1, key);
    if x == 0 {
      SmallMod(1, n);
      x := n - 1;
    }
  }

  /** Some public keys in numbers. */
  lemma SmallKeys(a: nat, n: nat)
    requires a == G && n == P
    ensures Power(a, 1) % n == 5 && Power(a, 2) % n == 25 && Power(a, 28) % n == 359414837200037511
  {
    var k := First(a, n);
    var j := Twice(a, n, k, 5, 0, 25);
    k := TwiceMore(a, n, k, 5, 0, 125);
    k := TwiceMore(a, n, k, 125, 0, 78125);
    k := Twice(a, n, k, 78125, 0, 6103515625);
    k := Twice(a, n, k, 6103515625, 2, 359414837200037511);
  }

  /** So the exchange answers them. */
  method SmallSecrets() returns (first: Result, second: Result, third: Result)
    ensures first == Key(5) && second == Key(25) && third == Key(359414837200037511)
  {
    first := Exchange(1);
    second := Exchange(2);
    third := Exchange(28);
    SmallKeys(G, P);
  }
}
