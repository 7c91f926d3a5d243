/**
 The integer kernel of game_room/luaclib-src/lua-cjson/dtoa.c (Pack_32 with 64-bit accumulators):
 its in-place limb loops are exact integer operations.
 */
module Bignum {
  import opened Arithmetic
  import opened LimbValue

  /** struct Bigint, without the free-list link. */
  class Bigint {
    var k: nat
    var maxwds: nat
    var sign: nat
    var wds: nat
    var x: array<nat>

    ghost predicate Valid()
      reads this, x
    {
      maxwds == TwoTo(k) && x.Length == maxwds && wds <= maxwds && Limbs(x[..wds])
    }

    ghost function Value(): int
      requires Valid()
      reads this, x
    {
      Val(x[..wds])
    }

    /** No high zero limb, so that the number of limbs compares magnitudes. */
    ghost predicate Normal()
      requires Valid()
      reads this, x
    {
      wds > 1 ==> x[wds - 1] > 0
    }

    /** A zero without limbs still has its first limb read by the do-while loops. */
    ghost predicate Cleared()
      requires Valid()
      reads this, x
    {
      wds == 0 ==> x[0] == 0
    }

    /** Balloc. */
    constructor Alloc(k: nat)
      ensures this.k == k && maxwds == TwoTo(k) && x.Length == maxwds && wds == 0 && sign == 0 && fresh(x)
      ensures Valid()
    {
      this.k := k;
      maxwds := TwoTo(k);
      sign, wds := 0, 0;
      x := new nat[TwoTo(k)];
    }
  }

  // ----- multadd

  /** One limb of a multiply-and-add loop: `out` is the finished part, `s` the limbs read so far. */
  lemma MulLimb(out: seq<nat>, s: seq<nat>, m: nat, a: nat, carry: nat, limb: nat, high: nat, low: nat)
    requires |out| == |s| && limb * m + carry == high * BASE + low
    requires Val(out) + At(carry, |s|) == m * Val(s) + a
    ensures Val(out + [low]) + At(high, |s| + 1) == m * Val(s + [limb]) + a
  {
    var n := |s|;
    ValAppend(out, low);
    ValAppend(s, limb);
    AtCarry(high, low, n);
    AtAdd(m * limb, carry, n);
    AtScale(m, limb, n);
    Distribute(m, Val(s), At(limb, n), Val(s + [limb]));
  }

  /** The do-while loop of multadd over `n` limbs; `carry` is what is left for one more. */
  method MulAddLoop(x: array<nat>, n: nat, m: nat, a: nat) returns (carry: nat)
    requires 1 <= n <= x.Length && Limbs(x[..n]) && IsLimb(m) && IsLimb(a)
    modifies x
    ensures Limbs(x[..n]) && IsLimb(carry) && x[n..] == old(x[n..])
    ensures Val(x[..n]) + At(carry, n) == m * old(Val(x[..n])) + a
  {
    ghost var was := x[..];
    var i := 0;
    carry := a;
    while i < n
      invariant 0 <= i <= n && IsLimb(carry)
      invariant x[i..] == was[i..] && Limbs(x[..i])
      invariant Val(x[..i]) + At(carry, i) == m * Val(was[..i]) + a
    {
      ghost var out := x[..i];
      var limb := x[i];
      assert limb == was[i] == was[..n][i];
      var high, low := Accumulate(limb, m, 0, carry);
      MulLimb(out, was[..i], m, a, carry, limb, high, low);
      carry := high;
      x[i] := low;
      assert x[..i + 1] == out + [low] && was[..i + 1] == was[..i] + [limb];
      i := i + 1;
    }
  }

  /** One use of the 64-bit accumulator: it does not overflow, and its two halves are limbs. */
  method Accumulate(limb: nat, y: nat, add: nat, carry: nat) returns (high: nat, low: nat)
    requires IsLimb(limb) && IsLimb(y) && IsLimb(add) && IsLimb(carry)
    ensures IsLimb(high) && IsLimb(low) && limb * y + add + carry == high * BASE + low
  {
    MulFits(limb, y, add, carry);
    var z := Wrap64(limb * y + add + carry);
    high, low := z / BASE, z % BASE;
  }

  /** Multiplying by a positive number without a carry keeps the top limb non-zero. */
  lemma TopStays(was: seq<nat>, now: seq<nat>, m: nat, a: nat)
    requires |was| == |now| && was != [] && was[|was| - 1] > 0 && Limbs(was) && Limbs(now)
    requires m > 0 && Val(now) == m * Val(was) + a
    ensures now[|now| - 1] > 0
  {
    TopBounds(was);
    AtMono(1, was[|was| - 1], |was| - 1);
    AtGrows(0, |was| - 1);
    MulMono(1, m, Val(was));
    TopLimb(now);
  }

  /** The end of multadd: a carry becomes the new top limb, in a larger copy if there is no room. */
  method PushCarry(b: Bigint, carry: nat) returns (r: Bigint)
    requires b.Valid() && IsLimb(carry)
    modifies b, b.x
    ensures r == b || fresh(r)
    ensures r.x == old(b.x) || fresh(r.x)
    ensures r.Valid() && r.wds == old(b.wds) + 1 && r.sign == old(b.sign)
    ensures r.x[..r.wds] == old(b.x[..b.wds]) + [carry]
  {
    r := b;
    if b.wds >= b.maxwds {
      r := new Bigint.Alloc(b.k + 1);
      Copy(r, b);
    }
    ghost var digits := r.x[..r.wds];
    r.x[r.wds] := carry;
    r.wds := r.wds + 1;
    assert r.x[..r.wds] == digits + [carry];
  }

  /** Nothing times m leaves no carry. */
  lemma ZeroProduct(now: seq<nat>, m: nat, carry: nat)
    requires |now| == 1 && Limbs(now) && Val(now) + At(carry, 1) == m * Val([0])
    ensures carry == 0 && Val([0]) == 0
  {
    ValZeros([0]);
    ValBound(now);
    assert At(carry, 1) == BASE * carry;
  }

  /** multadd on a number with limbs. */
  method MultaddLimbs(b: Bigint, m: nat, a: nat) returns (r: Bigint)
    requires b.Valid() && b.Normal() && b.wds > 0 && IsLimb(m) && IsLimb(a)
    modifies b, b.x
    ensures r == b || fresh(r)
    ensures r.x == old(b.x) || fresh(r.x)
    ensures r.Valid() && r.Value() == m * old(b.Value()) + a
    ensures m > 0 ==> r.Normal()
    ensures r.wds >= old(b.wds) && r.sign == old(b.sign)
  {
    var n := b.wds;
    ghost var was := b.x[..n];
    var carry := MulAddLoop(b.x, n, m, a);
    ghost var now := b.x[..n];
    r := b;
    ValAppend(now, carry);
    if carry != 0 {
      r := PushCarry(b, carry);
    } else {
      AtZero(n);
      if n > 1 && m > 0 {
        TopStays(was, now, m, a);
      }
    }
  }

  /** multadd: b * m + a, in place or in a copy with room for the carry. A zero may have no limbs at all. */
  method Multadd(b: Bigint, m: nat, a: nat) returns (r: Bigint)
    requires b.Valid() && b.Normal() && m < 0x8000_0000 && a < 0x8000_0000
    requires b.wds == 0 ==> a == 0 && b.x[0] == 0
    modifies b, b.x
    ensures r == b || fresh(r)
    ensures r.x == old(b.x) || fresh(r.x)
    ensures r.Valid() && r.Value() == m * old(b.Value()) + a
    ensures m > 0 ==> r.Normal()
    ensures r.wds >= old(b.wds) && r.sign == old(b.sign)
  {
    if b.wds > 0 {
      r := MultaddLimbs(b, m, a);
    } else {
      // the do-while runs once, over a zero
      assert b.x[..1] == [0];
      var carry := MulAddLoop(b.x, 1, m, a);
      ZeroProduct(b.x[..1], m, carry);
      r := b;
    }
  }

  /** Bcopy into a number with at least as much room. */
  method Copy(to: Bigint, from: Bigint)
    requires from.Valid() && to != from && to.x != from.x
    requires to.maxwds == TwoTo(to.k) && to.x.Length == to.maxwds && from.wds < to.maxwds
    modifies to, to.x
    ensures to.x == old(to.x) && to.k == old(to.k) && to.maxwds == old(to.maxwds)
    ensures to.wds == from.wds && to.sign == from.sign && to.x[..to.wds] == from.x[..from.wds]
  {
    to.sign := from.sign;
    to.wds := from.wds;
    var i := 0;
    while i < from.wds
      invariant 0 <= i <= from.wds && to.wds == from.wds && to.sign == from.sign
      invariant to.x == old(to.x) && to.k == old(to.k) && to.maxwds == old(to.maxwds)
      invariant to.x[..i] == from.x[..i]
    {
      to.x[i] := from.x[i];
      assert to.x[..i + 1] == to.x[..i] + [from.x[i]];
      assert from.x[..i + 1] == from.x[..i] + [from.x[i]];
      i := i + 1;
    }
  }

  // ----- mult

  /** One limb of a row of the schoolbook product: limb * y + c + carry. */
  lemma RowLimb(out: seq<nat>, s: seq<nat>, under: seq<nat>, y: nat, carry: nat, limb: nat, c: nat,
                high: nat, low: nat)
    requires |out| == |s| == |under| && limb * y + c + carry == high * BASE + low
    requires Val(out) + At(carry, |s|) == Val(under) + y * Val(s)
    ensures Val(out + [low]) + At(high, |s| + 1) == Val(under + [c]) + y * Val(s + [limb])
  {
    var n := |s|;
    ValAppend(out, low);
    ValAppend(s, limb);
    ValAppend(under, c);
    AtCarry(high, low, n);
    AtAdd(y * limb, c, n);
    AtAdd(y * limb + c, carry, n);
    AtScale(y, limb, n);
    Distribute(y, Val(s), At(limb, n), Val(s + [limb]));
  }

  /** The do-while loop of one row: y times a[..n] is added to c[at..at + n]. */
  method RowLoop(c: array<nat>, at: nat, a: array<nat>, n: nat, y: nat) returns (carry: nat)
    requires c != a && 1 <= n <= a.Length && at + n < c.Length
    requires Limbs(a[..n]) && Limbs(c[at..at + n]) && IsLimb(y)
    modifies c
    ensures Limbs(c[at..at + n]) && IsLimb(carry)
    ensures forall j :: 0 <= j < at || at + n <= j < c.Length ==> c[j] == old(c[j])
    ensures Val(c[at..at + n]) + At(carry, n) == old(Val(c[at..at + n])) + y * Val(a[..n])
  {
    ghost var was := c[at..at + n];
    ghost var out: seq<nat>, under: seq<nat>, row: seq<nat> := [], [], [];
    var i := 0;
    carry := 0;
    while i < n
      invariant 0 <= i <= n && IsLimb(carry)
      invariant forall j :: 0 <= j < at || at + n <= j < c.Length ==> c[j] == old(c[j])
      invariant forall j :: i <= j < n ==> c[at + j] == was[j]
      invariant |out| == i && Limbs(out) && forall j :: 0 <= j < i ==> c[at + j] == out[j]
      invariant under == was[..i] && row == a[..i] && Val(out) + At(carry, i) == Val(under) + y * Val(row)
    {
      var limb, add := a[i], c[at + i];
      assert limb == a[..n][i] && add == was[i];
      var high, low := Accumulate(limb, y, add, carry);
      RowLimb(out, row, under, y, carry, limb, add, high, low);
      carry := high;
      c[at + i] := low;
      out, under, row := out + [low], under + [add], row + [limb];
      i := i + 1;
    }
    assert was[..n] == was && c[at..at + n] == out;
  }

  /** One row, with the carry stored above it. */
  method MultRow(c: array<nat>, at: nat, a: array<nat>, n: nat, y: nat)
    requires c != a && 1 <= n <= a.Length && at + n < c.Length
    requires Limbs(a[..n]) && Limbs(c[at..at + n]) && IsLimb(y)
    modifies c
    ensures Limbs(c[at..at + n + 1])
    ensures forall j :: 0 <= j < at || at + n < j < c.Length ==> c[j] == old(c[j])
    ensures Val(c[at..at + n + 1]) == old(Val(c[at..at + n])) + y * Val(a[..n])
  {
    var carry := RowLoop(c, at, a, n, y);
    ghost var row := c[at..at + n];
    c[at + n] := carry;
    assert c[at..at + n + 1] == row + [carry];
    ValAppend(row, carry);
  }

  lemma RowSum(low: int, was: int, now: int, a: int, b: int, y: int, b': int, n: nat)
    requires low + At(was, n) == a * b && now == was + y * a && b' == b + At(y, n)
    ensures low + At(now, n) == a * b'
  {
    AtAdd(was, a * y, n);
    AtScale(a, y, n);
    Distribute(a, b, At(y, n), b');
  }

  /** A row that starts at limb |b| counts that many positions up. */
  lemma RowCounts(low: seq<nat>, was: seq<nat>, now: seq<nat>, a: int, b: seq<nat>, y: nat)
    requires |low| == |b| && Val(now) == Val(was) + y * a && Val(low + was) == a * Val(b)
    ensures Val(low + now) == a * Val(b + [y])
  {
    ValConcat(low, was);
    ValConcat(low, now);
    ValAppend(b, y);
    RowSum(Val(low), Val(was), Val(now), a, Val(b), y, Val(b + [y]), |b|);
  }

  /** A zero limb of b adds no row. */
  lemma RowSkipped(done: seq<nat>, a: int, b: seq<nat>)
    requires Val(done) == a * Val(b)
    ensures Val(done + [0]) == a * Val(b + [0])
  {
    ValAppend(done, 0);
    ValAppend(b, 0);
    AtZero(|done|);
    AtZero(|b|);
  }

  /** One turn of the outer loop of mult, for limb y of b above the limbs `bs`. */
  method AddRow(c: array<nat>, a: array<nat>, wa: nat, y: nat, ghost bs: seq<nat>, j: nat)
    requires c != a && 1 <= wa <= a.Length && |bs| == j && wa + j < c.Length && IsLimb(y)
    requires Limbs(a[..wa]) && Limbs(c[..wa + j]) && c[wa + j] == 0
    requires Val(c[..wa + j]) == Val(a[..wa]) * Val(bs)
    modifies c
    ensures Limbs(c[..wa + j + 1]) && forall i :: wa + j < i < c.Length ==> c[i] == old(c[i])
    ensures Val(c[..wa + j + 1]) == Val(a[..wa]) * Val(bs + [y])
  {
    ghost var done, low, was := c[..wa + j], c[..j], c[j..j + wa];
    assert done == low + was;
    if y != 0 {
      MultRow(c, j, a, wa, y);
      ghost var now := c[j..j + wa + 1];
      assert c[..wa + j + 1] == low + now;
      RowCounts(low, was, now, Val(a[..wa]), bs, y);
    } else {
      assert c[..wa + j + 1] == done + [0];
      RowSkipped(done, Val(a[..wa]), bs);
    }
  }

  /** The rows of the product: c[..wa + j] is a times the j low limbs of b. */
  method MultRows(c: array<nat>, a: array<nat>, wa: nat, b: array<nat>, wb: nat)
    requires c != a && c != b && wb <= wa <= a.Length && wb <= b.Length && wa + wb <= c.Length
    requires Limbs(a[..wa]) && Limbs(b[..wb]) && forall i :: 0 <= i < wa + wb ==> c[i] == 0
    modifies c
    ensures Limbs(c[..wa + wb]) && Val(c[..wa + wb]) == Val(a[..wa]) * Val(b[..wb])
  {
    ValZeros(c[..wa]);
    ghost var bs: seq<nat> := [];
    assert Val(bs) == 0;
    var j := 0;
    while j < wb
      invariant 0 <= j <= wb && Limbs(c[..wa + j])
      invariant forall i :: wa + j <= i < wa + wb ==> c[i] == 0
      invariant bs == b[..j] && Val(c[..wa + j]) == Val(a[..wa]) * Val(bs)
    {
      assert b[j] == b[..wb][j];
      AddRow(c, a, wa, b[j], bs, j);
      bs := bs + [b[j]];
      j := j + 1;
    }
  }

  /** The number of limbs of x[..n] without high zeros. */
  method Trimmed(x: array<nat>, n: nat) returns (w: nat)
    requires n <= x.Length && Limbs(x[..n])
    ensures w <= n && Limbs(x[..w]) && (w > 0 ==> x[w - 1] > 0) && Val(x[..w]) == Val(x[..n])
    ensures w == 0 ==> Val(x[..n]) == 0
  {
    w := n;
    while w > 0 && x[w - 1] == 0
      invariant w <= n && forall i :: w <= i < n ==> x[i] == 0
    {
      w := w - 1;
    }
    ValTrim(x[..n], w);
    LimbsPrefix(x[..n], w);
    assert x[..n][..w] == x[..w];
  }

  /** The clearing loop of mult and of lshift. */
  method Clear(x: array<nat>, n: nat)
    requires n <= x.Length
    modifies x
    ensures forall j :: 0 <= j < n ==> x[j] == 0
  {
    for i := 0 to n
      invariant forall j :: 0 <= j < i ==> x[j] == 0
    {
      x[i] := 0;
    }
  }

  /** mult after the swap that makes `a` the longer number. */
  method MultLonger(a: Bigint, b: Bigint) returns (c: Bigint)
    requires a.Valid() && b.Valid() && b.wds <= a.wds
    ensures fresh(c) && fresh(c.x) && c.Valid() && c.sign == 0
    ensures c.Value() == a.Value() * b.Value()
    ensures c.wds > 0 ==> c.x[c.wds - 1] > 0
  {
    var k, wc := a.k, a.wds + b.wds;
    if wc > a.maxwds {
      k := k + 1;
    }
    c := new Bigint.Alloc(k);
    var x := c.x;
    Clear(x, wc);
    MultRows(x, a.x, a.wds, b.x, b.wds);
    c.wds := Trimmed(x, wc);
  }

  /** mult: the product, normalised. */
  method Mult(a: Bigint, b: Bigint) returns (c: Bigint)
    requires a.Valid() && b.Valid()
    ensures fresh(c) && fresh(c.x) && c.Valid() && c.sign == 0
    ensures c.Value() == a.Value() * b.Value()
    ensures c.wds > 0 ==> c.x[c.wds - 1] > 0
  {
    if a.wds < b.wds {
      c := MultLonger(b, a);
    } else {
      c := MultLonger(a, b);
    }
  }

  // ----- cmp

  /** The limb loop of cmp, from the top down. */
  method CmpLimbs(a: array<nat>, b: array<nat>, n: nat) returns (r: int)
    requires n <= a.Length && n <= b.Length && Limbs(a[..n]) && Limbs(b[..n])
    ensures -1 <= r <= 1
    ensures (r < 0 <==> Val(a[..n]) < Val(b[..n])) && (r > 0 <==> Val(a[..n]) > Val(b[..n]))
  {
    var i := n;
    ghost var s, t := a[..n], b[..n];
    while i > 0
      invariant 0 <= i <= n && forall j :: i <= j < n ==> s[j] == t[j]
    {
      i := i - 1;
      if a[i] != b[i] {
        assert s[i] == a[i] && t[i] == b[i];
        if a[i] < b[i] {
          ValCompare(s, t, i);
          return -1;
        } else {
          ValCompare(t, s, i);
          return 1;
        }
      }
    }
    assert s == t;
    return 0;
  }

  /** Zero without limbs and zero with one limb. */
  ghost predicate TwoZeros(a: Bigint, b: Bigint)
    requires a.Valid() && b.Valid()
    reads a, a.x, b, b.x
  {
    a.wds + b.wds == 1 && a.Value() == b.Value() == 0
  }

  /**
   cmp: the sign of the result is the order of the values, except that it tells the two forms of zero
   apart. Two numbers without limbs make it read in front of them.
   */
  method Cmp(a: Bigint, b: Bigint) returns (r: int)
    requires a.Valid() && b.Valid() && a.Normal() && b.Normal() && (a.wds > 0 || b.wds > 0)
    ensures (r < 0 <==> a.Value() < b.Value()) && (r > 0 <==> a.Value() > b.Value()) <==> !TwoZeros(a, b)
    ensures (r < 0 ==> a.wds <= b.wds) && (r >= 0 ==> a.wds >= b.wds)
  {
    r := a.wds - b.wds;
    if r < 0 {
      LongerIsLarger(a, b);
    } else if r > 0 {
      LongerIsLarger(b, a);
    } else {
      r := CmpLimbs(a.x, b.x, a.wds);
    }
  }

  lemma LongerIsLarger(a: Bigint, b: Bigint)
    requires a.Valid() && b.Valid() && b.Normal() && a.wds < b.wds
    ensures if TwoZeros(a, b) then a.Value() == b.Value() else a.Value() < b.Value()
  {
    var s, t := a.x[..a.wds], b.x[..b.wds];
    if t[|t| - 1] > 0 {
      FewerLimbs(s, t);
      ValBound(s);
    } else {
      ValZeros(t);
    }
  }

  // ----- diff

  /** One limb of a subtraction, with the borrow out. */
  lemma SubLimb(out: seq<nat>, s: seq<nat>, v: int, borrow: nat, u: nat, limb: nat, next: nat, low: nat)
    requires |out| == |s| && u - limb - borrow == low - next * BASE
    requires Val(out) == Val(s) - v + At(borrow, |s|)
    ensures Val(out + [low]) == Val(s + [u]) - (v + At(limb, |s|)) + At(next, |s| + 1)
  {
    var n := |s|;
    ValAppend(out, low);
    ValAppend(s, u);
    AtAdd(u - limb - borrow, limb, n);
    AtAdd(u - borrow, borrow, n);
    AtCarry(0 - next, low, n);
    AtScale(-1, next, n + 1);
  }

  /** One 64-bit difference of limbs: the borrow comes out of bit 32. */
  method Borrow(u: nat, v: nat, borrow: nat) returns (next: nat, low: nat)
    requires IsLimb(u) && IsLimb(v) && borrow <= 1
    ensures next <= 1 && IsLimb(low) && u - v - borrow == low - next * BASE
  {
    BorrowStep(u - v - borrow);
    var y := Wrap64(u - v - borrow);
    next, low := y / BASE % 2, y % BASE;
  }

  /** The first loop of diff, a do-while over the limbs both numbers have. */
  method SubCommon(c: array<nat>, a: array<nat>, b: array<nat>, n: nat) returns (borrow: nat)
    requires c != a && c != b && n <= a.Length && n <= b.Length && n <= c.Length
    requires Limbs(a[..n]) && Limbs(b[..n])
    modifies c
    ensures Limbs(c[..n]) && borrow <= 1
    ensures Val(c[..n]) == Val(a[..n]) - Val(b[..n]) + At(borrow, n)
  {
    var i := 0;
    borrow := 0;
    while i < n
      invariant 0 <= i <= n && borrow <= 1 && Limbs(c[..i])
      invariant Val(c[..i]) == Val(a[..i]) - Val(b[..i]) + At(borrow, i)
    {
      ghost var out := c[..i];
      var u, v := a[i], b[i];
      assert u == a[..n][i] && v == b[..n][i];
      var next, limb := Borrow(u, v, borrow);
      SubLimb(out, a[..i], Val(b[..i]), borrow, u, v, next, limb);
      ValAppend(b[..i], v);
      borrow := next;
      c[i] := limb;
      assert c[..i + 1] == out + [limb] && a[..i + 1] == a[..i] + [u] && b[..i + 1] == b[..i] + [v];
      i := i + 1;
    }
  }

  /** The second loop of diff: the borrow runs on through the limbs only a has; `v` is the value of b. */
  method SubRest(c: array<nat>, a: array<nat>, wb: nat, wa: nat, ghost v: int, low: nat) returns (borrow: nat)
    requires c != a && wb <= wa <= a.Length && wa <= c.Length
    requires Limbs(a[..wa]) && Limbs(c[..wb]) && low <= 1
    requires Val(c[..wb]) == Val(a[..wb]) - v + At(low, wb)
    modifies c
    ensures Limbs(c[..wa]) && borrow <= 1
    ensures Val(c[..wa]) == Val(a[..wa]) - v + At(borrow, wa)
  {
    var i := wb;
    borrow := low;
    while i < wa
      invariant wb <= i <= wa && borrow <= 1 && Limbs(c[..i])
      invariant Val(c[..i]) == Val(a[..i]) - v + At(borrow, i)
    {
      ghost var out := c[..i];
      var u := a[i];
      assert u == a[..wa][i];
      var next, limb := Borrow(u, 0, borrow);
      SubLimb(out, a[..i], v, borrow, u, 0, next, limb);
      AtZero(i);
      borrow := next;
      c[i] := limb;
      assert c[..i + 1] == out + [limb] && a[..i + 1] == a[..i] + [u];
      i := i + 1;
    }
  }

  /** A difference that is not negative leaves no borrow. */
  lemma NoBorrow(out: seq<nat>, d: int, borrow: nat)
    requires Limbs(out) && 0 <= d && Val(out) == d + At(borrow, |out|)
    ensures borrow == 0 && Val(out) == d
  {
    ValBound(out);
    AtZero(|out|);
    if borrow > 0 { AtMono(1, borrow, |out|); }
  }

  /** The part of diff after the order of the two numbers is known. */
  method Subtract(a: Bigint, b: Bigint, sign: nat) returns (c: Bigint)
    requires a.Valid() && b.Valid() && 0 < a.wds && b.wds <= a.wds && b.Value() < a.Value() && b.Cleared()
    ensures fresh(c) && fresh(c.x) && c.Valid() && c.Normal() && c.wds > 0 && c.sign == sign
    ensures c.Value() == a.Value() - b.Value()
  {
    c := new Bigint.Alloc(a.k);
    c.sign := sign;
    var x, wa := c.x, a.wds;
    ghost var d := a.Value() - b.Value();
    var wb := if b.wds > 0 then b.wds else 1;
    if b.wds == 0 { ValZeros(b.x[..1]); }
    LimbsPrefix(a.x[..wa], wb);
    assert a.x[..wa][..wb] == a.x[..wb];
    var low := SubCommon(x, a.x, b.x, wb);
    var borrow := SubRest(x, a.x, wb, wa, Val(b.x[..wb]), low);
    NoBorrow(x[..wa], d, borrow);
    c.wds := Trimmed(x, wa);
  }

  /** diff: the absolute difference, with `sign` telling that a was the smaller. */
  method Diff(p: Bigint, q: Bigint) returns (c: Bigint)
    requires p.Valid() && q.Valid() && p.Normal() && q.Normal() && (p.wds > 0 || q.wds > 0)
    requires p.Cleared() && q.Cleared() && !TwoZeros(p, q)
    ensures fresh(c) && fresh(c.x) && c.Valid() && c.Normal() && c.wds > 0
    ensures c.Value() == (if p.Value() < q.Value() then q.Value() - p.Value() else p.Value() - q.Value())
    ensures c.sign == (if p.Value() < q.Value() then 1 else 0)
  {
    var i := Cmp(p, q);
    if i < 0 {
      c := Subtract(q, p, 1);
    } else if i > 0 {
      c := Subtract(p, q, 0);
    } else {
      c := new Bigint.Alloc(0);
      c.wds := 1;
      c.x[0] := 0;
      ValZeros(c.x[..1]);
    }
  }

  // ----- lshift

  lemma TwoTo32()
    ensures TwoTo(32) == BASE
  {
    assert TwoTo(8) == 256;
    TwoToAdd(8, 8);
    TwoToAdd(16, 16);
  }

  /** A whole number of limbs is a multiple of 32 bits. */
  lemma {:induction false} AtTwoTo(v: int, n: nat)
    ensures At(v, n) == v * TwoTo(32 * n)
  {
    if n > 0 {
      AtTwoTo(v, n - 1);
      TwoTo32();
      TwoToAdd(32, 32 * (n - 1));
      var t := TwoTo(32 * (n - 1));
      assert BASE * (v * t) == v * (BASE * t);
    } else {
      assert TwoTo(0) == 1;
    }
  }

  lemma ShiftedDigits(q: nat, r: nat, up: nat, down: nat, base: nat)
    requires up * down == base && r < down
    ensures (down * q + r) * up == q * base + r * up && r * up + up <= base
  {
    assert (down * q + r) * up == q * (up * down) + r * up;
    MulMono(r + 1, down, up);
    Distribute(up, r, 1, r + 1);
  }

  lemma ShiftParts(limb: nat, z: nat, up: nat, down: nat, base: nat)
    requires up > 0 && down > 0 && up * down == base && z < up && limb < base
    ensures limb * up + z == limb / down * base + (limb * up % base + z)
    ensures limb * up % base == limb % down * up
    ensures limb * up % base + z < base && limb / down < up
  {
    var q, r := limb / down, limb % down;
    ShiftedDigits(q, r, up, down, base);
    ModUnique(limb * up, q, r * up, base);
    if q >= up {
      MulMono(up, q, down);
    }
  }

  /** One limb of the loop of lshift, `x << k | z` and `x >> k1`: the new limb, and the bits that go to the next one. */
  method ShiftLimb(limb: nat, z: nat, k: nat) returns (high: nat, low: nat)
    requires IsLimb(limb) && 0 < k < 32 && z < TwoTo(k)
    ensures IsLimb(low) && high < TwoTo(k) && limb * TwoTo(k) + z == high * BASE + low
  {
    var up, down := TwoTo(k), TwoTo(32 - k);
    assert up * down == BASE by {
      TwoTo32();
      TwoToAdd(k, 32 - k);
    }
    ShiftParts(limb, z, up, down, BASE);
    OrDisjoint(limb % down, z, k);
    low := BitOr(limb * up % BASE, z);
    high := limb / down;
  }

  /** The shifting do-while loop: x[..n] times 2 to the k, written to y at `at`. */
  method ShiftLoop(y: array<nat>, at: nat, x: array<nat>, n: nat, k: nat) returns (z: nat)
    requires y != x && 1 <= n <= x.Length && at + n <= y.Length && Limbs(x[..n]) && 0 < k < 32
    modifies y
    ensures Limbs(y[at..at + n]) && IsLimb(z) && forall j :: 0 <= j < at ==> y[j] == old(y[j])
    ensures Val(y[at..at + n]) + At(z, n) == TwoTo(k) * Val(x[..n])
  {
    TwoToGrows(k, 32);
    TwoTo32();
    ghost var m := TwoTo(k);
    ghost var out: seq<nat> := [];
    var i := 0;
    z := 0;
    while i < n
      invariant 0 <= i <= n && z < m
      invariant forall j :: 0 <= j < at ==> y[j] == old(y[j])
      invariant |out| == i && Limbs(out) && forall j :: 0 <= j < i ==> y[at + j] == out[j]
      invariant Val(out) + At(z, i) == m * Val(x[..i])
    {
      var limb := x[i];
      assert limb == x[..n][i] && x[..i + 1] == x[..i] + [limb];
      var high, low := ShiftLimb(limb, z, k);
      MulLimb(out, x[..i], m, 0, z, limb, high, low);
      z := high;
      y[at + i] := low;
      out := out + [low];
      i := i + 1;
    }
    assert y[at..at + n] == out;
  }

  /** The plain copy of lshift when the shift is a whole number of limbs. */
  method CopyLoop(y: array<nat>, at: nat, x: array<nat>, n: nat)
    requires y != x && 1 <= n <= x.Length && at + n <= y.Length
    modifies y
    ensures y[at..at + n] == x[..n] && forall j :: 0 <= j < at ==> y[j] == old(y[j])
  {
    var i := 0;
    while i < n
      invariant 0 <= i <= n && forall j :: 0 <= j < at ==> y[j] == old(y[j])
      invariant forall j :: 0 <= j < i ==> y[at + j] == x[j]
    {
      y[at + i] := x[i];
      i := i + 1;
    }
  }

  /** A number under `n` zero limbs. */
  lemma ShiftedValue(low: seq<nat>, s: seq<nat>, v: int, n: nat, k: nat)
    requires |low| == n && (forall i :: 0 <= i < n ==> low[i] == 0) && Val(s) == TwoTo(k) * v
    ensures Val(low + s) == v * TwoTo(32 * n + k)
  {
    ValConcat(low, s);
    ValZeros(low);
    AtTwoTo(Val(s), n);
    TwoToAdd(32 * n, k);
    Reorder(TwoTo(k), v, TwoTo(32 * n));
  }

  lemma Reorder(t: int, v: int, p: int)
    ensures t * v * p == v * (p * t)
  {
  }

  /** The room lshift asks for. */
  method RoomFor(b: Bigint, n1: nat) returns (k1: nat)
    requires b.Valid()
    ensures b.k <= k1 && n1 <= TwoTo(k1)
  {
    k1 := b.k;
    var i := b.maxwds;
    while n1 > i
      invariant i == TwoTo(k1) && b.k <= k1
      decreases n1 - i
    {
      k1, i := k1 + 1, i * 2;
    }
  }

  /** x[..n] times 2 to the `bits`, written above `at`; tells whether one more limb was needed. */
  method ShiftBits(y: array<nat>, at: nat, x: array<nat>, n: nat, bits: nat) returns (more: nat)
    requires y != x && 1 <= n <= x.Length && Limbs(x[..n]) && bits < 32
    requires at + n <= y.Length && (bits != 0 ==> at + n < y.Length)
    modifies y
    ensures more <= 1 && at + n + more <= y.Length && Limbs(y[at..at + n + more]) && forall j :: 0 <= j < at ==> y[j] == old(y[j])
    ensures Val(y[at..at + n + more]) == TwoTo(bits) * Val(x[..n])
    ensures x[n - 1] > 0 || more == 1 ==> y[at + n + more - 1] > 0
  {
    more := 0;
    if bits != 0 {
      var z := ShiftLoop(y, at, x, n, bits);
      AtZero(n);
      ghost var s := y[at..at + n];
      y[at + n] := z;
      assert y[at..at + n] == s && y[at..at + n + 1] == s + [z];
      ValAppend(s, z);
      if z != 0 {
        more := 1;
      } else if x[n - 1] > 0 {
        TopStays(x[..n], s, TwoTo(bits), 0);
      }
    } else {
      CopyLoop(y, at, x, n);
      assert TwoTo(0) == 1;
      assert y[at + n - 1] == y[at..at + n][n - 1];
    }
  }

  /** The limbs of the result: `n` zeros below the shifted bits. */
  lemma ShiftResult(t: seq<nat>, n: nat, v: int, k: nat)
    requires n == k / 32 <= |t| && (forall j :: 0 <= j < n ==> t[j] == 0) && Limbs(t[n..])
    requires Val(t[n..]) == TwoTo(k % 32) * v
    ensures Limbs(t) && Val(t) == v * TwoTo(k)
  {
    assert t == t[..n] + t[n..];
    assert forall j :: n <= j < |t| ==> t[j] == t[n..][j - n];
    ShiftedValue(t[..n], t[n..], v, n, k % 32);
    assert 32 * n + k % 32 == k;
  }

  /** The limb behind the last one, which lshift writes unless it shifts whole limbs: a zero without limbs has it only then. */
  ghost predicate RoomBehind(b: Bigint, k: nat)
    reads b
  {
    b.wds == 0 && k % 32 != 0 ==> forall e :: b.k <= e ==> TwoTo(e) != k / 32 + 1
  }

  /** The limbs of lshift's result, and how many there are. */
  method ShiftInto(y: array<nat>, b: Bigint, k: nat) returns (w: nat)
    requires b.Valid() && b.Cleared() && y != b.x
    requires k / 32 + b.wds + 1 <= y.Length && (b.wds == 0 && k % 32 != 0 ==> k / 32 + 1 < y.Length)
    modifies y
    ensures w <= y.Length && Limbs(y[..w]) && Val(y[..w]) == old(b.Value()) * TwoTo(k)
    ensures b.wds > 0 ==> w > 0 && (b.x[b.wds - 1] > 0 ==> y[w - 1] > 0)
  {
    var n, wds := k / 32, b.wds;
    Clear(y, n);
    var more := ShiftBits(y, n, b.x, if wds > 0 then wds else 1, k % 32);
    w := n + wds + more;
    if wds > 0 {
      assert y[..w][n..] == y[n..n + wds + more];
      ShiftResult(y[..w], n, b.Value(), k);
    } else {
      ZeroStays(b.x[..1], y[n..n + 1 + more], TwoTo(k % 32));
      ValZeros(y[..n]);
    }
  }

  /** lshift: b * 2^k. */
  method Lshift(b: Bigint, k: nat) returns (r: Bigint)
    requires b.Valid() && b.Cleared() && RoomBehind(b, k)
    ensures fresh(r) && fresh(r.x) && r.Valid() && r.sign == 0
    ensures r.Value() == b.Value() * TwoTo(k)
    ensures b.wds > 0 ==> r.wds > 0 && (b.x[b.wds - 1] > 0 ==> r.x[r.wds - 1] > 0)
  {
    var k1 := RoomFor(b, k / 32 + b.wds + 1);
    r := new Bigint.Alloc(k1);
    r.wds := ShiftInto(r.x, b, k);
  }

  /** A shifted zero has no limb above its first. */
  lemma ZeroStays(s: seq<nat>, t: seq<nat>, m: nat)
    requires s == [0] && Limbs(t) && Val(t) == m * Val(s) && 1 <= |t| <= 2 && (|t| == 2 ==> t[1] > 0)
    ensures |t| == 1
  {
    ValZeros(s);
    if |t| == 2 {
      TopBounds(t);
    }
  }

  // ----- pow5mult

  function Five(n: nat): (p: nat)
    ensures p > 0
  {
    if n == 0 then 1 else 5 * Five(n - 1)
  }

  lemma {:induction false} FiveAdd(a: nat, b: nat)
    ensures Five(a + b) == Five(a) * Five(b)
  {
    if b > 0 {
      FiveAdd(a, b - 1);
      assert Five(a + b) == 5 * (Five(a) * Five(b - 1)) == Five(a) * (5 * Five(b - 1));
    }
  }

  /** The list p5s: its j-th number is 5 to the 4 * 2^j. */
  class PowerList {
    var list: seq<Bigint>

    ghost predicate Valid()
      reads this, list, set p | p in list :: p.x
    {
      forall j :: 0 <= j < |list| ==> Entry(j)
    }

    ghost predicate Entry(j: nat)
      reads this, list, set p | p in list :: p.x
    {
      j < |list| && list[j].Valid() && list[j].Value() == Five(4 * TwoTo(j))
    }

    constructor ()
      ensures Valid() && list == []
    {
      list := [];
    }

    method Append(p: Bigint)
      requires Valid() && p.Valid() && p.Value() == Five(4 * TwoTo(|list|))
      modifies this
      ensures Valid() && list == old(list) + [p]
    {
      assert forall i :: 0 <= i < |list| ==> Entry(i);
      list := list + [p];
      assert forall i :: 0 <= i < |old(list)| ==> old(Entry(i)) && list[i] == old(list[i]);
    }

    /** p5s or p5->next: the next number, made on its first use. */
    method Grow(j: nat)
      requires Valid() && j <= |list|
      modifies this
      ensures Valid() && j < |list|
      ensures old(list) <= list && forall p :: p in list[|old(list)|..] ==> fresh(p) && fresh(p.x)
    {
      if j < |list| {
        return;
      }
      var p: Bigint;
      if j == 0 {
        p := new Bigint.Alloc(1);
        p.x[0] := 625;
        p.wds := 1;
        ValAppend([], 625);
        assert p.x[..1] == [] + [625];
        assert Five(4 * TwoTo(0)) == 625;
      } else {
        assert Entry(j - 1);
        p := Mult(list[j - 1], list[j - 1]);
        FiveAdd(4 * TwoTo(j - 1), 4 * TwoTo(j - 1));
      }
      Append(p);
    }
  }

  lemma FiveSplit(v: int, e: nat, f: nat)
    ensures v * Five(e + f) == v * Five(e) * Five(f)
  {
    FiveAdd(e, f);
    var p, q := Five(e), Five(f);
    assert v * (p * q) == v * p * q;
  }

  lemma HalveExponent(t: nat, k: nat)
    ensures 4 * t * k == 4 * (2 * t) * (k / 2) + (if k % 2 == 1 then 4 * t else 0)
  {
    var h := k / 2;
    assert k == 2 * h + k % 2;
    assert 4 * t * (2 * h) == 4 * (2 * t) * h;
    Distribute(4 * t, 2 * h, k % 2, k);
  }

  /** One binary digit of the exponent. */
  lemma Digit(v: int, all: int, j: nat, k: nat)
    requires v * Five(4 * TwoTo(j) * k) == all
    ensures (if k % 2 == 1 then v * Five(4 * TwoTo(j)) else v) * Five(4 * TwoTo(j + 1) * (k / 2)) == all
  {
    HalveExponent(TwoTo(j), k);
    if k % 2 == 1 {
      FiveSplit(v, 4 * TwoTo(j), 4 * TwoTo(j + 1) * (k / 2));
    }
  }

  /** The squaring loop of pow5mult, for an exponent 4 * k. */
  method PowerLoop(b: Bigint, exponent: nat, p5s: PowerList) returns (r: Bigint)
    requires b.Valid() && p5s.Valid() && exponent > 0
    modifies p5s
    ensures r == b || (fresh(r) && fresh(r.x))
    ensures p5s.Valid() && r.Valid() && r.Value() == b.Value() * Five(4 * exponent)
  {
    var k, j := exponent, 0;
    r := b;
    p5s.Grow(0);
    ghost var all := b.Value() * Five(4 * exponent);
    while true
      invariant k > 0 && p5s.Valid() && j < |p5s.list|
      invariant r == b || (fresh(r) && fresh(r.x))
      invariant r.Valid() && r.Value() * Five(4 * TwoTo(j) * k) == all
      decreases k
    {
      ghost var v := r.Value();
      assert p5s.Entry(j);
      if k % 2 == 1 {
        r := Mult(r, p5s.list[j]);
      }
      Digit(v, all, j, k);
      k := k / 2;
      if k == 0 {
        break;
      }
      p5s.Grow(j + 1);
      j := j + 1;
    }
  }

  /** The factor 5, 25 or 125 for the two low bits of the exponent. */
  method LowPower(b: Bigint, i: nat) returns (r: Bigint)
    requires b.Valid() && b.Normal() && b.wds > 0 && i < 4
    modifies b, b.x
    ensures r == b || fresh(r)
    ensures r.x == old(b.x) || fresh(r.x)
    ensures r.Valid() && r.Value() == Five(i) * old(b.Value())
  {
    r := b;
    if i != 0 {
      var p05 := [5, 25, 125];
      assert Five(1) == 5 && Five(2) == 5 * Five(1) && Five(3) == 5 * Five(2);
      r := Multadd(b, p05[i - 1], 0);
    }
  }

  lemma PowerSplit(v: int, k: nat)
    ensures Five(k % 4) * v * Five(4 * (k / 4)) == v * Five(k)
  {
    FiveAdd(k % 4, 4 * (k / 4));
    var p, q := Five(k % 4), Five(4 * (k / 4));
    assert p * v * q == v * (p * q);
  }

  /** pow5mult: b * 5^k, whatever part of the power list exists already. */
  method Pow5mult(b: Bigint, k: nat, p5s: PowerList) returns (r: Bigint)
    requires b.Valid() && b.Normal() && b.wds > 0 && p5s.Valid()
    requires b !in p5s.list && forall p :: p in p5s.list ==> p.x != b.x
    modifies b, b.x, p5s
    ensures p5s.Valid() && r.Valid() && r.Value() == old(b.Value()) * Five(k)
  {
    ghost var v := b.Value();
    r := LowPower(b, k % 4);
    PowerSplit(v, k);
    if k / 4 != 0 {
      r := PowerLoop(r, k / 4, p5s);
    }
  }
}
