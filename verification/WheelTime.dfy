/**
 The slots of the hierarchical timing wheel (skynet/skynet-src/skynet_timer.c) and how they change
 when the clock advances by one tick.

 The wheel computes with 32-bit times; here a timer is also known by the tick at which it is due on
 a clock that never wraps, and a slot by what it means on that clock.
 */
module WheelTime {
  import opened Arithmetic

  const WRAP := 0x1_0000_0000
  const MAX_DELAY := 0x8000_0000

  datatype Slot = Near(idx: nat) | Far(level: nat, idx: nat)

  predicate IsSlot(s: Slot) {
    match s
    case Near(i) => i < 256
    case Far(l, i) => l < 4 && i < 64
  }

  /** The number of ticks one slot of a level covers: 1 << (TIME_NEAR_SHIFT + level * TIME_LEVEL_SHIFT). */
  function Span(level: nat): nat
    requires level <= 4
  {
    match level
    case 0 => 0x100
    case 1 => 0x4000
    case 2 => 0x10_0000
    case 3 => 0x400_0000
    case _ => 0x1_0000_0000
  }

  lemma SpanIsPower(level: nat)
    requires level <= 4
    ensures Span(level) == TwoTo(8 + 6 * level)
  {
    assert TwoTo(6) == 64 && TwoTo(8) == 0x100;
    TwoToAdd(8, 6);
    TwoToAdd(14, 6);
    TwoToAdd(20, 6);
    TwoToAdd(26, 6);
  }

  /** `(x|(mask-1)) == (y|(mask-1))` for the span of a level as mask: both times lie in one block of that level. */
  lemma MaskComparesBlocks(x: nat, y: nat, level: nat)
    requires level <= 4
    ensures BitOr(x, Span(level) - 1) == BitOr(y, Span(level) - 1) <==> x / Span(level) == y / Span(level)
  {
    SpanIsPower(level);
    MaskCompares(x, y, 8 + 6 * level);
  }

  /** `x & (mask-1)`: the place within the block. */
  lemma MaskKeepsRest(x: nat, level: nat)
    requires level <= 4
    ensures BitAnd(x, Span(level) - 1) == x % Span(level)
  {
    SpanIsPower(level);
    AndLowOnes(x, 8 + 6 * level);
  }

  /** `x & TIME_LEVEL_MASK`. */
  lemma LevelMask(x: nat)
    ensures BitAnd(x, 63) == x % 64
  {
    assert TwoTo(6) == 64;
    AndLowOnes(x, 6);
  }

  /** The level whose block, one up, both times share; 3 when none does. */
  function LevelOf(e: nat, t: nat): (l: nat)
    ensures l < 4
  {
    if e / Span(1) == t / Span(1) then 0
    else if e / Span(2) == t / Span(2) then 1
    else if e / Span(3) == t / Span(3) then 2
    else 3
  }

  /** The slot add_node chooses at time `t` for expiry `e`. */
  function SlotOf(e: nat, t: nat): Slot {
    if e / 0x100 == t / 0x100 then Near(e % 0x100)
    else var l := LevelOf(e, t); Far(l, e / Span(l) % 64)
  }

  lemma DivUnique(x: nat, d: nat, q: nat, r: nat)
    requires d > 0 && x == q * d + r && r < d
    ensures x / d == q && x % d == r
  {
    var k := x / d;
    assert x == k * d + x % d;
    if k > q {
      NextMultiple(q, k, d);
    } else if k < q {
      NextMultiple(k, q, d);
    }
  }

  lemma NextMultiple(a: nat, b: nat, d: nat)
    requires a < b
    ensures b * d >= a * d + d
  {
    assert b * d == a * d + d + (b - a - 1) * d;
  }

  /** The number of blocks of a span in one turn of the wrapped clock. */
  function PerTurn(level: nat): nat
    requires level < 4
  {
    match level case 0 => 0x100_0000 case 1 => 0x4_0000 case 2 => 0x1000 case _ => 0x40
  }

  lemma BlockSplits(x: nat, level: nat)
    requires level < 4
    ensures x / Span(level) == x / WRAP * PerTurn(level) + x % WRAP / Span(level)
  {
    var a, r := x / WRAP, x % WRAP;
    var q, m := r / Span(level), r % Span(level);
    assert r == q * Span(level) + m;
    assert PerTurn(level) * Span(level) == WRAP;
    assert x == a * (PerTurn(level) * Span(level)) + q * Span(level) + m;
    assert a * (PerTurn(level) * Span(level)) == (a * PerTurn(level)) * Span(level);
    DivUnique(x, Span(level), a * PerTurn(level) + q, m);
  }

  lemma WrapKeepsLowBits(x: nat)
    ensures x % WRAP % 0x100 == x % 0x100
  {
    var a, r := x / WRAP, x % WRAP;
    DivUnique(x, 0x100, a * 0x100_0000 + r / 0x100, r % 0x100);
  }

  /** Positions less than a turn apart are equal when they are equal within their turns. */
  lemma WithinTurn(a: nat, b: nat, turn: nat, p: nat, q: nat)
    requires p < turn && q < turn && (a == b || a == b + 1)
    requires b * turn + q <= a * turn + p < b * turn + q + turn
    ensures p == q <==> a * turn + p == b * turn + q
  {
    if a == b + 1 { assert a * turn == b * turn + turn; }
  }

  /** Blocks compare the same on the wrapped clock as long as no timer is half a turn away. */
  lemma BlocksAgree(due: nat, now: nat, level: nat)
    requires level < 4 && now <= due < now + MAX_DELAY
    ensures due % WRAP / Span(level) == now % WRAP / Span(level) <==> due / Span(level) == now / Span(level)
    ensures due % WRAP / Span(level) % 64 == due / Span(level) % 64
  {
    BlockSplits(due, level);
    BlockSplits(now, level);
    FewBlocks(due, now, level);
    WithinTurn(due / WRAP, now / WRAP, PerTurn(level), due % WRAP / Span(level), now % WRAP / Span(level));
    DigitWraps(due / WRAP, level, due % WRAP / Span(level));
  }

  lemma DigitWraps(a: nat, level: nat, q: nat)
    requires level < 4
    ensures (a * PerTurn(level) + q) % 64 == q % 64
  {
    LowDigit(a, PerTurn(level) / 64, q);
    assert a * PerTurn(level) == a * (PerTurn(level) / 64) * 64;
  }

  lemma LowDigit(a: nat, b: nat, q: nat)
    ensures (a * b * 64 + q) % 64 == q % 64
  {
    DivUnique(a * b * 64 + q, 64, a * b + q / 64, q % 64);
  }

  lemma FewBlocks(due: nat, now: nat, level: nat)
    requires level < 4 && now <= due < now + MAX_DELAY
    ensures now / Span(level) <= due / Span(level) < now / Span(level) + PerTurn(level)
  {
  }

  /** So the wheel's 32-bit choice is the choice on the clock that never wraps. */
  lemma WrappedSlot(due: nat, now: nat)
    requires now <= due < now + MAX_DELAY
    ensures SlotOf(due % WRAP, now % WRAP) == SlotOf(due, now)
  {
    BlocksAgree(due, now, 0);
    BlocksAgree(due, now, 1);
    BlocksAgree(due, now, 2);
    BlocksAgree(due, now, 3);
    WrapKeepsLowBits(due);
  }

  // ----- one tick

  /** The slot timer_shift cascades when the clock reaches `c`, if any. */
  datatype Cascade = Nothing | From(level: nat, idx: nat)

  function CascadeAt(c: nat): Cascade {
    if c % 0x100 != 0 then Nothing
    else if c % Span(1) != 0 then From(0, c / Span(0) % 64)
    else if c % Span(2) != 0 then From(1, c / Span(1) % 64)
    else if c % Span(3) != 0 then From(2, c / Span(2) % 64)
    else From(3, c / Span(3) % 64)
  }

  /** Nested blocks: the block above is the block divided by 64. */
  lemma Nested(x: nat)
    ensures x / Span(1) == x / Span(0) / 64 && x / Span(2) == x / Span(1) / 64 && x / Span(3) == x / Span(2) / 64
  {
  }

  /** Levels at and below the cascade enter a new block at `c`; those above stay in theirs. */
  lemma BlockOfTick(c: nat, level: nat)
    requires c > 0 && level < 4
    ensures c % Span(level) == 0 ==> c / Span(level) == (c - 1) / Span(level) + 1
    ensures c % Span(level) != 0 ==> c / Span(level) == (c - 1) / Span(level)
  {
  }

  lemma SpanMultiples(c: nat)
    ensures c % Span(3) == 0 ==> c % Span(2) == 0
    ensures c % Span(2) == 0 ==> c % Span(1) == 0
    ensures c % Span(1) == 0 ==> c % Span(0) == 0
  {
    if c % Span(3) == 0 { DivUnique(c, Span(2), c / Span(3) * 64, 0); }
    if c % Span(2) == 0 { DivUnique(c, Span(1), c / Span(2) * 64, 0); }
    if c % Span(1) == 0 { DivUnique(c, Span(0), c / Span(1) * 64, 0); }
  }

  lemma Monotone(x: nat, y: nat, level: nat)
    requires x <= y && level < 4
    ensures x / Span(level) <= y / Span(level)
  {
  }

  /** Without a cascade every slot keeps its meaning. */
  lemma NoCascade(c: nat, due: nat)
    requires c > 0 && CascadeAt(c).Nothing?
    ensures SlotOf(due, c) == SlotOf(due, c - 1)
  {
    SpanMultiples(c);
    BlockOfTick(c, 0);
    BlockOfTick(c, 1);
    BlockOfTick(c, 2);
    BlockOfTick(c, 3);
  }

  /** A slot below the cascading level. */
  predicate Below(s: Slot, level: nat) { s.Near? || s.level < level }

  /** A pending timer is never below the cascading level before the tick. */
  lemma NoneBelow(c: nat, due: nat)
    requires c > 0 && CascadeAt(c).From? && c <= due
    ensures !Below(SlotOf(due, c - 1), CascadeAt(c).level)
  {
    SpanMultiples(c);
    forall l | 0 <= l <= CascadeAt(c).level ensures due / Span(l) > (c - 1) / Span(l) {
      BlockOfTick(c, l);
      Monotone(c, due, l);
    }
    assert due / Span(0) > (c - 1) / Span(0);
    if CascadeAt(c).level >= 1 { assert due / Span(1) > (c - 1) / Span(1); }
    if CascadeAt(c).level >= 2 { assert due / Span(2) > (c - 1) / Span(2); }
    if CascadeAt(c).level >= 3 { assert due / Span(3) > (c - 1) / Span(3); }
  }

  /** The cascading slot holds exactly the timers of the block the clock enters. */
  lemma CascadeBlock(c: nat, due: nat)
    requires c > 0 && CascadeAt(c).From? && c <= due < c - 1 + MAX_DELAY
    ensures var m := CascadeAt(c);
            SlotOf(due, c - 1) == Far(m.level, m.idx) <==> due / Span(m.level) == c / Span(m.level)
  {
    var m := CascadeAt(c);
    NoneBelow(c, due);
    Monotone(c, due, m.level);
    if m.level == 3 {
      FewBlocks(due, c, 3);
      if due / Span(3) % 64 == c / Span(3) % 64 { SameDigit(due / Span(3), c / Span(3)); }
    } else {
      Nested(due);
      Nested(c);
      SpanMultiples(c);
      BlockOfTick(c, m.level + 1);
      if SlotOf(due, c - 1) == Far(m.level, m.idx) { SameDigit(due / Span(m.level), c / Span(m.level)); }
    }
  }

  /** Two block numbers in the same block above, or less than 64 apart, are equal when their digits are. */
  lemma SameDigit(x: nat, y: nat)
    requires x % 64 == y % 64
    requires x / 64 == y / 64 || y <= x < y + 64
    ensures x == y
  {
    assert x == 64 * (x / 64) + x % 64 && y == 64 * (y / 64) + y % 64;
  }

  /** Its timers move below the level, every other timer keeps its slot. */
  lemma CascadeMoves(c: nat, due: nat)
    requires c > 0 && CascadeAt(c).From? && c <= due < c - 1 + MAX_DELAY
    ensures var m := CascadeAt(c);
            if SlotOf(due, c - 1) == Far(m.level, m.idx) then Below(SlotOf(due, c), m.level)
            else SlotOf(due, c) == SlotOf(due, c - 1)
  {
    var m := CascadeAt(c);
    CascadeBlock(c, due);
    SpanMultiples(c);
    Nested(due);
    Nested(c);
    NoneBelow(c, due);
    BlockOfTick(c, 1);
    BlockOfTick(c, 2);
    BlockOfTick(c, 3);
  }

  /** At its own tick a timer is in the near slot that is executed, alone with timers of the same tick. */
  lemma DueSlot(due: nat, now: nat)
    requires now <= due
    ensures SlotOf(due, now) == Near(now % 0x100) <==> due == now
  {
    if due / 0x100 == now / 0x100 && due % 0x100 == now % 0x100 {
      assert due == 0x100 * (due / 0x100) + due % 0x100;
      assert now == 0x100 * (now / 0x100) + now % 0x100;
    }
  }
}
