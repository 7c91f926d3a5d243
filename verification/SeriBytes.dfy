/**
 The wire format of skynet/lualib-src/lua-seri.c in numbers: every byte of every kind of value, and that no
 shorter bytes are read back as the same value.
 */
module SeriBytes {
  import opened Arithmetic
  import opened Basics
  import opened SeriFormat

  // ----- little-endian numbers, written out

  function Two(n: nat): Bytes
    requires n < 0x1_0000
  {
    [n % 0x100, n / 0x100]
  }

  function Four(n: nat): Bytes
    requires n < 0x1_0000_0000
  {
    [n % 0x100, n / 0x100 % 0x100, n / 0x1_0000 % 0x100, n / 0x100_0000]
  }

  function Eight(n: Word64): Bytes {
    [n % 0x100, n / 0x100 % 0x100, n / 0x1_0000 % 0x100, n / 0x100_0000 % 0x100,
     n / 0x1_0000_0000 % 0x100, n / 0x100_0000_0000 % 0x100, n / 0x1_0000_0000_0000 % 0x100, n / 0x100_0000_0000_0000]
  }

  lemma LittleOne(n: nat)
    requires n < 0x100
    ensures Little(n, 1) == [n]
  {
    assert Little(n / 256, 0) == [];
  }

  lemma LittleTwo(n: nat)
    requires n < 0x1_0000
    ensures Little(n, 2) == Two(n)
  {
    LittleOne(n / 256);
  }

  lemma LittleFour(n: nat)
    requires n < 0x1_0000_0000
    ensures Little(n, 4) == Four(n)
  {
    LittleTwo(n / 256 / 256);
    assert Little(n / 256, 3) == [n / 256 % 256] + Little(n / 256 / 256, 2);
  }

  /** The bytes above the lowest are those of the quotient. */
  lemma Above(n: nat)
    ensures n / 0x100 / 0x100 == n / 0x1_0000 && n / 0x1_0000 / 0x100 == n / 0x100_0000
    ensures n / 0x100_0000 / 0x100 == n / 0x1_0000_0000 && n / 0x1_0000_0000 / 0x100 == n / 0x100_0000_0000
    ensures n / 0x100_0000_0000 / 0x100 == n / 0x1_0000_0000_0000
    ensures n / 0x1_0000_0000_0000 / 0x100 == n / 0x100_0000_0000_0000
  {
  }

  lemma LittleMore(n: nat, k: nat, m: nat, s: Bytes)
    requires m == n / 0x100 && Little(m, k) == s
    ensures Little(n, k + 1) == [n % 0x100] + s
  {
  }

  lemma LittleEight(n: Word64)
    ensures Little(n, 8) == Eight(n)
  {
    Above(n);
    var t := n / 0x100_0000_0000_0000;
    LittleOne(t);
    LittleMore(n / 0x1_0000_0000_0000, 1, t, [t]);
    LittleMore(n / 0x100_0000_0000, 2, n / 0x1_0000_0000_0000, Eight(n)[6..]);
    LittleMore(n / 0x1_0000_0000, 3, n / 0x100_0000_0000, Eight(n)[5..]);
    LittleMore(n / 0x100_0000, 4, n / 0x1_0000_0000, Eight(n)[4..]);
    LittleMore(n / 0x1_0000, 5, n / 0x100_0000, Eight(n)[3..]);
    LittleMore(n / 0x100, 6, n / 0x1_0000, Eight(n)[2..]);
    LittleMore(n, 7, n / 0x100, Eight(n)[1..]);
  }

  // ----- every byte

  /** The 32 bits of an int32_t, and the 64 of an int64_t. */
  function Word32Of(v: int): nat
    requires IsInt32(v)
  {
    if v < 0 then v + 0x1_0000_0000 else v
  }

  function Word64Of(v: Integer): Word64 { if v < 0 then v + 0x1_0000_0000_0000_0000 else v }

  /** The bytes of an integer. */
  lemma IntegerBytes(v: Integer)
    ensures v == 0 ==> PackInteger(v) == [0x02]
    ensures 0 < v < 0x100 ==> PackInteger(v) == [0x0a, v]
    ensures 0x100 <= v < 0x1_0000 ==> PackInteger(v) == [0x12] + Two(v)
    ensures 0x1_0000 <= v < 0x8000_0000 || -0x8000_0000 <= v < 0 ==> PackInteger(v) == [0x22] + Four(Word32Of(v))
    ensures v < -0x8000_0000 || 0x8000_0000 <= v ==> PackInteger(v) == [0x32] + Eight(Word64Of(v))
  {
    if 0 < v < 0x100 { LittleOne(v); }
    if 0x100 <= v < 0x1_0000 { LittleTwo(v); }
    if 0x1_0000 <= v < 0x8000_0000 || -0x8000_0000 <= v < 0 { LittleFour(Word32Of(v)); }
    LittleEight(Word64Of(v));
  }

  lemma StringBytes(s: Bytes)
    requires |s| < INT_LIMIT
    ensures |s| < 32 ==> PackString(s) == [0x04 + 8 * |s|] + s
    ensures 32 <= |s| < 0x1_0000 ==> PackString(s) == [0x15] + Two(|s|) + s
    ensures 0x1_0000 <= |s| ==> PackString(s) == [0x25] + Four(|s|) + s
  {
    if 32 <= |s| < 0x1_0000 {
      LittleTwo(|s|);
    } else if 0x1_0000 <= |s| {
      LittleFour(|s|);
    }
  }

  /** The bytes of the kinds that are a tag alone ... */
  lemma TagBytes(v: Value, depth: nat)
    requires WellFormed(v) && Packable(v, depth)
    ensures v.Nil? ==> Pack(v, depth) == [0x00]
    ensures v.Boolean? ==> Pack(v, depth) == if v.b then [0x09] else [0x01]
  {
  }

  /** ... and of those with 64 bits behind it. */
  lemma WordBytes(w: Word64, depth: nat)
    requires depth <= MAX_DEPTH
    ensures Pack(Real(w), depth) == [0x42] + Eight(w) && Pack(Pointer(w), depth) == [0x03] + Eight(w)
  {
    LittleEight(w);
  }

  lemma PlainBytes(i: Integer, s: Bytes, depth: nat)
    requires depth <= MAX_DEPTH && |s| < INT_LIMIT
    ensures Pack(Int(i), depth) == PackInteger(i) && Pack(Str(s), depth) == PackString(s)
  {
  }

  /** The bytes of a table: its size, its array part, its pairs, and a nil. */
  lemma TableBytes(arr: seq<Value>, hash: seq<Entry>, depth: nat)
    requires WellFormed(Table(arr, hash)) && Packable(Table(arr, hash), depth)
    ensures Pack(Table(arr, hash), depth) == PackArraySize(|arr|) + PackArray(arr, depth + 1) + PackPairs(hash, depth + 1)
    ensures |arr| < 31 ==> PackArraySize(|arr|) == [0x06 + 8 * |arr|]
    ensures 31 <= |arr| < 0x100 ==> PackArraySize(|arr|) == [0xfe, 0x0a, |arr|]
    ensures 0x100 <= |arr| < 0x1_0000 ==> PackArraySize(|arr|) == [0xfe, 0x12] + Two(|arr|)
    ensures 0x1_0000 <= |arr| ==> PackArraySize(|arr|) == [0xfe, 0x22] + Four(|arr|)
    ensures PackPairs([], depth) == [0x00]
  {
    IntegerBytes(|arr|);
  }

  /** Its elements one after the other, and every key before its value. */
  lemma PartsBytes(v: Value, vs: seq<Value>, e: Entry, es: seq<Entry>, depth: nat)
    requires WellFormed(v) && Packable(v, depth) && AllPackable(vs, depth) && PairsPackable(es, depth)
    requires !e.key.Nil? && WellFormed(e.key) && Packable(e.key, depth) && WellFormed(e.value) && Packable(e.value, depth)
    ensures AllPackable([v] + vs, depth) && PairsPackable([e] + es, depth)
    ensures PackArray([v] + vs, depth) == Pack(v, depth) + PackArray(vs, depth) && PackArray([], depth) == []
    ensures PackPairs([e] + es, depth) == Pack(e.key, depth) + Pack(e.value, depth) + PackPairs(es, depth)
  {
    assert ([v] + vs)[1..] == vs && ([e] + es)[1..] == es;
  }

  // ----- no shorter form

  /** How many bytes the packer needs for an integer. */
  function IntegerLength(v: Integer): nat {
    if v == 0 then 1
    else if 0 < v < 0x100 then 2
    else if 0 < v < 0x1_0000 then 3
    else if -0x8000_0000 <= v < 0x8000_0000 then 5
    else 9
  }

  lemma LengthOfInteger(v: Integer)
    ensures |PackInteger(v)| == IntegerLength(v)
  {
  }

  /** A reader that accepts a cookie and finds v has read at least the packed number. */
  lemma ShortestInteger(s: Bytes, cookie: nat, v: Integer)
    requires GetInteger(s, cookie).Got? && GetInteger(s, cookie).value == v
    ensures 1 + |s| - |GetInteger(s, cookie).rest| >= |PackInteger(v)|
  {
    LengthOfInteger(v);
    Widths();
    if |s| >= 1 { LittleBound(s[..1]); }
    if |s| >= 2 { LittleBound(s[..2]); }
    if |s| >= 4 { LittleBound(s[..4]); }
  }

  lemma ShortestString(s: Bytes, t: Bytes, kind: nat, cookie: nat)
    requires |t| < INT_LIMIT && cookie < 32 && kind != TYPE_TABLE && kind < 8
    requires GetScalar(kind, cookie, s).Got? && GetScalar(kind, cookie, s).value == Str(t)
    ensures 1 + |s| - |GetScalar(kind, cookie, s).rest| >= |PackString(t)|
  {
    Widths();
    if |s| >= 2 { LittleBound(s[..2]); }
  }

  lemma ShortestScalar(s: Bytes, v: Value, depth: nat, kind: nat, cookie: nat)
    requires WellFormed(v) && Packable(v, depth) && !v.Table? && cookie < 32 && kind != TYPE_TABLE && kind < 8
    requires GetScalar(kind, cookie, s).Got? && GetScalar(kind, cookie, s).value == v
    ensures 1 + |s| - |GetScalar(kind, cookie, s).rest| >= |Pack(v, depth)|
  {
    match v
    case Int(i) => ShortestInteger(s, cookie, i);
    case Str(t) => ShortestString(s, t, kind, cookie);
    case _ =>
  }

  lemma ShortestArraySize(s: Bytes, cookie: nat, n: nat)
    requires cookie < 32 && n < INT_LIMIT && GetArraySize(s, cookie).Got? && GetArraySize(s, cookie).value == n
    ensures 1 + |s| - |GetArraySize(s, cookie).rest| >= |PackArraySize(n)|
  {
    if n >= MAX_COOKIE - 1 {
      var r := GetInteger(s[1..], s[0] / 8);
      LengthOfInteger(n);
      SizeRange(s[1..], s[0] / 8);
      if -0x8000_0000_0000_0000 <= r.value < 0x8000_0000_0000_0000 {
        ShortestInteger(s[1..], s[0] / 8, r.value);
        LengthOfInteger(r.value);
      }
    }
  }

  lemma SizeRange(s: Bytes, cookie: nat)
    requires GetInteger(s, cookie).Got?
    ensures -0x8000_0000_0000_0000 <= GetInteger(s, cookie).value < 0x8000_0000_0000_0000
  {
    Widths();
    if |s| >= 1 { LittleBound(s[..1]); }
    if |s| >= 2 { LittleBound(s[..2]); }
    if |s| >= 4 { LittleBound(s[..4]); }
    if |s| >= 8 { LittleBound(s[..8]); }
  }

  /** Whatever bytes the reader takes for a value, they are at least as many as the packer writes for it. */
  lemma {:induction false} Shortest(s: Bytes, v: Value, depth: nat)
    requires WellFormed(v) && Packable(v, depth) && UnpackOne(s).Got? && UnpackOne(s).value == v
    ensures |s| - |UnpackOne(s).rest| >= |Pack(v, depth)|
    decreases |s|, 0
  {
    if s[0] % 8 == TYPE_TABLE {
      ShortestTable(s[1..], s[0] / 8, v, depth);
    } else {
      ShortestScalar(s[1..], v, depth, s[0] % 8, s[0] / 8);
    }
  }

  lemma {:induction false} ShortestTable(s: Bytes, cookie: nat, v: Value, depth: nat)
    requires WellFormed(v) && Packable(v, depth) && cookie < 32
    requires UnpackTable(s, cookie).Got? && UnpackTable(s, cookie).value == v
    ensures 1 + |s| - |UnpackTable(s, cookie).rest| >= |Pack(v, depth)|
    decreases |s|, 2
  {
    var n := GetArraySize(s, cookie);
    var arr := UnpackArray(n.rest, n.value);
    ArrayLength(n.rest, n.value);
    ShortestArray(n.rest, n.value, v.arr, depth + 1);
    ShortestPairs(arr.rest, v.hash, depth + 1);
    if n.value >= 0 {
      ShortestArraySize(s, cookie, n.value);
    }
  }

  lemma {:induction false} ArrayLength(s: Bytes, n: int)
    requires UnpackArray(s, n).Got?
    ensures |UnpackArray(s, n).value| == if n <= 0 then 0 else n
    decreases |s|
  {
    if n > 0 { ArrayLength(UnpackOne(s).rest, n - 1); }
  }

  lemma {:induction false} ShortestArray(s: Bytes, n: int, vs: seq<Value>, depth: nat)
    requires AllPackable(vs, depth) && UnpackArray(s, n).Got? && UnpackArray(s, n).value == vs
    ensures |s| - |UnpackArray(s, n).rest| >= |PackArray(vs, depth)|
    decreases |s|, 1
  {
    if n > 0 {
      var first := UnpackOne(s);
      Shortest(s, vs[0], depth);
      assert UnpackArray(first.rest, n - 1).value == vs[1..];
      ShortestArray(first.rest, n - 1, vs[1..], depth);
    }
  }

  lemma {:induction false} ShortestPairs(s: Bytes, es: seq<Entry>, depth: nat)
    requires PairsPackable(es, depth) && UnpackPairs(s).Got? && UnpackPairs(s).value == es
    ensures |s| - |UnpackPairs(s).rest| >= |PackPairs(es, depth)|
    decreases |s|, 1
  {
    var key := UnpackOne(s);
    if !key.value.Nil? {
      var value := UnpackOne(key.rest);
      Shortest(s, es[0].key, depth);
      Shortest(key.rest, es[0].value, depth);
      assert UnpackPairs(value.rest).value == es[1..];
      ShortestPairs(value.rest, es[1..], depth);
    }
  }
}
