/**
 The wire format of skynet/lualib-src/lua-seri.c on a little-endian 64-bit machine: packing of Lua values into
 bytes, unpacking, and the round trip.
 */
module SeriFormat {
  import opened Arithmetic
  import opened Basics

  type Integer = i: int | -0x8000_0000_0000_0000 <= i < 0x8000_0000_0000_0000 witness 0

  type Word64 = n: nat | n < 0x1_0000_0000_0000_0000 witness 0

  const TYPE_NIL := 0
  const TYPE_BOOLEAN := 1
  const TYPE_NUMBER := 2
  const TYPE_NUMBER_ZERO := 0
  const TYPE_NUMBER_BYTE := 1
  const TYPE_NUMBER_WORD := 2
  const TYPE_NUMBER_DWORD := 4
  const TYPE_NUMBER_QWORD := 6
  const TYPE_NUMBER_REAL := 8
  const TYPE_USERDATA := 3
  const TYPE_SHORT_STRING := 4
  const TYPE_LONG_STRING := 5
  const TYPE_TABLE := 6
  const MAX_COOKIE := 32
  const MAX_DEPTH := 32
  const INT_LIMIT := 0x8000_0000

  /**
   A Lua value as the packer sees it: a table is its array part and the other pairs in the order of lua_next;
   a real is its 64 bits. Functions, threads and full userdata are `Unsupported`.
   */
  datatype Value =
    | Nil
    | Boolean(b: bool)
    | Int(i: Integer)
    | Real(bits: Word64)
    | Pointer(p: Word64)
    | Str(s: Bytes)
    | Table(arr: seq<Value>, hash: seq<Entry>)
    | Unsupported

  datatype Entry = Entry(key: Value, value: Value)

  // ----- fixed-width numbers

  function Little(n: nat, k: nat): (s: Bytes)
    ensures |s| == k
  {
    if k == 0 then [] else [(n % 256) as Byte] + Little(n / 256, k - 1)
  }

  function FromLittle(s: Bytes): nat {
    if s == [] then 0 else s[0] + 256 * FromLittle(s[1..])
  }

  lemma {:induction false} LittleRoundTrip(n: nat, k: nat)
    requires n < TwoTo(8 * k)
    ensures FromLittle(Little(n, k)) == n
  {
    if k > 0 {
      TwoToAdd(8, 8 * (k - 1));
      assert TwoTo(8) == 256;
      LittleRoundTrip(n / 256, k - 1);
      assert Little(n, k)[1..] == Little(n / 256, k - 1);
    }
  }

  lemma Widths()
    ensures TwoTo(8) == 0x100 && TwoTo(16) == 0x1_0000 && TwoTo(32) == 0x1_0000_0000
    ensures TwoTo(64) == 0x1_0000_0000_0000_0000
  {
    assert TwoTo(8) == 0x100;
    TwoToAdd(8, 8);
    TwoToAdd(16, 16);
    TwoToAdd(32, 32);
  }

  /** Two's complement in a word of `size` values. */
  function Signed(n: nat, size: nat): int { if n < size / 2 then n else n - size }

  function Tag(t: nat, v: nat): Byte
    requires t < 8 && v < 32
  {
    t + v * 8
  }

  // ----- packing

  /** (int32_t)v == v */
  predicate IsInt32(v: int) { -INT_LIMIT <= v < INT_LIMIT }

  function PackInteger(v: Integer): (s: Bytes)
    ensures s != []
  {
    if v == 0 then [Tag(TYPE_NUMBER, TYPE_NUMBER_ZERO)]
    else if !IsInt32(v) then
      [Tag(TYPE_NUMBER, TYPE_NUMBER_QWORD)] + Little(if v < 0 then v + 0x1_0000_0000_0000_0000 else v, 8)
    else if v < 0 then [Tag(TYPE_NUMBER, TYPE_NUMBER_DWORD)] + Little(v + 0x1_0000_0000, 4)
    else if v < 0x100 then [Tag(TYPE_NUMBER, TYPE_NUMBER_BYTE)] + Little(v, 1)
    else if v < 0x1_0000 then [Tag(TYPE_NUMBER, TYPE_NUMBER_WORD)] + Little(v, 2)
    else [Tag(TYPE_NUMBER, TYPE_NUMBER_DWORD)] + Little(v, 4)
  }

  function LongHead(n: nat): (p: Bytes)
    ensures |p| > 2
  {
    if n < 0x1_0000 then [Tag(TYPE_LONG_STRING, 2)] + Little(n, 2) else [Tag(TYPE_LONG_STRING, 4)] + Little(n, 4)
  }

  /** wb_string; the length is an int. */
  function PackString(s: Bytes): (p: Bytes)
    requires |s| < INT_LIMIT
    ensures p != []
  {
    if |s| < MAX_COOKIE then [Tag(TYPE_SHORT_STRING, |s|)] + s
    else LongHead(|s|) + s
  }

  /** The tag of a table, with the size of its array part. */
  function PackArraySize(n: nat): (p: Bytes)
    requires n < INT_LIMIT
    ensures p != []
  {
    if n >= MAX_COOKIE - 1 then [Tag(TYPE_TABLE, MAX_COOKIE - 1)] + PackInteger(n) else [Tag(TYPE_TABLE, n)]
  }

  /** What lua can pass in: lengths are ints, and a table has no nil key. */
  predicate WellFormed(v: Value)
    decreases v
  {
    match v
    case Str(s) => |s| < INT_LIMIT
    case Table(arr, hash) =>
      && |arr| < INT_LIMIT
      && (forall i :: 0 <= i < |arr| ==> WellFormed(arr[i]))
      && (forall i :: 0 <= i < |hash| ==> !hash[i].key.Nil? && WellFormed(hash[i].key) && WellFormed(hash[i].value))
    case _ => true
  }

  /** pack_one raises no error: nothing unsupported, nothing below the depth limit. */
  predicate Packable(v: Value, depth: nat)
    decreases v
  {
    && depth <= MAX_DEPTH && !v.Unsupported?
    && (v.Table? ==>
          && (forall i :: 0 <= i < |v.arr| ==> Packable(v.arr[i], depth + 1))
          && (forall i :: 0 <= i < |v.hash| ==> Packable(v.hash[i].key, depth + 1) && Packable(v.hash[i].value, depth + 1)))
  }

  predicate AllPackable(vs: seq<Value>, depth: nat) {
    forall i :: 0 <= i < |vs| ==> WellFormed(vs[i]) && Packable(vs[i], depth)
  }

  predicate PairsPackable(es: seq<Entry>, depth: nat) {
    forall i :: 0 <= i < |es| ==>
      !es[i].key.Nil? && WellFormed(es[i].key) && WellFormed(es[i].value) &&
      Packable(es[i].key, depth) && Packable(es[i].value, depth)
  }

  /** The bytes of a value that pack_one packs. */
  function Pack(v: Value, depth: nat): (p: Bytes)
    requires WellFormed(v) && Packable(v, depth)
    ensures p != []
    decreases v
  {
    match v
    case Nil => [Tag(TYPE_NIL, 0)]
    case Boolean(b) => [Tag(TYPE_BOOLEAN, if b then 1 else 0)]
    case Int(i) => PackInteger(i)
    case Real(bits) => [Tag(TYPE_NUMBER, TYPE_NUMBER_REAL)] + Little(bits, 8)
    case Pointer(a) => [Tag(TYPE_USERDATA, 0)] + Little(a, 8)
    case Str(t) => PackString(t)
    case Table(arr, hash) => PackArraySize(|arr|) + PackArray(arr, depth + 1) + PackPairs(hash, depth + 1)
  }

  function PackArray(vs: seq<Value>, depth: nat): Bytes
    requires AllPackable(vs, depth)
    decreases vs
  {
    if vs == [] then [] else Pack(vs[0], depth) + PackArray(vs[1..], depth)
  }

  /** Key, value, key, value, and a nil at the end. */
  function PackPairs(es: seq<Entry>, depth: nat): Bytes
    requires PairsPackable(es, depth)
    decreases es
  {
    if es == [] then [Tag(TYPE_NIL, 0)]
    else PackEntry(es[0], depth) + PackPairs(es[1..], depth)
  }

  function PackEntry(e: Entry, depth: nat): Bytes
    requires PairsPackable([e], depth)
    decreases e
  {
    assert [e][0] == e;
    Pack(e.key, depth) + Pack(e.value, depth)
  }

  // ----- unpacking

  /** A reader's result: an error, or a value and the bytes behind it. */
  datatype Read<T> = Invalid | Got(value: T, rest: Bytes)

  /** rb_read of a little-endian number. */
  function ReadLittle(s: Bytes, k: nat): (r: Read<nat>)
    ensures r.Got? ==> |r.rest| + k == |s|
  {
    if |s| < k then Invalid else Got(FromLittle(s[..k]), s[k..])
  }

  lemma {:induction false} LittleBound(s: Bytes)
    ensures FromLittle(s) < TwoTo(8 * |s|)
  {
    if s != [] {
      LittleBound(s[1..]);
      TwoToAdd(8, 8 * (|s| - 1));
      assert TwoTo(8) == 256;
    }
  }

  /** get_integer. */
  function GetInteger(s: Bytes, cookie: nat): (r: Read<int>)
    ensures r.Got? ==> |r.rest| <= |s|
  {
    if cookie == TYPE_NUMBER_ZERO then Got(0, s)
    else if cookie == TYPE_NUMBER_BYTE then Unsigned(ReadLittle(s, 1))
    else if cookie == TYPE_NUMBER_WORD then Unsigned(ReadLittle(s, 2))
    else if cookie == TYPE_NUMBER_DWORD then Number(ReadLittle(s, 4), 0x1_0000_0000)
    else if cookie == TYPE_NUMBER_QWORD then Number(ReadLittle(s, 8), 0x1_0000_0000_0000_0000)
    else Invalid
  }

  function Unsigned(r: Read<nat>): (i: Read<int>)
    ensures i.Got? ==> r.Got? && i.rest == r.rest
  {
    if r.Invalid? then Invalid else Got(r.value, r.rest)
  }

  function Number(r: Read<nat>, size: nat): (i: Read<int>)
    ensures i.Got? ==> r.Got? && i.rest == r.rest
  {
    if r.Invalid? then Invalid else Got(Signed(r.value, size), r.rest)
  }

  /** The conversion of a lua_Integer to the int `array_size`. */
  function ToInt(i: int): int { Signed(i % 0x1_0000_0000, 0x1_0000_0000) }

  /** get_buffer. */
  function GetBuffer(s: Bytes, n: nat): (r: Read<Value>)
    ensures r.Got? ==> |r.rest| <= |s|
  {
    if |s| < n then Invalid else Got(Str(s[..n]), s[n..])
  }

  /** A 64-bit pattern. */
  function GetWord(s: Bytes, floating: bool): (r: Read<Value>)
    ensures r.Got? ==> |r.rest| <= |s|
  {
    if |s| < 8 then Invalid
    else
      LittleBound(s[..8]);
      Widths();
      var w: Word64 := FromLittle(s[..8]);
      Got(if floating then Real(w) else Pointer(w), s[8..])
  }

  function GetNumber(s: Bytes, cookie: nat): (r: Read<Value>)
    ensures r.Got? ==> |r.rest| <= |s|
  {
    if cookie == TYPE_NUMBER_REAL then GetWord(s, true)
    else
      var r := GetInteger(s, cookie);
      if r.Invalid? then Invalid
      else if -0x8000_0000_0000_0000 <= r.value < 0x8000_0000_0000_0000 then Got(Int(r.value), r.rest)
      else Invalid
  }

  function GetLongString(s: Bytes, cookie: nat): (r: Read<Value>)
    ensures r.Got? ==> |r.rest| <= |s|
  {
    if cookie == 2 || cookie == 4 then
      var n := ReadLittle(s, cookie);
      if n.Invalid? then Invalid else GetBuffer(n.rest, n.value)
    else Invalid
  }

  /** The size of a table's array part. */
  function GetArraySize(s: Bytes, cookie: nat): (r: Read<int>)
    ensures r.Got? ==> |r.rest| <= |s|
  {
    if cookie != MAX_COOKIE - 1 then Got(cookie, s)
    else if s == [] || s[0] % 8 != TYPE_NUMBER || s[0] / 8 == TYPE_NUMBER_REAL then Invalid
    else
      var r := GetInteger(s[1..], s[0] / 8);
      if r.Invalid? then Invalid else Got(ToInt(r.value), r.rest)
  }

  /** push_value, for everything but tables. */
  function GetScalar(kind: nat, cookie: nat, s: Bytes): (r: Read<Value>)
    ensures r.Got? ==> |r.rest| <= |s|
  {
    if kind == TYPE_NIL then Got(Nil, s)
    else if kind == TYPE_BOOLEAN then Got(Boolean(cookie != 0), s)
    else if kind == TYPE_NUMBER then GetNumber(s, cookie)
    else if kind == TYPE_USERDATA then GetWord(s, false)
    else if kind == TYPE_SHORT_STRING then GetBuffer(s, cookie)
    else if kind == TYPE_LONG_STRING then GetLongString(s, cookie)
    else Invalid
  }

  /** unpack_one. */
  function UnpackOne(s: Bytes): (r: Read<Value>)
    ensures r.Got? ==> |r.rest| < |s|
    decreases |s|, 0
  {
    if s == [] then Invalid
    else if s[0] % 8 == TYPE_TABLE then UnpackTable(s[1..], s[0] / 8)
    else GetScalar(s[0] % 8, s[0] / 8, s[1..])
  }

  function UnpackTable(s: Bytes, cookie: nat): (r: Read<Value>)
    ensures r.Got? ==> |r.rest| <= |s|
    decreases |s|, 2
  {
    var n := GetArraySize(s, cookie);
    if n.Invalid? then Invalid
    else
      var arr := UnpackArray(n.rest, n.value);
      if arr.Invalid? then Invalid
      else
        var hash := UnpackPairs(arr.rest);
        if hash.Invalid? then Invalid else Got(Table(arr.value, hash.value), hash.rest)
  }

  function UnpackArray(s: Bytes, n: int): (r: Read<seq<Value>>)
    ensures r.Got? ==> |r.rest| <= |s|
    decreases |s|, 1
  {
    if n <= 0 then Got([], s)
    else
      var first := UnpackOne(s);
      if first.Invalid? then Invalid
      else
        var others := UnpackArray(first.rest, n - 1);
        if others.Invalid? then Invalid else Got([first.value] + others.value, others.rest)
  }

  function UnpackPairs(s: Bytes): (r: Read<seq<Entry>>)
    ensures r.Got? ==> |r.rest| <= |s|
    decreases |s|, 1
  {
    var key := UnpackOne(s);
    if key.Invalid? then Invalid
    else if key.value.Nil? then Got([], key.rest)
    else
      var value := UnpackOne(key.rest);
      if value.Invalid? then Invalid
      else
        var others := UnpackPairs(value.rest);
        if others.Invalid? then Invalid else Got([Entry(key.value, value.value)] + others.value, others.rest)
  }

  /** luaseri_unpack: values up to the end of the buffer. */
  function UnpackAll(s: Bytes): Option<seq<Value>>
    decreases |s|
  {
    if s == [] then Some([])
    else
      var first := UnpackOne(s);
      if first.Invalid? then None
      else
        var others := UnpackAll(first.rest);
        if others.None? then None else Some([first.value] + others.value)
  }

  // ----- round trips

  lemma ReadBack(n: nat, k: nat, tail: Bytes)
    requires n < TwoTo(8 * k)
    ensures ReadLittle(Little(n, k) + tail, k) == Got(n, tail)
  {
    LittleRoundTrip(n, k);
    assert (Little(n, k) + tail)[..k] == Little(n, k) && (Little(n, k) + tail)[k..] == tail;
  }

  lemma NumberReadBack(cookie: nat, n: nat, k: nat, tail: Bytes)
    requires n < TwoTo(8 * k) && cookie < 32
    ensures var p := [Tag(TYPE_NUMBER, cookie)] + Little(n, k);
            p[0] % 8 == TYPE_NUMBER && p[0] / 8 == cookie && ReadLittle(p[1..] + tail, k) == Got(n, tail)
  {
    assert ([Tag(TYPE_NUMBER, cookie)] + Little(n, k))[1..] == Little(n, k);
    ReadBack(n, k, tail);
  }

  /** The cookie and the bytes of an integer, behind its tag. */
  lemma IntegerRoundTrip(v: Integer, tail: Bytes)
    ensures var p := PackInteger(v);
            && p[0] % 8 == TYPE_NUMBER && p[0] / 8 != TYPE_NUMBER_REAL
            && GetInteger(p[1..] + tail, p[0] / 8) == Got(v, tail)
  {
    Widths();
    if v == 0 {
      assert PackInteger(v)[1..] + tail == tail;
    } else if !IsInt32(v) {
      NumberReadBack(TYPE_NUMBER_QWORD, if v < 0 then v + 0x1_0000_0000_0000_0000 else v, 8, tail);
    } else if v < 0 {
      NumberReadBack(TYPE_NUMBER_DWORD, v + 0x1_0000_0000, 4, tail);
    } else if v < 0x100 {
      NumberReadBack(TYPE_NUMBER_BYTE, v, 1, tail);
    } else if v < 0x1_0000 {
      NumberReadBack(TYPE_NUMBER_WORD, v, 2, tail);
    } else {
      NumberReadBack(TYPE_NUMBER_DWORD, v, 4, tail);
    }
  }

  lemma ShortString(t: Bytes, tail: Bytes)
    ensures GetBuffer(t + tail, |t|) == Got(Str(t), tail)
  {
    assert (t + tail)[..|t|] == t && (t + tail)[|t|..] == tail;
  }

  lemma LongString(t: Bytes, k: nat, tail: Bytes)
    requires |t| < TwoTo(8 * k) && (k == 2 || k == 4)
    ensures GetLongString(Little(|t|, k) + t + tail, k) == Got(Str(t), tail)
  {
    ReadBack(|t|, k, t + tail);
    assert Little(|t|, k) + t + tail == Little(|t|, k) + (t + tail);
    assert (t + tail)[..|t|] == t && (t + tail)[|t|..] == tail;
  }

  lemma StringRoundTrip(t: Bytes, tail: Bytes)
    requires |t| < INT_LIMIT
    ensures var p := PackString(t);
            p[0] % 8 != TYPE_TABLE && GetScalar(p[0] % 8, p[0] / 8, p[1..] + tail) == Got(Str(t), tail)
  {
    var p := PackString(t);
    if |t| < MAX_COOKIE {
      assert p[1..] == t;
      ShortString(t, tail);
    } else {
      Widths();
      var k := if |t| < 0x1_0000 then 2 else 4;
      assert p[1..] == Little(|t|, k) + t;
      LongString(t, k, tail);
    }
  }

  lemma WordRoundTrip(w: Word64, floating: bool, tail: Bytes)
    ensures GetWord(Little(w, 8) + tail, floating) == Got(if floating then Real(w) else Pointer(w), tail)
  {
    Widths();
    LittleRoundTrip(w, 8);
    assert (Little(w, 8) + tail)[..8] == Little(w, 8) && (Little(w, 8) + tail)[8..] == tail;
  }

  lemma ArraySizeRoundTrip(n: nat, tail: Bytes)
    requires n < INT_LIMIT
    ensures var p := PackArraySize(n);
            p[0] % 8 == TYPE_TABLE && GetArraySize(p[1..] + tail, p[0] / 8) == Got(n, tail)
  {
    var p := PackArraySize(n);
    if n >= MAX_COOKIE - 1 {
      var q := PackInteger(n);
      IntegerRoundTrip(n, tail);
      var t := p[1..] + tail;
      assert p[1..] == q && t[0] == q[0] && t[1..] == q[1..] + tail;
      assert ToInt(n) == n;
    } else {
      assert p[1..] + tail == tail;
    }
  }

  /** Unpacking the packed form of a value gives the value back and consumes exactly its bytes. */
  lemma {:induction false} RoundTrip(v: Value, depth: nat, tail: Bytes)
    requires WellFormed(v) && Packable(v, depth)
    ensures UnpackOne(Pack(v, depth) + tail) == Got(v, tail)
    decreases v
  {
    var p := Pack(v, depth);
    var s := p + tail;
    match v
    case Nil => assert s[1..] == tail;
    case Boolean(b) => assert s[1..] == tail;
    case Int(i) =>
      IntegerRoundTrip(i, tail);
      assert s[1..] == p[1..] + tail;
    case Real(bits) =>
      WordRoundTrip(bits, true, tail);
      assert s[1..] == Little(bits, 8) + tail;
    case Pointer(a) =>
      WordRoundTrip(a, false, tail);
      assert s[1..] == Little(a, 8) + tail;
    case Str(t) =>
      StringRoundTrip(t, tail);
      assert s[1..] == p[1..] + tail;
    case Table(arr, hash) => TableRoundTrip(v, depth, tail);
  }

  lemma {:induction false} TableRoundTrip(v: Value, depth: nat, tail: Bytes)
    requires v.Table? && WellFormed(v) && Packable(v, depth)
    ensures UnpackOne(Pack(v, depth) + tail) == Got(v, tail)
    decreases v, 0
  {
    var head, arr, hash := PackArraySize(|v.arr|), PackArray(v.arr, depth + 1), PackPairs(v.hash, depth + 1);
    var s := Pack(v, depth) + tail;
    assert s == head + (arr + (hash + tail));
    assert s[0] == head[0] && s[1..] == head[1..] + (arr + (hash + tail));
    ArraySizeRoundTrip(|v.arr|, arr + (hash + tail));
    ArrayRoundTrip(v.arr, depth + 1, hash + tail);
    PairsRoundTrip(v.hash, depth + 1, tail);
  }

  lemma {:induction false} ArrayRoundTrip(vs: seq<Value>, depth: nat, tail: Bytes)
    requires AllPackable(vs, depth)
    ensures UnpackArray(PackArray(vs, depth) + tail, |vs|) == Got(vs, tail)
    decreases vs
  {
    if vs == [] {
      assert PackArray(vs, depth) + tail == tail;
    } else {
      var rest := PackArray(vs[1..], depth) + tail;
      assert PackArray(vs, depth) + tail == Pack(vs[0], depth) + rest && [vs[0]] + vs[1..] == vs;
      RoundTrip(vs[0], depth, rest);
      ArrayRoundTrip(vs[1..], depth, tail);
    }
  }

  lemma {:induction false} PairsRoundTrip(es: seq<Entry>, depth: nat, tail: Bytes)
    requires PairsPackable(es, depth)
    ensures UnpackPairs(PackPairs(es, depth) + tail) == Got(es, tail)
    decreases es
  {
    if es == [] {
      assert (PackPairs(es, depth) + tail)[1..] == tail;
    } else {
      var rest := PackPairs(es[1..], depth) + tail;
      var e := es[0];
      assert [e][0] == e && [e] + es[1..] == es;
      assert PackPairs(es, depth) + tail == PackEntry(e, depth) + rest;
      EntryRoundTrip(e, depth, rest);
      PairsRoundTrip(es[1..], depth, tail);
    }
  }

  lemma {:induction false} EntryRoundTrip(e: Entry, depth: nat, rest: Bytes)
    requires PairsPackable([e], depth)
    ensures var key := UnpackOne(PackEntry(e, depth) + rest);
            key.Got? && key.value == e.key && UnpackOne(key.rest) == Got(e.value, rest)
    decreases e
  {
    assert [e][0] == e;
    assert PackEntry(e, depth) + rest == Pack(e.key, depth) + (Pack(e.value, depth) + rest);
    RoundTrip(e.key, depth, Pack(e.value, depth) + rest);
    RoundTrip(e.value, depth, rest);
  }

  /** A whole argument list: luaseri_unpack undoes luaseri_pack. */
  lemma {:induction false} AllRoundTrip(vs: seq<Value>)
    requires AllPackable(vs, 0)
    ensures UnpackAll(PackArray(vs, 0)) == Some(vs)
  {
    if vs != [] {
      assert [vs[0]] + vs[1..] == vs;
      RoundTrip(vs[0], 0, PackArray(vs[1..], 0));
      AllRoundTrip(vs[1..]);
    }
  }

  // ----- the depth limit

  /** No function, thread or full userdata anywhere. */
  predicate Supported(v: Value)
    decreases v
  {
    && !v.Unsupported?
    && (v.Table? ==>
          && (forall i :: 0 <= i < |v.arr| ==> Supported(v.arr[i]))
          && (forall i :: 0 <= i < |v.hash| ==> Supported(v.hash[i].key) && Supported(v.hash[i].value)))
  }

  function Max(a: nat, b: nat): nat { if a < b then b else a }

  /** How many tables deep the deepest element lies. */
  function Height(v: Value): nat
    decreases v
  {
    if v.Table? then Max(ArrayHeight(v.arr), PairsHeight(v.hash)) else 0
  }

  function ArrayHeight(vs: seq<Value>): nat
    decreases vs
  {
    if vs == [] then 0 else Max(1 + Height(vs[0]), ArrayHeight(vs[1..]))
  }

  function PairsHeight(es: seq<Entry>): nat
    decreases es
  {
    if es == [] then 0 else Max(EntryHeight(es[0]), PairsHeight(es[1..]))
  }

  function EntryHeight(e: Entry): nat
    decreases e
  {
    1 + Max(Height(e.key), Height(e.value))
  }

  /** pack_one raises an error exactly for unsupported values and for elements nested more than 32 tables deep. */
  lemma {:induction false} DepthLimit(v: Value, depth: nat)
    ensures Packable(v, depth) <==> Supported(v) && depth + Height(v) <= 32
    decreases v, 0
  {
    if v.Table? {
      ArrayDepth(v.arr, depth + 1);
      PairsDepth(v.hash, depth + 1);
    }
  }

  lemma {:induction false} ArrayDepth(vs: seq<Value>, depth: nat)
    requires depth > 0
    ensures (forall i :: 0 <= i < |vs| ==> Packable(vs[i], depth)) <==>
            (forall i :: 0 <= i < |vs| ==> Supported(vs[i])) && (vs == [] || depth - 1 + ArrayHeight(vs) <= MAX_DEPTH)
    decreases vs
  {
    if vs != [] {
      DepthLimit(vs[0], depth);
      ArrayDepth(vs[1..], depth);
      assert forall i :: 0 < i < |vs| ==> vs[i] == vs[1..][i - 1];
    }
  }

  predicate EntryPackable(e: Entry, depth: nat) { Packable(e.key, depth) && Packable(e.value, depth) }

  lemma {:induction false} EntryDepth(e: Entry, depth: nat)
    requires depth > 0
    ensures EntryPackable(e, depth) <==>
            Supported(e.key) && Supported(e.value) && depth - 1 + EntryHeight(e) <= MAX_DEPTH
    decreases e
  {
    DepthLimit(e.key, depth);
    DepthLimit(e.value, depth);
  }

  lemma {:induction false} PairsDepth(es: seq<Entry>, depth: nat)
    requires depth > 0
    ensures (forall i :: 0 <= i < |es| ==> EntryPackable(es[i], depth)) <==>
            (forall i :: 0 <= i < |es| ==> Supported(es[i].key) && Supported(es[i].value)) &&
            (es == [] || depth - 1 + PairsHeight(es) <= MAX_DEPTH)
    decreases es
  {
    if es != [] {
      EntryDepth(es[0], depth);
      PairsDepth(es[1..], depth);
      assert forall i :: 0 < i < |es| ==> es[i] == es[1..][i - 1];
    }
  }
}
