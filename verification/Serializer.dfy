/**
 The write side of skynet/lualib-src/lua-seri.c as it runs: a chain of 128-byte blocks that stands for plain
 concatenation, and the packer that pushes a value into it piece by piece.
 */
module Serializer {
  import opened Basics
  import opened SeriFormat

  const BLOCK_SIZE := 128

  /** struct block. */
  class Block {
    var next: Block?
    var buffer: array<Byte>

    /** blk_alloc. */
    constructor ()
      ensures next == null && buffer.Length == 128 && fresh(buffer)
    {
      next := null;
      buffer := new Byte[BLOCK_SIZE];
    }
  }

  /** struct write_block. `text` is everything pushed so far. */
  class WriteBlock {
    var head: Block
    var current: Block
    var len: nat
    var ptr: nat
    ghost var blocks: seq<Block>
    ghost var text: Bytes
    ghost var Repr: set<object>

    ghost predicate Chained()
      reads this, Repr
    {
      && this in Repr && blocks != [] && blocks[0] == head && blocks[|blocks| - 1] == current
      && (forall i {:trigger blocks[i]} :: 0 <= i < |blocks| ==>
            blocks[i] in Repr && blocks[i].buffer in Repr && blocks[i].buffer.Length == BLOCK_SIZE)
      && (forall i, j {:trigger blocks[i].buffer, blocks[j].buffer} :: 0 <= i < j < |blocks| ==>
            blocks[i] != blocks[j] && blocks[i].buffer != blocks[j].buffer)
      && (forall i {:trigger blocks[i].next} :: 0 <= i < |blocks| - 1 ==> blocks[i].next == blocks[i + 1])
      && current.next == null
    }

    /** The chain holds `text`, 128 bytes to a block. */
    ghost predicate Valid()
      reads this, Repr
    {
      && Chained() && ptr <= BLOCK_SIZE && len == BLOCK_SIZE * (|blocks| - 1) + ptr == |text|
      && forall i {:trigger text[i]} :: 0 <= i < len ==> blocks[i / BLOCK_SIZE].buffer[i % BLOCK_SIZE] == text[i]
    }

    /** wb_init. */
    constructor (b: Block)
      requires b.next == null && b.buffer.Length == BLOCK_SIZE
      ensures Valid() && text == [] && Repr == {this, b, b.buffer}
    {
      head, current := b, b;
      len, ptr := 0, 0;
      blocks, text, Repr := [b], [], {this, b, b.buffer};
    }

    /** memcpy into the current block. */
    method Fill(part: Bytes)
      requires Valid() && ptr + |part| <= BLOCK_SIZE
      modifies Repr
      ensures Valid() && Repr == old(Repr) && text == old(text) + part && ptr == old(ptr) + |part|
    {
      var buffer, from := current.buffer, ptr;
      for i := 0 to |part|
        invariant Chained() && Repr == old(Repr) && blocks == old(blocks) && current == old(current) && buffer == current.buffer
        invariant text == old(text) && ptr == from == old(ptr) && len == old(len)
        invariant forall k :: 0 <= k < i ==> buffer[from + k] == part[k]
        invariant forall k :: 0 <= k < len ==> blocks[k / BLOCK_SIZE].buffer[k % BLOCK_SIZE] == text[k]
      {
        buffer[from + i] := part[i];
      }
      ptr := ptr + |part|;
      len := len + |part|;
      text := text + part;
      forall i | 0 <= i < len
        ensures blocks[i / BLOCK_SIZE].buffer[i % BLOCK_SIZE] == text[i]
      {
        if i >= len - |part| {
          assert blocks[i / BLOCK_SIZE] == current && i % BLOCK_SIZE == from + (i - (len - |part|));
        }
      }
    }

    /** A new block when the current one is full. */
    method NextBlock()
      requires Valid() && ptr == BLOCK_SIZE
      modifies Repr
      ensures Valid() && fresh(Repr - old(Repr)) && text == old(text) && ptr == 0
    {
      var b := new Block();
      ghost var n := |blocks|;
      current.next := b;
      current := b;
      ptr := 0;
      blocks := blocks + [b];
      Repr := Repr + {b, b.buffer};
      assert forall i :: 0 <= i < n ==> blocks[i] == old(blocks[i]);
    }

    /** wb_push: whatever the sizes, the bytes are appended. */
    method Push(bytes: Bytes)
      requires Valid()
      modifies Repr
      ensures Valid() && fresh(Repr - old(Repr)) && text == old(text) + bytes
    {
      var buffer := bytes;
      if ptr == BLOCK_SIZE {
        NextBlock();
      }
      while ptr > BLOCK_SIZE - |buffer|
        invariant Valid() && fresh(Repr - old(Repr)) && ptr < BLOCK_SIZE
        invariant text + buffer == old(text) + bytes
        decreases |buffer|
      {
        var copy := BLOCK_SIZE - ptr;
        assert buffer == buffer[..copy] + buffer[copy..];
        Fill(buffer[..copy]);
        buffer := buffer[copy..];
        NextBlock();
      }
      Fill(buffer);
    }

    /** seri: the chain copied into one buffer. */
    method Seri() returns (out: array<Byte>)
      requires Valid()
      ensures fresh(out) && out[..] == text
    {
      out := new Byte[len];
      var at, left, b := 0, len, head;
      ghost var n := 0;
      while left > 0
        invariant 0 <= left && 0 <= at && at + left == len == out.Length && (left > 0 ==> at == BLOCK_SIZE * n)
        invariant left > 0 ==> n < |blocks| && b == blocks[n]
        invariant forall i :: 0 <= i < at ==> out[i] == text[i]
        decreases left
      {
        var m := if left >= BLOCK_SIZE then BLOCK_SIZE else left;
        for i := 0 to m
          invariant forall k :: 0 <= k < at + i ==> out[k] == text[k]
        {
          assert (at + i) / BLOCK_SIZE == n && (at + i) % BLOCK_SIZE == i;
          out[at + i] := b.buffer[i];
        }
        at := at + m;
        left := left - m;
        if m < BLOCK_SIZE {
          break;
        }
        n := n + 1;
        if left > 0 {
          b := b.next;
        }
      }
    }

    /** A tag byte and what follows it. */
    method PushTagged(tag: Byte, body: Bytes)
      requires Valid()
      modifies Repr
      ensures Valid() && fresh(Repr - old(Repr)) && text == old(text) + ([tag] + body)
    {
      ghost var was := text;
      Push([tag]);
      Push(body);
      Joined(was, [tag], body);
    }

    /** wb_integer. */
    method PushInteger(v: Integer)
      requires Valid()
      modifies Repr
      ensures Valid() && fresh(Repr - old(Repr)) && text == old(text) + PackInteger(v)
    {
      if v == 0 {
        Push([Tag(TYPE_NUMBER, TYPE_NUMBER_ZERO)]);
      } else if !IsInt32(v) {
        PushTagged(Tag(TYPE_NUMBER, TYPE_NUMBER_QWORD), Little(if v < 0 then v + 0x1_0000_0000_0000_0000 else v, 8));
      } else if v < 0 {
        PushTagged(Tag(TYPE_NUMBER, TYPE_NUMBER_DWORD), Little(v + 0x1_0000_0000, 4));
      } else if v < 0x100 {
        PushTagged(Tag(TYPE_NUMBER, TYPE_NUMBER_BYTE), Little(v, 1));
      } else if v < 0x1_0000 {
        PushTagged(Tag(TYPE_NUMBER, TYPE_NUMBER_WORD), Little(v, 2));
      } else {
        PushTagged(Tag(TYPE_NUMBER, TYPE_NUMBER_DWORD), Little(v, 4));
      }
    }

    /** wb_string. */
    method PushString(t: Bytes)
      requires Valid() && |t| < INT_LIMIT
      modifies Repr
      ensures Valid() && fresh(Repr - old(Repr)) && text == old(text) + PackString(t)
    {
      ghost var was := text;
      if |t| < MAX_COOKIE {
        Push([Tag(TYPE_SHORT_STRING, |t|)]);
        if |t| > 0 {
          Push(t);
        } else {
          assert text + t == text;
        }
        Joined(was, [Tag(TYPE_SHORT_STRING, |t|)], t);
      } else {
        PushLength(|t|);
        ghost var head := text[|was|..];
        Push(t);
        Joined(was, head, t);
      }
    }

    /** The tag and the length of a long string. */
    method PushLength(n: nat)
      requires Valid() && MAX_COOKIE <= n < INT_LIMIT
      modifies Repr
      ensures Valid() && fresh(Repr - old(Repr)) && text == old(text) + LongHead(n) && text[|old(text)|..] == LongHead(n)
    {
      if n < 0x1_0000 {
        PushTagged(Tag(TYPE_LONG_STRING, 2), Little(n, 2));
      } else {
        PushTagged(Tag(TYPE_LONG_STRING, 4), Little(n, 4));
      }
    }

    /** The tag of a table. */
    method PushArraySize(n: nat)
      requires Valid() && n < INT_LIMIT
      modifies Repr
      ensures Valid() && fresh(Repr - old(Repr)) && text == old(text) + PackArraySize(n)
    {
      if n >= MAX_COOKIE - 1 {
        ghost var was := text;
        Push([Tag(TYPE_TABLE, MAX_COOKIE - 1)]);
        PushInteger(n);
        Joined(was, [Tag(TYPE_TABLE, MAX_COOKIE - 1)], PackInteger(n));
      } else {
        Push([Tag(TYPE_TABLE, n)]);
      }
    }

    /** pack_one: the packed form is appended, or an error raised exactly when the value cannot be packed. */
    method PackOne(v: Value, depth: nat) returns (ok: bool)
      requires Valid() && WellFormed(v)
      modifies Repr
      ensures Valid() && fresh(Repr - old(Repr))
      ensures ok <==> Packable(v, depth)
      ensures ok ==> text == old(text) + Pack(v, depth)
      decreases v, 1
    {
      if depth > MAX_DEPTH {
        return false;
      }
      match v {
        case Nil => Push([Tag(TYPE_NIL, 0)]);
        case Boolean(b) => Push([Tag(TYPE_BOOLEAN, if b then 1 else 0)]);
        case Int(i) => PushInteger(i);
        case Real(bits) => PushTagged(Tag(TYPE_NUMBER, TYPE_NUMBER_REAL), Little(bits, 8));
        case Pointer(a) => PushTagged(Tag(TYPE_USERDATA, 0), Little(a, 8));
        case Str(t) => PushString(t);
        case Unsupported => return false;
        case Table(arr, hash) =>
          ok := PackTable(v, depth + 1);
          return;
      }
      return true;
    }

    /** wb_table. */
    method PackTable(v: Value, depth: nat) returns (ok: bool)
      requires Valid() && v.Table? && WellFormed(v)
      modifies Repr
      ensures Valid() && fresh(Repr - old(Repr))
      ensures ok <==> AllPackable(v.arr, depth) && PairsPackable(v.hash, depth)
      ensures ok ==> text == old(text) + (PackArraySize(|v.arr|) + PackArray(v.arr, depth) + PackPairs(v.hash, depth))
      decreases v, 0
    {
      ghost var was := text;
      var arr, hash := v.arr, v.hash;
      PushArraySize(|arr|);
      ok := PackElements(arr, depth);
      if !ok {
        return;
      }
      ghost var first := PackArraySize(|arr|) + PackArray(arr, depth);
      Joined(was, PackArraySize(|arr|), PackArray(arr, depth));
      ok := PackHash(hash, depth);
      if ok {
        Joined(was, first, PackPairs(hash, depth));
      }
    }

    /** The loop of wb_table_array. */
    method PackElements(vs: seq<Value>, depth: nat) returns (ok: bool)
      requires Valid() && forall i :: 0 <= i < |vs| ==> WellFormed(vs[i])
      modifies Repr
      ensures Valid() && fresh(Repr - old(Repr))
      ensures ok <==> AllPackable(vs, depth)
      ensures ok ==> text == old(text) + PackArray(vs, depth)
      decreases vs
    {
      for i := 0 to |vs|
        invariant Valid() && fresh(Repr - old(Repr)) && AllPackable(vs[..i], depth)
        invariant text == old(text) + PackArray(vs[..i], depth)
      {
        ok := PackOne(vs[i], depth);
        if !ok {
          return;
        }
        assert vs[..i + 1] == vs[..i] + [vs[i]];
        ArrayAppend(vs[..i], vs[i], depth);
        Joined(old(text), PackArray(vs[..i], depth), Pack(vs[i], depth));
      }
      assert vs[..|vs|] == vs;
      return true;
    }

    /** The loop of wb_table_hash, and the nil that ends it. */
    method PackHash(es: seq<Entry>, depth: nat) returns (ok: bool)
      requires Valid()
      requires forall i :: 0 <= i < |es| ==> !es[i].key.Nil? && WellFormed(es[i].key) && WellFormed(es[i].value)
      modifies Repr
      ensures Valid() && fresh(Repr - old(Repr))
      ensures ok <==> PairsPackable(es, depth)
      ensures ok ==> text == old(text) + PackPairs(es, depth)
      decreases es
    {
      for i := 0 to |es|
        invariant Valid() && fresh(Repr - old(Repr)) && PairsPackable(es[..i], depth)
        invariant text == old(text) + Entries(es[..i], depth)
      {
        ok := PackPair(es[i], depth);
        if !ok {
          return;
        }
        assert es[..i + 1] == es[..i] + [es[i]] && es[..i + 1][..i] == es[..i];
        Joined(old(text), Entries(es[..i], depth), PackEntry(es[i], depth));
      }
      assert es[..|es|] == es;
      EntriesEnd(es, depth);
      Push([Tag(TYPE_NIL, 0)]);
      Joined(old(text), Entries(es, depth), [Tag(TYPE_NIL, 0)]);
      return true;
    }

    method PackPair(e: Entry, depth: nat) returns (ok: bool)
      requires Valid() && !e.key.Nil? && WellFormed(e.key) && WellFormed(e.value)
      modifies Repr
      ensures Valid() && fresh(Repr - old(Repr))
      ensures ok <==> PairsPackable([e], depth)
      ensures ok ==> text == old(text) + PackEntry(e, depth)
      decreases e
    {
      assert [e][0] == e;
      ok := PackOne(e.key, depth);
      if ok {
        ok := PackOne(e.value, depth);
        if ok {
          Joined(old(text), Pack(e.key, depth), Pack(e.value, depth));
        }
      }
    }
  }

  lemma Joined(a: Bytes, b: Bytes, c: Bytes)
    ensures a + b + c == a + (b + c)
  {
  }

  lemma {:induction false} ArrayAppend(vs: seq<Value>, v: Value, depth: nat)
    requires AllPackable(vs, depth) && WellFormed(v) && Packable(v, depth)
    ensures AllPackable(vs + [v], depth) && PackArray(vs + [v], depth) == PackArray(vs, depth) + Pack(v, depth)
  {
    if vs == [] {
      assert vs + [v] == [v];
      assert PackArray([v], depth) == Pack(v, depth) + PackArray([v][1..], depth);
    } else {
      ArrayAppend(vs[1..], v, depth);
      assert (vs + [v])[1..] == vs[1..] + [v];
    }
  }

  /** Pairs without the closing nil. */
  function Entries(es: seq<Entry>, depth: nat): Bytes
    requires PairsPackable(es, depth)
    decreases |es|
  {
    if es == [] then [] else Entries(es[..|es| - 1], depth) + PackEntry(es[|es| - 1], depth)
  }

  lemma {:induction false} EntriesFront(es: seq<Entry>, depth: nat)
    requires PairsPackable(es, depth) && es != []
    ensures Entries(es, depth) == PackEntry(es[0], depth) + Entries(es[1..], depth)
    decreases |es|
  {
    var n := |es| - 1;
    if n == 0 {
      assert Entries(es[..0], depth) == [] && es[1..] == [];
    } else {
      EntriesFront(es[..n], depth);
      assert es[..n][1..] == es[1..][..n - 1] && es[1..][n - 1] == es[n] && es[..n][0] == es[0];
      Joined(PackEntry(es[0], depth), Entries(es[1..][..n - 1], depth), PackEntry(es[n], depth));
    }
  }

  lemma {:induction false} EntriesEnd(es: seq<Entry>, depth: nat)
    requires PairsPackable(es, depth)
    ensures PackPairs(es, depth) == Entries(es, depth) + [Tag(TYPE_NIL, 0)]
    decreases |es|
  {
    if es != [] {
      EntriesFront(es, depth);
      EntriesEnd(es[1..], depth);
    }
  }

  /** luaseri_pack: one buffer that luaseri_unpack reads back, or an error exactly when a value cannot be packed. */
  method PackAll(vs: seq<Value>) returns (ok: bool, out: array?<Byte>)
    requires forall i :: 0 <= i < |vs| ==> WellFormed(vs[i])
    ensures ok <==> AllPackable(vs, 0)
    ensures ok ==> out != null && fresh(out) && out[..] == PackArray(vs, 0) && UnpackAll(out[..]) == Some(vs)
  {
    out := null;
    var temp := new Block();
    var wb := new WriteBlock(temp);
    ok := wb.PackElements(vs, 0);
    if ok {
      out := wb.Seri();
      AllRoundTrip(vs);
    }
  }
}
