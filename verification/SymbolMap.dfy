/**
 The growing string map of game_room/luaclib-src/pbc/map.c (_pbcM_sp_*), for any hash function.
 */
module SymbolMap {
  import opened Arithmetic
  import opened ChainedSlots

  type StringSlot = Slot<string, Pointer>

  const EMPTY := Slot<string, Pointer>.Slot(NoKey, 0, Null, 0)

  /** The linear probe, one slot on. */
  lemma NextSlot(i: nat, n: nat)
    requires i < n
    ensures (i + 1) % n == if i + 1 == n then 0 else i + 1
  {
    if i + 1 == n { ModUnique(i + 1, 1, 0, n); } else { ModUnique(i + 1, 0, i + 1, n); }
  }

  /** struct map_sp. `hashOf` is calc_hash. */
  class Map {
    const hashOf: string -> nat
    var cap: nat
    var size: nat
    var slot: array<StringSlot>
    ghost var bits: nat
    ghost var layout: Layout
    ghost var content: map<string, Pointer>

    ghost predicate Hashed()
      reads this, slot
    {
      forall i :: Used(slot[..], i) ==> slot[..][i].hash == hashOf(slot[..][i].key.k)
    }

    /** Chains are acyclic, reach every key from its home slot, and list the map's entries. */
    ghost predicate Valid()
      reads this, slot
    {
      && slot.Length == cap == TwoTo(bits) && size == Filled(slot[..]) <= cap
      && Linked(slot[..], layout) && Lists(slot[..], content) && Hashed()
    }

    /** _pbcM_sp_new. */
    constructor (max: nat, hashOf: string -> nat)
      ensures Valid() && content == map[] && fresh(slot) && this.hashOf == hashOf
      ensures max <= cap && (cap == 1 || cap < 2 * max)
    {
      this.hashOf := hashOf;
      var c := 1;
      ghost var b := 0;
      while c < max
        invariant c == TwoTo(b) && (c == 1 || c < 2 * max)
        decreases max - c
      {
        c := c * 2;
        b := b + 1;
      }
      cap := c;
      size := 0;
      slot := new StringSlot[c](_ => EMPTY);
      bits := b;
      layout := Layout(seq(c, _ => 0), seq(c, _ => 0.0));
      content := map[];
      new;
      NoneFilled(slot[..]);
    }

    /** `hash & (cap - 1)`. */
    method Masked(hash: nat) returns (at: nat)
      requires cap == TwoTo(bits)
      ensures at == hash % cap && at < cap
    {
      AndLowOnes(hash, bits);
      at := BitAnd(hash, cap - 1);
    }

    /** The probe for a free slot, from the one after home. */
    method Probe(home: nat) returns (empty: nat)
      requires Valid() && home < cap && size < cap
      ensures empty < cap && slot[empty].key.NoKey?
    {
      ghost var target := FreeSlot(slot[..]);
      NextSlot(home, cap);
      empty := Masked(home + 1);
      while slot[empty].key.Key?
        invariant empty < cap
        decreases if empty <= target then target - empty else target + cap - empty
      {
        NextSlot(empty, cap);
        empty := Masked(empty + 1);
      }
    }

    /** A free slot that is its key's home. */
    method TakeHome(home: nat, key: string, value: Pointer)
      requires Valid() && home < cap && slot[home].key.NoKey? && Home(hashOf(key), cap) == home && key !in content
      modifies this`size, this`layout, this`content, slot
      ensures Valid() && content == old(content)[key := value] && size == old(size) + 1
      ensures slot[home].key == Key(key)
    {
      ghost var t := slot[..];
      HomeKeeps(t, layout, home, key, hashOf(key), value);
      FilledUpdate(t, home, Slot(Key(key), hashOf(key), value, slot[home].next));
      FilledAtMost(PutHome(t, home, key, hashOf(key), value));
      ListsMore(t, PutHome(t, home, key, hashOf(key), value), home, key, value, content);
      slot[home] := Slot(Key(key), hashOf(key), value, slot[home].next);
      assert slot[..] == PutHome(t, home, key, hashOf(key), value);
      layout := HomeLayout(layout, home);
      content := content[key := value];
      size := size + 1;
    }

    /** A free slot, linked in behind slot s of the home's chain. */
    method LinkIn(s: nat, e: nat, key: string, value: Pointer)
      requires Valid() && s < cap && e < cap && slot[e].key.NoKey? && slot[s].key.Key? && key !in content
      requires var h := Home(hashOf(key), cap); slot[h].key.Key? && Behind(layout, h, s)
      modifies this`size, this`layout, this`content, slot
      ensures Valid() && content == old(content)[key := value] && size == old(size) + 1
      ensures slot[e].key == Key(key)
    {
      ghost var t := slot[..];
      ghost var t' := PutAfter(t, s, e, key, hashOf(key), value);
      AfterKeeps(t, layout, s, e, key, hashOf(key), value);
      FilledUpdate(t, e, Slot(Key(key), hashOf(key), value, t[s].next));
      FilledUpdate(t[e := Slot(Key(key), hashOf(key), value, t[s].next)], s, t[s].(next := e + 1));
      FilledAtMost(t');
      ListsMore(t, t', e, key, value, content);
      slot[e] := Slot(Key(key), hashOf(key), value, slot[s].next);
      slot[s] := slot[s].(next := e + 1);
      assert slot[..] == t';
      layout := AfterLayout(t, layout, s, e);
      content := content[key := value];
      size := size + 1;
    }

    /** _pbcM_sp_insert_hash, for a key the map does not hold; a full map is rehashed first. */
    method InsertHash(key: string, hash: nat, value: Pointer)
      requires Valid() && key !in content && hash == hashOf(key)
      modifies this, slot
      ensures Valid() && content == old(content)[key := value] && size == old(size) + 1
      ensures if old(size < cap) then slot == old(slot) && cap == old(cap) else fresh(slot) && cap == 2 * old(cap)
      decreases if size < cap then 0 else 2
    {
      if cap > size {
        var home := Masked(hash);
        if slot[home].key.NoKey? {
          TakeHome(home, key, value);
        } else {
          var empty := Probe(home);
          LinkIn(home, empty, key, value);
        }
        return;
      }
      Rehash();
      InsertHash(key, hash, value);
    }

    /** The new, empty table of _pbcM_sp_rehash. */
    method Grow()
      requires Valid()
      modifies this
      ensures Valid() && content == map[] && size == 0 && cap == 2 * old(cap) && fresh(slot)
    {
      cap := cap * 2;
      slot := new StringSlot[cap](_ => EMPTY);
      size := 0;
      bits, layout, content := bits + 1, Layout(seq(cap, _ => 0), seq(cap, _ => 0.0)), map[];
      NoneFilled(slot[..]);
    }

    /** _pbcM_sp_rehash: twice the slots, the same entries. */
    method Rehash()
      requires Valid() && size == cap
      modifies this, slot
      ensures Valid() && content == old(content) && size == old(size) && cap == 2 * old(cap) && fresh(slot)
      ensures slot != old(slot)
      decreases 1
    {
      var was, n := slot, size;
      ghost var t, m := slot[..], content;
      Grow();
      var i := 0;
      while i < n
        invariant 0 <= i <= n && Valid() && size == i && cap == 2 * n && fresh(slot) && was[..] == t
        invariant Lists(t, m) && Copied(t, i, content)
      {
        AllFilled(t, i);
        CopiedMore(t, i, content, m);
        assert was[i] == t[i];
        InsertHash(was[i].key.k, was[i].hash, was[i].pointer);
        i := i + 1;
      }
      AllCopied(t, content, m);
    }

    /** The walk of the queries: at the key's slot, or at the last slot of its home's chain. */
    method Walk(key: string) returns (at: nat, found: bool)
      requires Valid() && slot[Home(hashOf(key), cap)].key.Key?
      ensures at < cap && slot[at].key.Key? && Behind(layout, Home(hashOf(key), cap), at)
      ensures found <==> slot[at].key == Key(key)
      ensures found <==> key in content
      ensures !found ==> slot[at].next == 0
    {
      var hash := hashOf(key);
      ghost var t := slot[..];
      at := Masked(hash);
      ghost var j := at;
      if key in content {
        j :| Used(t, j) && t[j].key.k == key;
        assert HomeOk(t, layout, j);
      }
      while true
        invariant at < cap && Used(t, at) && Behind(layout, Home(hash, cap), at)
        invariant key in content ==> Behind(layout, at, j)
        decreases Further(layout, at)
      {
        if slot[at].hash == hash && slot[at].key.k == key {
          assert t[at].key.k in content;
          return at, true;
        }
        if key in content {
          WalkOn(t, layout, at, j);
        }
        if slot[at].next == 0 {
          return at, false;
        }
        WalkEnds(t, layout, at);
        at := slot[at].next - 1;
      }
    }

    /** _pbcM_sp_query. */
    method Query(key: string) returns (r: Pointer)
      requires Valid()
      ensures r == if key in content then content[key] else Null
    {
      var home := Masked(hashOf(key));
      if slot[home].key.NoKey? {
        HomeIsUsed(key);
        return Null;
      }
      var at, found := Walk(key);
      if found {
        assert Used(slot[..], at) && slot[..][at].key.k == key;
        return slot[at].pointer;
      }
      return Null;
    }

    lemma HomeIsUsed(key: string)
      requires Valid() && slot[Home(hashOf(key), cap)].key.NoKey?
      ensures key !in content
    {
      forall j | Used(slot[..], j)
        ensures slot[..][j].key.k != key
      {
        assert HomeOk(slot[..], layout, j);
      }
    }

    /** _pbcM_sp_query_insert: the slot whose pointer the caller gets the address of. */
    method QueryInsert(key: string) returns (at: nat)
      requires Valid()
      modifies this, slot
      ensures Valid() && at < cap && slot[at].key == Key(key)
      ensures content == if key in old(content) then old(content) else old(content)[key := Null]
      ensures slot == old(slot) || fresh(slot)
      decreases if size < cap then 0 else 1
    {
      var home := Masked(hashOf(key));
      if slot[home].key.NoKey? {
        HomeIsUsed(key);
        if cap > size {
          TakeHome(home, key, Null);
          return home;
        }
      } else {
        var last, found := Walk(key);
        if found {
          return last;
        }
        if cap > size {
          at := Probe(home);
          LinkIn(last, at, key, Null);
          return;
        }
      }
      Rehash();
      at := QueryInsert(key);
    }

    /** What a caller does through the address it got. */
    method Store(at: nat, value: Pointer)
      requires Valid() && at < cap && slot[at].key.Key?
      modifies this`content, slot
      ensures Valid() && content == old(content)[old(slot[at].key.k) := value]
    {
      ghost var t := slot[..];
      slot[at] := slot[at].(pointer := value);
      content := content[slot[at].key.k := value];
      PointerKeeps(t, layout, at, value);
      ListsStored(t, old(content), at, value);
      assert slot[..] == t[at := t[at].(pointer := value)];
    }
  }

  /** The map holds exactly the first i slots. */
  ghost predicate Copied(t: seq<StringSlot>, i: nat, m: map<string, Pointer>)
    requires i <= |t|
  {
    && (forall j :: 0 <= j < i ==> Used(t, j) && t[j].key.k in m && m[t[j].key.k] == t[j].pointer)
    && (forall x :: x in m ==> exists j :: 0 <= j < i && Used(t, j) && t[j].key.k == x)
  }

  lemma CopiedMore(t: seq<StringSlot>, i: nat, c: map<string, Pointer>, m: map<string, Pointer>)
    requires Lists(t, m) && i < |t| && Used(t, i) && Copied(t, i, c)
    ensures t[i].key.k !in c && Copied(t, i + 1, c[t[i].key.k := t[i].pointer])
  {
    var k := t[i].key.k;
    forall j | 0 <= j < i
      ensures t[j].key.k != k
    {
      assert Used(t, j);
    }
    assert k !in c;
    var c' := c[k := t[i].pointer];
    forall x | x in c'
      ensures exists j :: 0 <= j < i + 1 && Used(t, j) && t[j].key.k == x
    {
      if x != k {
        var j :| 0 <= j < i && Used(t, j) && t[j].key.k == x;
      }
    }
  }

  lemma AllCopied(t: seq<StringSlot>, c: map<string, Pointer>, m: map<string, Pointer>)
    requires Lists(t, m) && Copied(t, |t|, c)
    ensures c == m
  {
    forall x | x in m
      ensures x in c && c[x] == m[x]
    {
      var j :| Used(t, j) && t[j].key.k == x;
    }
    forall x | x in c
      ensures x in m
    {
      var j :| 0 <= j < |t| && Used(t, j) && t[j].key.k == x;
    }
  }

  lemma PointerKeeps(t: seq<StringSlot>, l: Layout, at: nat, value: Pointer)
    requires Linked(t, l) && at < |t|
    ensures Linked(t[at := t[at].(pointer := value)], l)
    ensures Filled(t[at := t[at].(pointer := value)]) == Filled(t)
  {
    var t' := t[at := t[at].(pointer := value)];
    FilledUpdate(t, at, t[at].(pointer := value));
    forall i | 0 <= i < |t|
      ensures LinkOk(t', l, i) && HomeOk(t', l, i)
    {
      assert LinkOk(t, l, i) && HomeOk(t, l, i);
    }
    forall i, j | 0 <= i < |t| && 0 <= j < |t|
      ensures NearOk(t', l, i, j)
    {
      assert NearOk(t, l, i, j);
    }
  }

  lemma ListsStored(t: seq<StringSlot>, m: map<string, Pointer>, at: nat, value: Pointer)
    requires Lists(t, m) && Used(t, at)
    ensures Lists(t[at := t[at].(pointer := value)], m[t[at].key.k := value])
  {
    var t' := t[at := t[at].(pointer := value)];
    forall i | 0 <= i < |t|
      ensures Used(t', i) == Used(t, i) && t'[i].key == t[i].key
    {
    }
  }
}
