/**
 The integer map of game_room/luaclib-src/pbc/map.c (_pbcM_ip_*): a plain array for small ids, coalesced
 chains in a full table otherwise. Both forms answer the same queries.
 */
module IdMap {
  import opened ChainedSlots

  /** struct map_kv; the pointers that are entered are not NULL. */
  datatype Entry = Entry(id: int, a: nat)

  type IdSlot = Slot<int, Pointer>

  const EMPTY := Slot<int, Pointer>.Slot(NoKey, 0, Null, 0)

  predicate IsInt(id: int) { -0x8000_0000 <= id < 0x8000_0000 }

  /** (unsigned)id. */
  function Unsigned(id: int): nat
    requires IsInt(id)
  {
    if id < 0 then id + 0x1_0000_0000 else id
  }

  ghost predicate ValidTable(table: seq<Entry>) {
    && table != []
    && (forall i :: 0 <= i < |table| ==> IsInt(table[i].id))
    && (forall i, j :: 0 <= i < |table| && 0 <= j < |table| && table[i].id == table[j].id ==> i == j)
  }

  /** What the table says: the meaning of a map built from it. */
  function Meaning(table: seq<Entry>): map<int, Pointer> {
    if table == [] then map[]
    else Meaning(table[..|table| - 1])[table[|table| - 1].id := Address(table[|table| - 1].a)]
  }

  lemma {:induction false} MeaningHas(table: seq<Entry>, id: int)
    ensures id in Meaning(table) <==> exists i :: 0 <= i < |table| && table[i].id == id
    ensures id in Meaning(table) ==> Meaning(table)[id].Address?
  {
    if table != [] {
      var n := |table| - 1;
      MeaningHas(table[..n], id);
      if id in Meaning(table[..n]) {
        var i :| 0 <= i < n && table[..n][i].id == id;
        assert table[i].id == id;
      }
      if i :| 0 <= i < |table| && table[i].id == id {
        assert i < n ==> table[..n][i].id == id;
      }
    }
  }

  lemma NewId(table: seq<Entry>, i: nat)
    requires ValidTable(table) && i < |table|
    ensures table[i].id !in Meaning(table[..i])
    ensures Meaning(table[..i + 1]) == Meaning(table[..i])[table[i].id := Address(table[i].a)]
  {
    MeaningHas(table[..i], table[i].id);
    assert table[..i + 1][..i] == table[..i];
  }

  ghost predicate Hashed(t: seq<IdSlot>) {
    forall i :: Used(t, i) ==> IsInt(t[i].key.k) && t[i].hash == Unsigned(t[i].key.k)
  }

  /** struct map_ip: `direct` is its array, null in the hash form. */
  class Map {
    var direct: array?<Pointer>
    var hashSize: nat
    var slot: array<IdSlot>
    ghost var layout: Layout
    ghost var content: map<int, Pointer>

    ghost predicate DirectOk()
      requires direct != null
      reads this, direct
    {
      && (forall id :: id in content ==> 0 <= id < direct.Length && direct[id] == content[id])
      && (forall i :: 0 <= i < direct.Length && i !in content ==> direct[i] == Null)
    }

    ghost predicate HashOk()
      reads this, slot
    {
      Chains() && Filled(slot[..]) == hashSize
    }

    ghost predicate Valid()
      reads this, direct, slot
    {
      if direct != null then DirectOk() else HashOk()
    }

    /** _pbcM_ip_new: the array form when all ids are between 0 and twice the size, the hash form otherwise. */
    constructor (table: seq<Entry>)
      requires ValidTable(table)
      ensures Valid() && content == Meaning(table)
      ensures direct != null <==> forall i :: 0 <= i < |table| ==> 0 <= table[i].id <= 2 * |table|
    {
      var n := |table|;
      direct := null;
      hashSize := n;
      slot := new IdSlot[n](_ => EMPTY);
      layout := Layout(seq(n, _ => 0), seq(n, _ => 0.0));
      content := map[];
      new;
      var small, max := Small(table);
      if small {
        FillDirect(table, max);
      } else {
        FillHash(table);
      }
    }

    /** The array form. */
    method FillDirect(table: seq<Entry>, max: nat)
      requires ValidTable(table) && forall i :: 0 <= i < |table| ==> 0 <= table[i].id <= max
      modifies this`direct, this`content
      ensures direct != null && DirectOk() && content == Meaning(table)
    {
      var d := new Pointer[max + 1](_ => Null);
      for i := 0 to |table|
        invariant forall id :: id in Meaning(table[..i]) ==> 0 <= id < d.Length && d[id] == Meaning(table[..i])[id]
        invariant forall j :: 0 <= j < d.Length && j !in Meaning(table[..i]) ==> d[j] == Null
      {
        NewId(table, i);
        d[table[i].id] := Address(table[i].a);
      }
      assert table[..|table|] == table;
      direct := d;
      content := Meaning(table);
    }

    /** _pbcM_ip_new_hash: `empty` never has to look back. */
    method FillHash(table: seq<Entry>)
      requires ValidTable(table) && direct == null && slot.Length == hashSize == |table|
      requires content == map[] && layout == Layout(seq(hashSize, _ => 0), seq(hashSize, _ => 0.0))
      requires forall i :: 0 <= i < slot.Length ==> slot[i] == EMPTY
      modifies this`layout, this`content, slot
      ensures HashOk() && content == Meaning(table)
    {
      var n := |table|;
      NoneFilled(slot[..]);
      var empty: nat := 0;
      for i := 0 to n
        invariant slot.Length == hashSize == n && direct == null && empty <= n
        invariant Filled(slot[..]) == i && content == Meaning(table[..i])
        invariant Chains()
        invariant forall j :: 0 <= j < empty ==> slot[j].key.Key?
      {
        NewId(table, i);
        empty := Enter(table[i], empty);
      }
      assert table[..n] == table;
    }

    ghost predicate Chains()
      reads this, slot
    {
      && slot.Length == hashSize > 0
      && Linked(slot[..], layout) && Lists(slot[..], content) && Hashed(slot[..])
    }

    /** An entry whose home is free. */
    method EnterHome(e: Entry, hash: nat)
      requires IsInt(e.id) && e.id !in content && Chains() && hash < hashSize
      requires slot[hash].key.NoKey? && Home(Unsigned(e.id), hashSize) == hash
      modifies this`layout, this`content, slot
      ensures Chains() && content == old(content)[e.id := Address(e.a)]
      ensures Filled(slot[..]) == old(Filled(slot[..])) + 1 && slot[hash].key.Key?
      ensures forall j :: 0 <= j < hashSize && old(slot[j].key.Key?) ==> slot[j].key.Key?
    {
      ghost var t, v := slot[..], Address(e.a);
      var unsigned := Unsigned(e.id);
      HomeKeeps(t, layout, hash, e.id, unsigned, v);
      FilledUpdate(t, hash, Slot(Key(e.id), unsigned, v, t[hash].next));
      ListsMore(t, PutHome(t, hash, e.id, unsigned, v), hash, e.id, v, content);
      slot[hash] := Slot(Key(e.id), unsigned, Address(e.a), slot[hash].next);
      assert slot[..] == PutHome(t, hash, e.id, unsigned, v);
      layout := HomeLayout(layout, hash);
      content := content[e.id := v];
    }

    /** An entry that goes to the free slot `empty`, behind its home. */
    method EnterBehind(e: Entry, hash: nat, empty: nat)
      requires IsInt(e.id) && e.id !in content && Chains() && hash < hashSize && empty < hashSize
      requires slot[hash].key.Key? && slot[empty].key.NoKey? && Home(Unsigned(e.id), hashSize) == hash
      modifies this`layout, this`content, slot
      ensures Chains() && content == old(content)[e.id := Address(e.a)]
      ensures Filled(slot[..]) == old(Filled(slot[..])) + 1
      ensures forall j :: 0 <= j < hashSize && old(slot[j].key.Key?) ==> slot[j].key.Key?
    {
      ghost var t, v := slot[..], Address(e.a);
      var unsigned := Unsigned(e.id);
      ghost var t' := PutAfter(t, hash, empty, e.id, unsigned, v);
      AfterKeeps(t, layout, hash, empty, e.id, unsigned, v);
      FilledUpdate(t, empty, Slot(Key(e.id), unsigned, v, t[hash].next));
      FilledUpdate(t[empty := Slot(Key(e.id), unsigned, v, t[hash].next)], hash, t[hash].(next := empty + 1));
      ListsMore(t, t', empty, e.id, v, content);
      slot[empty] := Slot(Key(e.id), unsigned, Address(e.a), slot[hash].next);
      slot[hash] := slot[hash].(next := empty + 1);
      assert slot[..] == t';
      layout := AfterLayout(t, layout, hash, empty);
      content := content[e.id := v];
    }

    /** One entry of the hash form. */
    method Enter(e: Entry, from: nat) returns (empty: nat)
      requires IsInt(e.id) && e.id !in content && Chains() && from <= hashSize && Filled(slot[..]) < hashSize
      requires forall j :: 0 <= j < from ==> slot[j].key.Key?
      modifies this`layout, this`content, slot
      ensures Chains() && content == old(content)[e.id := Address(e.a)]
      ensures Filled(slot[..]) == old(Filled(slot[..])) + 1
      ensures empty <= hashSize && forall j :: 0 <= j < empty ==> slot[j].key.Key?
    {
      var hash := Unsigned(e.id) % hashSize;
      empty := from;
      if slot[hash].key.NoKey? {
        EnterHome(e, hash);
      } else {
        ghost var free := FreeSlot(slot[..]);
        while slot[empty].key.Key?
          invariant empty <= free && forall j :: 0 <= j < empty ==> slot[j].key.Key?
          decreases free - empty
        {
          empty := empty + 1;
        }
        EnterBehind(e, hash, empty);
      }
    }

    /** _pbcM_ip_query. */
    method Query(id: int) returns (r: Pointer)
      requires Valid() && IsInt(id)
      ensures r == if id in content then content[id] else Null
    {
      if direct != null {
        return if 0 <= id < direct.Length then direct[id] else Null;
      }
      ghost var t := slot[..];
      var at := Unsigned(id) % hashSize;
      ghost var home, j := at, at;
      AllFilled(t, at);
      assert HomeOk(t, layout, at);
      if id in content {
        j :| Used(t, j) && t[j].key.k == id;
        assert HomeOk(t, layout, j);
      }
      while true
        invariant at < hashSize && Used(t, at)
        invariant id in content ==> Behind(layout, at, j)
        decreases Further(layout, at)
      {
        assert t[at] == slot[at];
        if slot[at].key.k == id {
          assert t[at].key.k in content;
          return slot[at].pointer;
        }
        if id in content {
          WalkOn(t, layout, at, j);
        }
        if slot[at].next == 0 {
          return Null;
        }
        WalkEnds(t, layout, at);
        at := slot[at].next - 1;
      }
    }
  }

  /** The choice of _pbcM_ip_new: it stops at the first id that does not fit the array form. */
  method Small(table: seq<Entry>) returns (small: bool, max: nat)
    requires table != []
    ensures small <==> forall i :: 0 <= i < |table| ==> 0 <= table[i].id <= 2 * |table|
    ensures small ==> forall i :: 0 <= i < |table| ==> table[i].id <= max
  {
    var m, size := table[0].id, |table|;
    if m > size * 2 || m < 0 {
      return false, 0;
    }
    var i := 1;
    while i < size
      invariant 1 <= i <= size && 0 <= m <= size * 2
      invariant forall j :: 0 <= j < i ==> 0 <= table[j].id <= m
    {
      if table[i].id < 0 {
        return false, 0;
      }
      if table[i].id > m {
        m := table[i].id;
        if m > size * 2 {
          return false, 0;
        }
      }
      i := i + 1;
    }
    return true, m;
  }
}
