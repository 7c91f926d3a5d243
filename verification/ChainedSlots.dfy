/**
 Coalesced chains in one slot array, as the hash maps of game_room/luaclib-src/pbc/map.c build them: a key
 goes to its home slot, or to a free slot that is linked in behind a slot of the chain its home lies on.
 */
module ChainedSlots {

  /** A stored `void *`. */
  datatype Pointer = Null | Address(a: nat)

  datatype Key<K> = NoKey | Key(k: K)

  /** `next` is one more than the index of the next slot, 0 at the end of a chain. */
  datatype Slot<K, V> = Slot(key: Key<K>, hash: nat, pointer: V, next: nat)

  /** Which chain a slot is on, named by the slot it began in, and how far along it lies. */
  datatype Layout = Layout(chain: seq<nat>, rank: seq<real>)

  predicate Used<K, V>(t: seq<Slot<K, V>>, i: int) { 0 <= i < |t| && t[i].key.Key? }

  /** Slot j lies on the chain of slot i, at i or behind it. */
  predicate Behind(l: Layout, i: nat, j: nat)
    requires i < |l.chain| == |l.rank| && j < |l.chain|
  {
    l.chain[i] == l.chain[j] && l.rank[i] <= l.rank[j]
  }

  predicate Sized<K, V>(t: seq<Slot<K, V>>, l: Layout) { |l.chain| == |l.rank| == |t| }

  /** A link leads to a used slot further along the same chain; a free slot has no link. */
  predicate LinkOk<K, V>(t: seq<Slot<K, V>>, l: Layout, i: nat)
    requires Sized(t, l) && i < |t|
  {
    t[i].next > 0 ==>
      && Used(t, i) && Used(t, t[i].next - 1)
      && l.chain[t[i].next - 1] == l.chain[i] && l.rank[i] < l.rank[t[i].next - 1]
  }

  /** ... and skips no slot of the chain. */
  predicate NearOk<K, V>(t: seq<Slot<K, V>>, l: Layout, i: nat, j: nat)
    requires Sized(t, l) && i < |t| && j < |t|
  {
    Used(t, i) && Used(t, j) && l.chain[i] == l.chain[j] && i != j ==>
      && l.rank[i] != l.rank[j]
      && (l.rank[i] < l.rank[j] ==> 0 < t[i].next <= |t| && l.rank[t[i].next - 1] <= l.rank[j])
  }

  /** A chain is named by a used slot; a key lies on the chain of its home slot, at home or behind it. */
  predicate HomeOk<K, V>(t: seq<Slot<K, V>>, l: Layout, j: nat)
    requires Sized(t, l) && j < |t|
  {
    Used(t, j) ==> Used(t, l.chain[j]) && Used(t, Home(t[j].hash, |t|)) && Behind(l, Home(t[j].hash, |t|), j)
  }

  function Home(hash: nat, n: nat): (h: nat)
    requires n > 0
    ensures h < n
  {
    hash % n
  }

  ghost predicate Linked<K, V>(t: seq<Slot<K, V>>, l: Layout) {
    && Sized(t, l)
    && (forall i :: 0 <= i < |t| ==> LinkOk(t, l, i))
    && (forall i, j :: 0 <= i < |t| && 0 <= j < |t| ==> NearOk(t, l, i, j))
    && (forall j :: 0 <= j < |t| ==> HomeOk(t, l, j))
  }

  ghost predicate Distinct<K, V>(t: seq<Slot<K, V>>) {
    forall i, j :: Used(t, i) && Used(t, j) && t[i].key == t[j].key ==> i == j
  }

  // ----- the two ways a key comes in

  function PutHome<K, V>(t: seq<Slot<K, V>>, h: nat, k: K, hash: nat, v: V): seq<Slot<K, V>>
    requires h < |t|
  {
    t[h := Slot(Key(k), hash, v, t[h].next)]
  }

  /** Behind slot s: the free slot e takes over the link of s. */
  function PutAfter<K, V>(t: seq<Slot<K, V>>, s: nat, e: nat, k: K, hash: nat, v: V): seq<Slot<K, V>>
    requires s < |t| && e < |t|
  {
    t[e := Slot(Key(k), hash, v, t[s].next)][s := t[s].(next := e + 1)]
  }

  function HomeLayout(l: Layout, h: nat): Layout
    requires h < |l.chain| == |l.rank|
  {
    Layout(l.chain[h := h], l.rank[h := 0.0])
  }

  function AfterLayout<K, V>(t: seq<Slot<K, V>>, l: Layout, s: nat, e: nat): Layout
    requires Sized(t, l) && s < |t| && e < |t| && t[s].next <= |t|
  {
    var r := if t[s].next == 0 then l.rank[s] + 1.0 else (l.rank[s] + l.rank[t[s].next - 1]) / 2.0;
    Layout(l.chain[e := l.chain[s]], l.rank[e := r])
  }

  lemma HomeAlone<K, V>(t: seq<Slot<K, V>>, l: Layout, h: nat, k: K, hash: nat, v: V, i: nat)
    requires Sized(t, l) && h < |t| && !Used(t, h) && Home(hash, |t|) == h && i < |t|
    requires LinkOk(t, l, h) && LinkOk(t, l, i) && HomeOk(t, l, i)
    ensures LinkOk(PutHome(t, h, k, hash, v), HomeLayout(l, h), i)
    ensures HomeOk(PutHome(t, h, k, hash, v), HomeLayout(l, h), i)
  {
  }

  lemma HomeNear<K, V>(t: seq<Slot<K, V>>, l: Layout, h: nat, k: K, hash: nat, v: V, i: nat, j: nat)
    requires Sized(t, l) && h < |t| && !Used(t, h) && i < |t| && j < |t|
    requires NearOk(t, l, i, j) && LinkOk(t, l, i) && HomeOk(t, l, i) && HomeOk(t, l, j)
    ensures NearOk(PutHome(t, h, k, hash, v), HomeLayout(l, h), i, j)
  {
  }

  lemma HomeKeeps<K, V>(t: seq<Slot<K, V>>, l: Layout, h: nat, k: K, hash: nat, v: V)
    requires Linked(t, l) && h < |t| && !Used(t, h) && Home(hash, |t|) == h
    ensures Linked(PutHome(t, h, k, hash, v), HomeLayout(l, h))
  {
    var t', l' := PutHome(t, h, k, hash, v), HomeLayout(l, h);
    assert LinkOk(t, l, h);
    forall i | 0 <= i < |t|
      ensures LinkOk(t', l', i) && HomeOk(t', l', i)
    {
      assert LinkOk(t, l, i) && HomeOk(t, l, i);
      HomeAlone(t, l, h, k, hash, v, i);
    }
    forall i, j | 0 <= i < |t| && 0 <= j < |t|
      ensures NearOk(t', l', i, j)
    {
      assert NearOk(t, l, i, j) && LinkOk(t, l, i) && HomeOk(t, l, i) && HomeOk(t, l, j);
      HomeNear(t, l, h, k, hash, v, i, j);
    }
  }

  lemma AfterLinks<K, V>(t: seq<Slot<K, V>>, l: Layout, s: nat, e: nat, k: K, hash: nat, v: V, i: nat)
    requires Sized(t, l) && Used(t, s) && e < |t| && !Used(t, e) && i < |t|
    requires LinkOk(t, l, s) && LinkOk(t, l, i)
    ensures t[s].next <= |t| && LinkOk(PutAfter(t, s, e, k, hash, v), AfterLayout(t, l, s, e), i)
  {
  }

  /** No slot of the chain lies between s and its link, so that the middle is free. */
  lemma AfterNear<K, V>(t: seq<Slot<K, V>>, l: Layout, s: nat, e: nat, k: K, hash: nat, v: V, i: nat, j: nat)
    requires Sized(t, l) && Used(t, s) && e < |t| && !Used(t, e) && i < |t| && j < |t|
    requires LinkOk(t, l, s) && LinkOk(t, l, i) && NearOk(t, l, i, j)
    requires NearOk(t, l, s, j) && NearOk(t, l, i, s) && NearOk(t, l, s, i)
    ensures t[s].next <= |t| && NearOk(PutAfter(t, s, e, k, hash, v), AfterLayout(t, l, s, e), i, j)
  {
  }

  lemma AfterKeeps<K, V>(t: seq<Slot<K, V>>, l: Layout, s: nat, e: nat, k: K, hash: nat, v: V)
    requires Linked(t, l) && Used(t, s) && e < |t| && !Used(t, e)
    requires Used(t, Home(hash, |t|)) && Behind(l, Home(hash, |t|), s)
    ensures t[s].next <= |t| && Linked(PutAfter(t, s, e, k, hash, v), AfterLayout(t, l, s, e))
  {
    assert LinkOk(t, l, s) && HomeOk(t, l, s);
    var t', l' := PutAfter(t, s, e, k, hash, v), AfterLayout(t, l, s, e);
    forall i | 0 <= i < |t|
      ensures LinkOk(t', l', i)
    {
      AfterLinks(t, l, s, e, k, hash, v, i);
    }
    forall i, j | 0 <= i < |t| && 0 <= j < |t|
      ensures NearOk(t', l', i, j)
    {
      assert NearOk(t, l, i, j) && NearOk(t, l, s, j) && NearOk(t, l, i, s) && NearOk(t, l, s, i);
      AfterNear(t, l, s, e, k, hash, v, i, j);
    }
    forall j | 0 <= j < |t|
      ensures HomeOk(t', l', j)
    {
      assert HomeOk(t, l, j);
    }
  }

  // ----- walking a chain

  /** A walk that has not met slot j yet can go on, and still has j before it. */
  lemma WalkOn<K, V>(t: seq<Slot<K, V>>, l: Layout, i: nat, j: nat)
    requires Linked(t, l) && Used(t, i) && Used(t, j) && i != j && Behind(l, i, j)
    ensures 0 < t[i].next <= |t| && Used(t, t[i].next - 1) && Behind(l, t[i].next - 1, j)
  {
    assert NearOk(t, l, i, j) && LinkOk(t, l, i);
  }

  /** Chains have no cycles: along a link fewer slots are left further on. */
  function Further(l: Layout, i: nat): set<nat>
    requires i < |l.rank|
  {
    set j: nat | j < |l.rank| && l.rank[i] < l.rank[j]
  }

  lemma WalkEnds<K, V>(t: seq<Slot<K, V>>, l: Layout, i: nat)
    requires Linked(t, l) && i < |t| && t[i].next > 0
    ensures 0 < t[i].next <= |t| && Used(t, t[i].next - 1) && l.chain[t[i].next - 1] == l.chain[i]
    ensures l.rank[i] < l.rank[t[i].next - 1] && Further(l, t[i].next - 1) < Further(l, i)
  {
    assert LinkOk(t, l, i);
    assert t[i].next - 1 in Further(l, i);
  }

  // ----- contents

  /** The slots list the map entry by entry, each key once. */
  ghost predicate Lists<K, V>(t: seq<Slot<K, V>>, m: map<K, V>) {
    && (forall i :: Used(t, i) ==> t[i].key.k in m && m[t[i].key.k] == t[i].pointer)
    && (forall k :: k in m ==> exists i :: Used(t, i) && t[i].key.k == k)
    && Distinct(t)
  }

  function Filled<K, V>(t: seq<Slot<K, V>>): nat {
    if t == [] then 0 else Filled(t[..|t| - 1]) + if t[|t| - 1].key.Key? then 1 else 0
  }

  lemma {:induction false} NoneFilled<K, V>(t: seq<Slot<K, V>>)
    requires forall i :: 0 <= i < |t| ==> t[i].key.NoKey?
    ensures Filled(t) == 0
  {
    if t != [] { NoneFilled(t[..|t| - 1]); }
  }

  lemma {:induction false} FilledUpdate<K, V>(t: seq<Slot<K, V>>, i: nat, s: Slot<K, V>)
    requires i < |t|
    ensures Filled(t[i := s]) == Filled(t) - (if t[i].key.Key? then 1 else 0) + (if s.key.Key? then 1 else 0)
  {
    var n := |t| - 1;
    if i == n {
      assert t[i := s][..n] == t[..n];
    } else {
      FilledUpdate(t[..n], i, s);
      assert t[i := s][..n] == t[..n][i := s];
    }
  }

  lemma {:induction false} FreeSlot<K, V>(t: seq<Slot<K, V>>) returns (e: nat)
    requires Filled(t) < |t|
    ensures e < |t| && !Used(t, e)
  {
    e := |t| - 1;
    if t[e].key.Key? {
      e := FreeSlot(t[..|t| - 1]);
    }
  }

  lemma {:induction false} AllFilled<K, V>(t: seq<Slot<K, V>>, i: nat)
    requires Filled(t) == |t| && i < |t|
    ensures Used(t, i)
  {
    var n := |t| - 1;
    FilledAtMost(t[..n]);
    if i < n { AllFilled(t[..n], i); }
  }

  lemma {:induction false} FilledAtMost<K, V>(t: seq<Slot<K, V>>)
    ensures Filled(t) <= |t|
  {
    if t != [] { FilledAtMost(t[..|t| - 1]); }
  }

  /** A new key in a free slot adds one entry, whatever happens to the links. */
  lemma ListsMore<K, V>(t: seq<Slot<K, V>>, t': seq<Slot<K, V>>, e: nat, k: K, v: V, m: map<K, V>)
    requires Lists(t, m) && |t'| == |t| && e < |t| && !Used(t, e) && k !in m
    requires t'[e].key == Key(k) && t'[e].pointer == v
    requires forall i :: 0 <= i < |t| && i != e ==> t'[i].key == t[i].key && t'[i].pointer == t[i].pointer
    ensures Lists(t', m[k := v])
  {
    var m' := m[k := v];
    forall i | Used(t', i)
      ensures t'[i].key.k in m' && m'[t'[i].key.k] == t'[i].pointer
      ensures i != e ==> t'[i].key != Key(k)
    {
      if i != e { assert Used(t, i); }
    }
    forall x | x in m'
      ensures exists i :: Used(t', i) && t'[i].key.k == x
    {
      if x == k {
        assert Used(t', e);
      } else {
        var i :| Used(t, i) && t[i].key.k == x;
        assert Used(t', i);
      }
    }
    forall i, j | Used(t', i) && Used(t', j) && t'[i].key == t'[j].key
      ensures i == j
    {
      if i != e && j != e { assert Used(t, i) && Used(t, j); }
    }
  }
}
