/**
 Names in the order of strcmp, and the sorted array of names of skynet/skynet-src/skynet_handle.c as a map.
 */
module HandleNames {

  datatype Name = Name(name: string, handle: nat)

  /** strcmp: negative, zero or positive as `a` is before, equal to or after `b`. */
  function Strcmp(a: string, b: string): int {
    if a == [] then (if b == [] then 0 else -1)
    else if b == [] then 1
    else if a[0] != b[0] then a[0] as int - b[0] as int
    else Strcmp(a[1..], b[1..])
  }

  lemma {:induction false} StrcmpZero(a: string, b: string)
    ensures Strcmp(a, b) == 0 <==> a == b
  {
    if a != [] && b != [] && a[0] == b[0] {
      StrcmpZero(a[1..], b[1..]);
      assert a == [a[0]] + a[1..] && b == [b[0]] + b[1..];
    }
  }

  lemma {:induction false} StrcmpFlips(a: string, b: string)
    ensures Strcmp(a, b) < 0 <==> Strcmp(b, a) > 0
  {
    if a != [] && b != [] && a[0] == b[0] { StrcmpFlips(a[1..], b[1..]); }
  }

  lemma {:induction false} StrcmpTransitive(a: string, b: string, c: string)
    requires Strcmp(a, b) < 0 && Strcmp(b, c) < 0
    ensures Strcmp(a, c) < 0
  {
    if a != [] && b != [] && c != [] && a[0] == b[0] == c[0] { StrcmpTransitive(a[1..], b[1..], c[1..]); }
  }

  ghost predicate Sorted(s: seq<Name>) {
    forall i, j :: 0 <= i < j < |s| ==> Strcmp(s[i].name, s[j].name) < 0
  }

  function Names(s: seq<Name>): map<string, nat> {
    if s == [] then map[] else Names(s[..|s| - 1])[s[|s| - 1].name := s[|s| - 1].handle]
  }

  lemma LastDiffers(s: seq<Name>)
    requires Sorted(s) && s != []
    ensures forall i :: 0 <= i < |s| - 1 ==> s[i].name != s[|s| - 1].name
  {
    forall i | 0 <= i < |s| - 1
      ensures s[i].name != s[|s| - 1].name
    {
      StrcmpZero(s[i].name, s[|s| - 1].name);
      assert Strcmp(s[i].name, s[|s| - 1].name) < 0;
    }
  }

  /** In a sorted array every entry is the map's own, and the map has no others. */
  lemma {:induction false} NamesOf(s: seq<Name>)
    requires Sorted(s)
    ensures forall i :: 0 <= i < |s| ==> s[i].name in Names(s) && Names(s)[s[i].name] == s[i].handle
    ensures forall n :: n in Names(s) ==> exists i :: 0 <= i < |s| && s[i].name == n
  {
    if s != [] {
      var m := |s| - 1;
      NamesOf(s[..m]);
      LastDiffers(s);
      forall i | 0 <= i < |s|
        ensures s[i].name in Names(s) && Names(s)[s[i].name] == s[i].handle
      {
        assert i < m ==> s[..m][i] == s[i];
      }
      forall n | n in Names(s)
        ensures exists i :: 0 <= i < |s| && s[i].name == n
      {
        if n == s[m].name {
        } else {
          var i :| 0 <= i < m && s[..m][i].name == n;
          assert s[i].name == n;
        }
      }
    }
  }

  /** Where the two binary searches stop without a match: everything below is before `name`, everything from there on after. */
  ghost predicate Splits(s: seq<Name>, p: nat, name: string) {
    && p <= |s|
    && (forall i :: 0 <= i < p ==> Strcmp(s[i].name, name) < 0)
    && (forall i :: p <= i < |s| ==> Strcmp(s[i].name, name) > 0)
  }

  /** One probe of a binary search decides for a whole side. */
  lemma ProbeDecides(s: seq<Name>, mid: nat, name: string)
    requires Sorted(s) && mid < |s|
    ensures Strcmp(s[mid].name, name) < 0 ==> forall i :: 0 <= i <= mid ==> Strcmp(s[i].name, name) < 0
    ensures Strcmp(s[mid].name, name) > 0 ==> forall i :: mid <= i < |s| ==> Strcmp(s[i].name, name) > 0
  {
    if Strcmp(s[mid].name, name) < 0 {
      forall i | 0 <= i < mid
        ensures Strcmp(s[i].name, name) < 0
      {
        StrcmpTransitive(s[i].name, s[mid].name, name);
      }
    } else if Strcmp(s[mid].name, name) > 0 {
      forall i | mid < i < |s|
        ensures Strcmp(s[i].name, name) > 0
      {
        StrcmpFlips(name, s[mid].name);
        StrcmpTransitive(name, s[mid].name, s[i].name);
        StrcmpFlips(name, s[i].name);
      }
    }
  }

  lemma SplitMeansAbsent(s: seq<Name>, p: nat, name: string)
    requires Sorted(s) && Splits(s, p, name)
    ensures name !in Names(s)
  {
    NamesOf(s);
    forall i | 0 <= i < |s|
      ensures s[i].name != name
    {
      StrcmpZero(s[i].name, name);
    }
  }

  /** A sorted array that lists a map entry by entry stands for it. */
  lemma NamesAre(s: seq<Name>, m: map<string, nat>)
    requires Sorted(s)
    requires forall i :: 0 <= i < |s| ==> s[i].name in m && m[s[i].name] == s[i].handle
    requires forall n :: n in m ==> exists i :: 0 <= i < |s| && s[i].name == n
    ensures Names(s) == m
  {
    NamesOf(s);
  }

  function Inserted(s: seq<Name>, p: nat, e: Name): seq<Name>
    requires p <= |s|
  {
    s[..p] + [e] + s[p..]
  }

  lemma InsertSorted(s: seq<Name>, p: nat, e: Name)
    requires Sorted(s) && Splits(s, p, e.name)
    ensures Sorted(Inserted(s, p, e))
  {
    var t := Inserted(s, p, e);
    forall i, j | 0 <= i < j < |t|
      ensures Strcmp(t[i].name, t[j].name) < 0
    {
      if i == p { StrcmpFlips(e.name, s[j - 1].name); }
    }
  }

  lemma InsertBinds(s: seq<Name>, p: nat, e: Name)
    requires Sorted(s) && Splits(s, p, e.name)
    ensures Names(Inserted(s, p, e)) == Names(s)[e.name := e.handle]
  {
    var t, m := Inserted(s, p, e), Names(s)[e.name := e.handle];
    InsertSorted(s, p, e);
    SplitMeansAbsent(s, p, e.name);
    NamesOf(s);
    assert t[p] == e;
    forall i | 0 <= i < |t|
      ensures t[i].name in m && m[t[i].name] == t[i].handle
    {
      assert t[i] == if i < p then s[i] else if i == p then e else s[i - 1];
    }
    forall n | n in m
      ensures exists i :: 0 <= i < |t| && t[i].name == n
    {
      if n != e.name {
        var i :| 0 <= i < |s| && s[i].name == n;
        assert s[i] == t[if i < p then i else i + 1];
      }
    }
    NamesAre(t, m);
  }

  /** Inserting at the split keeps the order and adds exactly one binding. */
  lemma InsertAdds(s: seq<Name>, p: nat, e: Name)
    requires Sorted(s) && Splits(s, p, e.name)
    ensures Sorted(Inserted(s, p, e)) && Names(Inserted(s, p, e)) == Names(s)[e.name := e.handle]
  {
    InsertSorted(s, p, e);
    InsertBinds(s, p, e);
  }

  /** The compaction of skynet_handle_retire. */
  function Without(s: seq<Name>, handle: nat): seq<Name> {
    if s == [] then []
    else Without(s[..|s| - 1], handle) + (if s[|s| - 1].handle == handle then [] else [s[|s| - 1]])
  }

  lemma {:induction false} WithoutSorted(s: seq<Name>, handle: nat)
    requires Sorted(s)
    ensures Sorted(Without(s, handle))
    ensures forall e :: e in Without(s, handle) <==> e in s && e.handle != handle
  {
    if s != [] {
      var m := |s| - 1;
      var w := Without(s[..m], handle);
      WithoutSorted(s[..m], handle);
      assert s == s[..m] + [s[m]];
      forall i | 0 <= i < |w|
        ensures Strcmp(w[i].name, s[m].name) < 0
      {
        assert w[i] in s[..m];
      }
    }
  }

  /** Retiring a handle removes exactly its names. */
  lemma WithoutRemoves(s: seq<Name>, handle: nat)
    requires Sorted(s)
    ensures Names(Without(s, handle)) == map n | n in Names(s) && Names(s)[n] != handle :: Names(s)[n]
  {
    var w := Without(s, handle);
    var m := map n | n in Names(s) && Names(s)[n] != handle :: Names(s)[n];
    WithoutSorted(s, handle);
    NamesOf(s);
    forall i | 0 <= i < |w|
      ensures w[i].name in m && m[w[i].name] == w[i].handle
    {
      assert w[i] in s;
    }
    forall n | n in m
      ensures exists i :: 0 <= i < |w| && w[i].name == n
    {
      var i :| 0 <= i < |s| && s[i].name == n;
      assert s[i] in w;
    }
    NamesAre(w, m);
  }
}
