/**
 The handle storage of skynet/skynet-src/skynet_handle.c: a slot table that doubles, and a sorted array
 of names. Every method is the body between taking and releasing the storage's lock.
 */
module HandleTable {
  import opened Arithmetic
  import opened Basics
  import opened HandleNames

  const HANDLE_MASK := 0xff_ffff
  const HARBOR_UNIT := 0x100_0000
  const MAX_SLOT_SIZE := 0x4000_0000

  /** How skynet_handle_register ends: with a handle, in the assertion at line 59, or reading the handle of a NULL slot. */
  datatype Outcome = Registered(handle: nat) | AssertionFails | NullSlotRead

  /** A slot, with the handle its context carries. */
  datatype Slot<C> = Empty | Taken(ctx: C, handle: nat)

  // ----- slot numbers

  /** The sizes the table takes, all powers of two. */
  function SlotSize(k: nat): nat { TwoTo(k + 2) }

  lemma AddMultiple(a: nat, h: nat, q: nat, n: nat, unit: nat)
    requires n > 0 && unit == n * q
    ensures (a + h * unit) % n == a % n
  {
    var d, r := a / n, a % n;
    assert a == n * d + r;
    assert h * (n * q) == n * (h * q);
    Distribute(n, d, h * q, d + h * q);
    ModUnique(a + h * unit, d + h * q, r, n);
  }

  lemma Size22()
    ensures TwoTo(24) == HARBOR_UNIT
  {
    assert TwoTo(8) == 256;
    TwoToAdd(8, 8);
    TwoToAdd(16, 8);
  }

  /** The harbor bits do not reach the slot number. */
  lemma HarborDoesNotMatter(local: nat, harbor: nat, k: nat)
    requires SlotSize(k) <= HARBOR_UNIT
    ensures (local + harbor * HARBOR_UNIT) % SlotSize(k) == local % SlotSize(k)
  {
    Size22();
    assert TwoTo(25) == 2 * TwoTo(24);
    if k > 22 {
      TwoToGrows(25, k + 2);
    } else {
      TwoToAdd(k + 2, 22 - k);
      AddMultiple(local, harbor, TwoTo(22 - k), SlotSize(k), HARBOR_UNIT);
    }
  }

  /** A slot of the doubled table lies over one of the old table. */
  lemma DoubledSlot(handle: nat, n: nat, m: nat)
    requires n > 0 && m == 2 * n
    ensures handle % m < m && handle % n == if handle % m < n then handle % m else handle % m - n
  {
    var q, r := handle / m, handle % m;
    assert handle == m * q + r;
    Distribute(q, n, n, m);
    Distribute(n, q, q, 2 * q);
    if r < n {
      ModUnique(handle, 2 * q, r, n);
    } else {
      Distribute(n, 2 * q, 1, 2 * q + 1);
      ModUnique(handle, 2 * q + 1, r - n, n);
    }
  }

  /** A table size divides HANDLE_MASK + 1. */
  lemma SizeDivides(k: nat) returns (c: nat)
    requires SlotSize(k) <= HARBOR_UNIT
    ensures c > 0 && SlotSize(k) * c == HARBOR_UNIT
  {
    Size22();
    assert TwoTo(25) == 2 * TwoTo(24);
    if k > 22 { TwoToGrows(25, k + 2); }
    TwoToAdd(k + 2, 22 - k);
    c := TwoTo(22 - k);
  }

  /** The i-th handle a pass tries: after HANDLE_MASK comes 1. */
  function Tried(start: nat, i: nat): nat {
    if start + i <= HANDLE_MASK then start + i else start + i - HANDLE_MASK
  }

  /** n numbers in a row meet every remainder. */
  lemma InARow(start: nat, j: nat, n: nat) returns (i: nat)
    requires j < n
    ensures i < n && (start + i) % n == j
  {
    var q, r := start / n, start % n;
    assert start == n * q + r;
    if r <= j {
      i := j - r;
      ModUnique(start + i, q, j, n);
    } else {
      i := n + j - r;
      Distribute(n, q, 1, q + 1);
      ModUnique(start + i, q + 1, j, n);
    }
  }

  /** A pass that does not reach the end of the handles meets every slot. */
  lemma ScanMeets(start: nat, j: nat, n: nat) returns (i: nat)
    requires j < n && start + n - 1 <= HANDLE_MASK
    ensures i < n && Tried(start, i) % n == j
  {
    i := InARow(start, j, n);
  }

  /** The last n handles below HANDLE_MASK + 1 fall into the slots in order. */
  lemma LastHandles(j: nat, n: nat, c: nat)
    requires j < n && c > 0 && n * c == HARBOR_UNIT
    ensures (HARBOR_UNIT - n + j) % n == j
  {
    Distribute(n, c - 1, 1, c);
    ModUnique(HARBOR_UNIT - n + j, c - 1, j, n);
  }

  /** A pass that wraps meets every slot but slot 0. */
  lemma WrappedScanMeets(start: nat, j: nat, n: nat, c: nat) returns (i: nat)
    requires 1 <= j < n && start <= HANDLE_MASK < start + n - 1 && c > 0 && n * c == HARBOR_UNIT
    ensures i < n && Tried(start, i) % n == j
  {
    if HARBOR_UNIT - n + j >= start {
      i := HARBOR_UNIT - n + j - start;
      LastHandles(j, n, c);
    } else {
      i := HANDLE_MASK + j - start;
      ModUnique(j, 0, j, n);
    }
  }

  /** It never meets slot 0: the handles of slot 0 are HANDLE_MASK + 1 - n, which lies before it, and 0, which is reserved. */
  lemma WrappedScanMisses(start: nat, i: nat, n: nat, c: nat)
    requires i < n && 1 <= start <= HANDLE_MASK < start + n - 1 && c > 0 && n * c == HARBOR_UNIT
    ensures Tried(start, i) % n != 0
  {
    if start + i <= HANDLE_MASK {
      LastHandles(start + i + n - HARBOR_UNIT, n, c);
    } else {
      ModUnique(start + i - HANDLE_MASK, 0, start + i - HANDLE_MASK, n);
    }
  }

  // ----- the storage

  class Storage<C(0)> {
    var harbor: nat
    var handleIndex: nat
    var slot: array<Slot<C>>
    var name: array<Name>
    var nameCount: nat
    ghost var bits: nat
    ghost var live: map<nat, C>

    ghost predicate SlotsOk()
      reads this, slot
    {
      && slot.Length == SlotSize(bits) <= HARBOR_UNIT
      && (forall i :: 0 <= i < slot.Length && slot[i].Taken? ==>
            slot[i].handle % slot.Length == i && slot[i].handle in live && live[slot[i].handle] == slot[i].ctx)
      && (forall h :: h in live ==> slot[h % slot.Length] == Taken(live[h], h))
    }

    ghost predicate NamesOk()
      reads this, name
    {
      0 < name.Length && nameCount <= name.Length && Sorted(name[..nameCount])
    }

    /** Every slot is found by its context's handle, and the table stands for the map `live`. */
    ghost predicate Valid()
      reads this, slot, name
    {
      SlotsOk() && NamesOk() && 1 <= handleIndex <= HANDLE_MASK + 1 && 0 !in live
    }

    ghost function NameMap(): map<string, nat>
      requires NamesOk()
      reads this, name
    {
      Names(name[..nameCount])
    }

    ghost predicate Full()
      reads this, slot
    {
      forall i :: 0 <= i < slot.Length ==> slot[i].Taken?
    }

    /** The first handle the next scan tries. */
    function Start(): nat
      reads this
    {
      if handleIndex > HANDLE_MASK then 1 else handleIndex
    }

    /** skynet_handle_init. */
    constructor (harbor: nat)
      ensures Valid() && live == map[] && NameMap() == map[] && slot.Length == 4
      ensures this.harbor == harbor && handleIndex == 1 && fresh(slot) && fresh(name)
    {
      this.harbor := harbor;
      handleIndex := 1;
      slot := new Slot<C>[4](_ => Empty);
      name := new Name[2](_ => Name("", 0));
      nameCount := 0;
      bits := 0;
      live := map[];
    }

    /** A handle of this harbor, from its local number. */
    predicate Issued(handle: nat, local: int)
      reads this
    {
      1 <= local <= 0xff_ffff && handle == local + harbor * 0x100_0000
    }

    /** Whether a pass of the scan goes past HANDLE_MASK after its first handle. */
    ghost predicate Wraps()
      reads this
    {
      Start() + slot.Length - 1 > HANDLE_MASK
    }

    /** Whether a pass finds nothing: a pass that wraps does not look at slot 0. */
    ghost predicate NoRoom()
      reads this, slot
    {
      forall i :: (if Wraps() then 1 else 0) <= i < slot.Length ==> slot[i].Taken?
    }

    /** Whether the doubling is reached although slot 0 is free. */
    ghost predicate Stuck()
      reads this, slot
    {
      Wraps() && NoRoom() && 0 < slot.Length && slot[0].Empty? && 2 * slot.Length - 1 <= HANDLE_MASK
    }

    /** `handle & (slot_size - 1)`. */
    method Hash(handle: nat) returns (hash: nat)
      requires slot.Length == SlotSize(bits)
      ensures hash == handle % slot.Length && hash < slot.Length
    {
      AndLowOnes(handle, bits + 2);
      hash := BitAnd(handle, slot.Length - 1);
    }

    /** A pass that tried every handle in vain has met every slot it can meet. */
    lemma PassFails()
      requires Valid()
      ensures NoRoom() <==> forall k :: 0 <= k < slot.Length ==> slot[Tried(Start(), k) % slot.Length].Taken?
    {
      var n, start := slot.Length, Start();
      var c := SizeDivides(bits);
      if forall k :: 0 <= k < n ==> slot[Tried(start, k) % n].Taken? {
        forall j | (if Wraps() then 1 else 0) <= j < n
          ensures slot[j].Taken?
        {
          var k;
          if Wraps() { k := WrappedScanMeets(start, j, n, c); } else { k := ScanMeets(start, j, n); }
        }
      }
      if NoRoom() && Wraps() {
        forall k | 0 <= k < n
          ensures slot[Tried(start, k) % n].Taken?
        {
          WrappedScanMisses(start, k, n, c);
        }
      }
    }

    /** What taking a free slot does to the table. */
    method Take(hash: nat, ctx: C, handle: nat)
      requires Valid() && handle != 0 && hash == handle % slot.Length && slot[hash].Empty?
      modifies this`live, slot
      ensures Valid() && handle !in old(live) && live == old(live)[handle := ctx]
    {
      slot[hash] := Taken(ctx, handle);
      live := live[handle := ctx];
    }

    /** One pass of the scan in skynet_handle_register: the first handle whose slot is free, or 0. */
    method Scan(ctx: C) returns (handle: nat, ghost tries: nat)
      requires Valid()
      modifies this`handleIndex, this`live, slot
      ensures Valid()
      ensures handle == 0 <==> old(NoRoom())
      ensures handle == 0 ==> live == old(live) && handleIndex == old(handleIndex) && slot[..] == old(slot[..])
      ensures handle != 0 ==> handle !in old(live) && live == old(live)[handle := ctx]
      ensures handle != 0 ==> tries < slot.Length && handleIndex - 1 == Tried(old(Start()), tries)
      ensures handle != 0 ==> Issued(handle, handleIndex - 1)
      ensures handle != 0 ==> forall k :: 0 <= k < tries ==> old(slot[Tried(Start(), k) % slot.Length].Taken?)
      ensures handle != 0 ==> forall k :: 0 <= k < tries ==> slot[Tried(old(Start()), k) % slot.Length].Taken?
    {
      var n := slot.Length;
      ghost var start := Start();
      PassFails();
      var i, h := 0, handleIndex;
      while i < n
        invariant 0 <= i <= n && handleIndex == old(handleIndex) && live == old(live) && slot[..] == old(slot[..])
        invariant h == if i == 0 then handleIndex else if start + i - 1 == HANDLE_MASK then HANDLE_MASK + 1 else Tried(start, i)
        invariant forall k :: 0 <= k < i ==> slot[Tried(start, k) % n].Taken?
      {
        if h > HANDLE_MASK {
          h := 1;
        }
        assert h == Tried(start, i);
        var hash := Hash(h);
        if slot[hash].Empty? {
          handle := Issue(h);
          tries := i;
          HarborDoesNotMatter(h, harbor, bits);
          Take(hash, ctx, handle);
          handleIndex := h + 1;
          return;
        }
        i, h := i + 1, h + 1;
      }
      return 0, 0;
    }

    /** `handle |= s->harbor`. */
    method Issue(local: nat) returns (handle: nat)
      requires 1 <= local <= HANDLE_MASK
      ensures Issued(handle, local) && handle != 0
    {
      Size22();
      OrDisjoint(harbor, local, 24);
      handle := BitOr(harbor * HARBOR_UNIT, local);
    }

    /** The copying loop of the doubling: it stops at a NULL slot, and no two contexts meet in the new table. */
    method Spread(slots: array<Slot<C>>) returns (ok: bool)
      requires Valid() && slots != slot && slots.Length == 2 * slot.Length
      requires forall j :: 0 <= j < slots.Length ==> slots[j].Empty?
      modifies slots
      ensures ok <==> Full()
      ensures ok ==> forall j :: 0 <= j < slot.Length ==> slots[slot[j].handle % slots.Length] == slot[j]
      ensures forall j :: 0 <= j < slots.Length && slots[j].Taken? ==>
                slots[j].handle % slots.Length == j && slot[slots[j].handle % slot.Length] == slots[j]
    {
      var n := slot.Length;
      ghost var m := slots.Length;
      var i := 0;
      while i < n
        invariant 0 <= i <= n && forall j :: 0 <= j < n ==> slot[j] == old(slot[j])
        invariant forall j :: 0 <= j < i ==> slot[j].Taken? && slots[slot[j].handle % m] == slot[j]
        invariant forall j :: 0 <= j < m && slots[j].Taken? ==>
                    slots[j].handle % m == j && slots[j].handle % n < i && slot[slots[j].handle % n] == slots[j]
      {
        if slot[i].Empty? {
          return false;
        }
        var hash := DoubledHash(slot[i].handle);
        DoubledSlot(slot[i].handle, n, m);
        if slots[hash].Taken? {
          DoubledSlot(slots[hash].handle, n, m);
        }
        assert slots[hash].Empty?;
        slots[hash] := slot[i];
        i := i + 1;
      }
      return true;
    }

    /** `handle & (slot_size * 2 - 1)`. */
    method DoubledHash(handle: nat) returns (hash: nat)
      requires slot.Length == SlotSize(bits)
      ensures hash == handle % (2 * slot.Length) && hash < 2 * slot.Length
    {
      AndLowOnes(handle, bits + 3);
      hash := BitAnd(handle, slot.Length * 2 - 1);
    }

    /** The doubling of skynet_handle_register: a full table gets room, of the two slots over slot 1 in particular. */
    method Double() returns (ok: bool)
      requires Valid() && 2 * slot.Length - 1 <= HANDLE_MASK
      modifies this`slot, this`bits
      ensures Valid() && (ok <==> old(Full()))
      ensures ok ==> fresh(slot) && slot.Length == 2 * old(slot.Length) && !NoRoom()
      ensures !ok ==> slot == old(slot)
    {
      var n := slot.Length;
      var slots := new Slot<C>[2 * n](_ => Empty);
      ok := Spread(slots);
      if ok {
        if slots[1].Taken? { DoubledSlot(slots[1].handle, n, 2 * n); }
        if slots[n + 1].Taken? { DoubledSlot(slots[n + 1].handle, n, 2 * n); }
        assert slots[1].Empty? || slots[n + 1].Empty?;
        assert forall h :: h in live ==> slot[h % n] == Taken(live[h], h);
        bits := bits + 1;
        slot := slots;
      }
    }

    /**
     skynet_handle_register: a new, non-zero handle for the context, the first one tried whose slot is free;
     the table doubles exactly when it is full.  When nothing is found it fails: in the assertion if the
     table cannot grow, and reading a NULL slot exactly when only slot 0 is free and the pass wraps.
     */
    method Register(ctx: C) returns (r: Outcome, ghost tries: nat)
      requires Valid()
      modifies this, slot
      ensures Valid() && name == old(name) && harbor == old(harbor) && NameMap() == old(NameMap())
      ensures r.NullSlotRead? <==> old(Stuck())
      ensures r.AssertionFails? <==> old(NoRoom() && 2 * slot.Length - 1 > HANDLE_MASK)
      ensures !r.Registered? ==> live == old(live) && slot == old(slot) && slot[..] == old(slot[..])
      ensures r.Registered? ==> r.handle != 0 && r.handle !in old(live) && live == old(live)[r.handle := ctx]
      ensures r.Registered? ==> Issued(r.handle, handleIndex - 1) && handleIndex - 1 == Tried(old(Start()), tries)
      ensures r.Registered? ==> tries < slot.Length
      ensures r.Registered? ==> forall k :: 0 <= k < tries ==> slot[Tried(old(Start()), k) % slot.Length].Taken?
      ensures r.Registered? && old(Full()) ==> fresh(slot) && slot.Length == 2 * old(slot.Length)
      ensures r.Registered? && !old(Full()) ==> slot == old(slot)
      ensures r.Registered? && !old(Full()) ==> forall k :: 0 <= k < tries ==> old(slot[Tried(Start(), k) % slot.Length].Taken?)
    {
      var handle;
      handle, tries := Scan(ctx);
      if handle == 0 {
        if slot.Length * 2 - 1 > HANDLE_MASK {
          return AssertionFails, 0;
        }
        var ok := Double();
        if !ok {
          return NullSlotRead, 0;
        }
        handle, tries := Scan(ctx);
      }
      return Registered(handle), tries;
    }

    /** skynet_handle_grab: the context of a registered handle, nothing for any other number. */
    method Grab(handle: nat) returns (r: Option<C>)
      requires Valid()
      ensures r == if handle in live then Some(live[handle]) else None
    {
      var hash := Hash(handle);
      var s := slot[hash];
      r := if s.Taken? && s.handle == handle then Some(s.ctx) else None;
    }

    /** The name compaction of skynet_handle_retire. */
    method Compact(handle: nat)
      requires nameCount <= name.Length
      modifies this`nameCount, name
      ensures nameCount <= name.Length && name[..nameCount] == Without(old(name[..nameCount]), handle)
    {
      ghost var was := name[..nameCount];
      ghost var kept: seq<Name> := [];
      var i, j, n := 0, 0, nameCount;
      while i < n
        invariant 0 <= j <= i <= n == nameCount && name == old(name)
        invariant |kept| == j && forall k :: 0 <= k < j ==> name[k] == kept[k]
        invariant forall k :: i <= k < n ==> name[k] == was[k]
        invariant kept == Without(was[..i], handle)
      {
        assert was[..i + 1][..i] == was[..i];
        if name[i].handle != handle {
          kept := kept + [name[i]];
          if i != j {
            name[j] := name[i];
          }
          j := j + 1;
        }
        i := i + 1;
      }
      nameCount := j;
      assert was[..n] == was && name[..j] == kept;
    }

    method ForgetNames(handle: nat)
      requires NamesOk()
      modifies this`nameCount, name
      ensures NamesOk()
      ensures NameMap() == NamesLeft(old(NameMap()), {handle})
    {
      OneGone(NameMap(), handle);
      WithoutSorted(name[..nameCount], handle);
      WithoutRemoves(name[..nameCount], handle);
      Compact(handle);
    }

    /** skynet_handle_retire: unregisters exactly the given handle, with all its names, and returns its context. */
    method Retire(handle: nat) returns (r: Option<C>)
      requires Valid()
      modifies this`live, this`nameCount, slot, name
      ensures Valid() && live == old(live) - {handle}
      ensures r == if handle in old(live) then Some(old(live)[handle]) else None
      ensures NameMap() == if r.Some? then NamesLeft(old(NameMap()), {handle}) else old(NameMap())
    {
      r := None;
      var hash := Hash(handle);
      var s := slot[hash];
      if s.Taken? && s.handle == handle {
        slot[hash] := Empty;
        r := Some(s.ctx);
        live := live - {handle};
        ForgetNames(handle);
      }
    }

    /** skynet_handle_retireall, when nobody registers meanwhile: passes until one retires nothing. */
    method RetireAll()
      requires Valid()
      modifies this`live, this`nameCount, slot, name
      ensures Valid() && live == map[]
      ensures NameMap() == NamesLeft(old(NameMap()), old(live).Keys)
    {
      var n := 1;
      NothingGone(NameMap());
      while n != 0
        invariant Valid() && n >= 0 && live.Keys <= old(live).Keys
        invariant n == 0 ==> live == map[]
        invariant NameMap() == NamesLeft(old(NameMap()), old(live).Keys - live.Keys)
        decreases |live|, n
      {
        ghost var before := live.Keys;
        n := RetirePass();
        MoreGone(old(NameMap()), old(live).Keys - before, before - live.Keys, old(live).Keys - live.Keys);
      }
    }

    method RetireSlot(i: nat)
      requires Valid() && i < slot.Length && slot[i].Taken?
      modifies this`live, this`nameCount, slot, name
      ensures Valid() && |live| + 1 == |old(live)| && live.Keys <= old(live).Keys
      ensures slot[i].Empty? && forall j :: 0 <= j < slot.Length && j != i ==> slot[j] == old(slot[j])
      ensures NameMap() == NamesLeft(old(NameMap()), old(live).Keys - live.Keys)
    {
      var h := slot[i].handle;
      var r := Retire(h);
      assert old(live).Keys - live.Keys == {h};
    }

    method RetirePass() returns (n: nat)
      requires Valid()
      modifies this`live, this`nameCount, slot, name
      ensures Valid() && (n == 0 ==> live == map[]) && (n > 0 ==> |live| < |old(live)|)
      ensures live.Keys <= old(live).Keys && NameMap() == NamesLeft(old(NameMap()), old(live).Keys - live.Keys)
    {
      n := 0;
      var i := 0;
      ghost var names, keys := NameMap(), live.Keys;
      NothingGone(names);
      while i < slot.Length
        invariant 0 <= i <= slot.Length && Valid()
        invariant forall j :: 0 <= j < i ==> slot[j].Empty?
        invariant n == 0 ==> live == old(live)
        invariant |live| + n == |old(live)|
        invariant live.Keys <= keys && NameMap() == NamesLeft(names, keys - live.Keys)
      {
        if slot[i].Taken? {
          ghost var before := live.Keys;
          RetireSlot(i);
          MoreGone(names, keys - before, before - live.Keys, keys - live.Keys);
          n := n + 1;
        }
        i := i + 1;
      }
    }

    /** The binary search that skynet_handle_findname and _insert_name share. */
    method Search(wanted: string) returns (found: bool, at: nat)
      requires NamesOk()
      ensures found ==> at < nameCount && name[at].name == wanted
      ensures !found ==> Splits(name[..nameCount], at, wanted)
    {
      var begin, end := 0, nameCount - 1;
      ghost var s := name[..nameCount];
      while begin <= end
        invariant 0 <= begin <= end + 1 <= |s|
        invariant forall i :: 0 <= i < begin ==> Strcmp(s[i].name, wanted) < 0
        invariant forall i :: end < i < |s| ==> Strcmp(s[i].name, wanted) > 0
      {
        var mid := (begin + end) / 2;
        var c := Strcmp(name[mid].name, wanted);
        assert s[mid] == name[mid];
        if c == 0 {
          StrcmpZero(name[mid].name, wanted);
          return true, mid;
        }
        ProbeDecides(s, mid, wanted);
        if c < 0 {
          begin := mid + 1;
        } else {
          end := mid - 1;
        }
      }
      return false, begin;
    }

    /** skynet_handle_findname: the search agrees with the map of names; 0 for an unknown name. */
    method FindName(wanted: string) returns (handle: nat)
      requires Valid()
      ensures handle == if wanted in NameMap() then NameMap()[wanted] else 0
    {
      var found, at := Search(wanted);
      if found {
        NamesOf(name[..nameCount]);
        assert name[..nameCount][at] == name[at];
        return name[at].handle;
      }
      SplitMeansAbsent(name[..nameCount], at, wanted);
      return 0;
    }

    /** _insert_name_before: shifts up in place, or copies around the gap into an array twice as large. */
    method InsertNameBefore(e: Name, before: nat)
      requires before <= nameCount <= name.Length && 0 < name.Length
      requires nameCount == name.Length ==> name.Length * 2 <= MAX_SLOT_SIZE
      modifies this`name, this`nameCount, name
      ensures nameCount == old(nameCount) + 1 <= name.Length
      ensures name[..nameCount] == Inserted(old(name[..nameCount]), before, e)
      ensures name == old(name) || fresh(name)
      ensures name.Length == if old(nameCount < name.Length) then old(name.Length) else 2 * old(name.Length)
    {
      ghost var was := name[..nameCount];
      if nameCount >= name.Length {
        var n := new Name[name.Length * 2](_ => Name("", 0));
        CopyAround(n, name, nameCount, before);
        name := n;
      } else {
        ShiftUp(name, nameCount, before);
      }
      name[before] := e;
      nameCount := nameCount + 1;
      assert name[..before] == was[..before] && name[before + 1..nameCount] == was[before..];
      assert name[..nameCount] == name[..before] + [name[before]] + name[before + 1..nameCount];
    }

    /** skynet_handle_namehandle: binds a new name, keeps the binding of a known one. */
    method NameHandle(handle: nat, wanted: string) returns (ok: bool)
      requires Valid() && (nameCount == name.Length ==> name.Length * 2 <= MAX_SLOT_SIZE)
      modifies this`name, this`nameCount, name
      ensures Valid() && live == old(live)
      ensures ok <==> wanted !in old(NameMap())
      ensures NameMap() == if ok then old(NameMap())[wanted := handle] else old(NameMap())
    {
      var found, at := Search(wanted);
      ghost var was := name[..nameCount];
      if found {
        NamesOf(was);
        assert was[at] == name[at];
        return false;
      }
      SplitMeansAbsent(was, at, wanted);
      InsertAdds(was, at, Name(wanted, handle));
      InsertNameBefore(Name(wanted, handle), at);
      return true;
    }
  }

  /** The names of handles that are not gone. */
  function NamesLeft(names: map<string, nat>, gone: set<nat>): map<string, nat> {
    map n | n in names && names[n] !in gone :: names[n]
  }

  lemma OneGone(names: map<string, nat>, handle: nat)
    ensures NamesLeft(names, {handle}) == map n | n in names && names[n] != handle :: names[n]
  {
  }

  lemma NothingGone(names: map<string, nat>)
    ensures NamesLeft(names, {}) == names
  {
  }

  lemma MoreGone(names: map<string, nat>, a: set<nat>, b: set<nat>, all: set<nat>)
    requires all == a + b
    ensures NamesLeft(NamesLeft(names, a), b) == NamesLeft(names, all)
  {
  }

  // ----- a NULL slot is read

  /** In a table of four slots, a handle whose slot is free is the next one. */
  method TakeNext(s: Storage<int>)
    requires s.Valid() && s.slot.Length == 4 && s.harbor == 0 && s.handleIndex <= HANDLE_MASK
    requires s.slot[s.handleIndex % 4].Empty?
    modifies s, s.slot
    ensures s.Valid() && s.slot == old(s.slot) && s.name == old(s.name) && s.harbor == 0
    ensures s.handleIndex == old(s.handleIndex) + 1 && s.live == old(s.live)[old(s.handleIndex) := 0]
  {
    ghost var start := s.handleIndex;
    assert s.slot[Tried(start, 0) % 4].Empty?;
    assert !s.NoRoom() by { s.PassFails(); }
    var r, tries := s.Register(0);
    assert tries == 0;
  }

  /** A context comes and goes. */
  method PassOver(s: Storage<int>)
    requires s.Valid() && s.slot.Length == 4 && s.harbor == 0 && s.handleIndex <= HANDLE_MASK
    requires s.slot[s.handleIndex % 4].Empty?
    modifies s, s.slot, s.name
    ensures s.Valid() && s.slot == old(s.slot) && s.name == old(s.name) && s.harbor == 0
    ensures s.handleIndex == old(s.handleIndex) + 1 && s.live == old(s.live)
  {
    var h := s.handleIndex;
    TakeNext(s);
    var gone := s.Retire(h);
  }

  /** An empty table close to the last handle. */
  method Approach() returns (s: Storage<int>)
    ensures fresh(s) && fresh(s.slot) && fresh(s.name)
    ensures s.Valid() && s.slot.Length == 4 && s.harbor == 0 && s.live == map[] && s.handleIndex == 0xff_fff9
  {
    s := new Storage<int>(0);
    while s.handleIndex < 0xff_fff9
      invariant fresh(s) && fresh(s.slot) && fresh(s.name)
      invariant s.Valid() && s.slot.Length == 4 && s.harbor == 0 && s.live == map[] && s.handleIndex <= 0xff_fff9
      decreases 0xff_fff9 - s.handleIndex
    {
      PassOver(s);
    }
  }

  /** Three contexts stay, in slots 1 to 3, and one in slot 0 leaves. */
  method StayInThree(s: Storage<int>)
    requires s.Valid() && s.slot.Length == 4 && s.harbor == 0 && s.live == map[] && s.handleIndex == 0xff_fff9
    modifies s, s.slot, s.name
    ensures s.Valid() && s.slot == old(s.slot) && s.handleIndex == 0xff_fffd
    ensures s.live == map[0xff_fff9 := 0, 0xff_fffa := 0, 0xff_fffb := 0]
  {
    TakeNext(s);
    TakeNext(s);
    TakeNext(s);
    PassOver(s);
  }

  lemma ThreeStuck(s: Storage<int>)
    requires s.Valid() && s.slot.Length == 4 && s.handleIndex == 0xff_fffd
    requires s.live == map[0xff_fff9 := 0, 0xff_fffa := 0, 0xff_fffb := 0]
    ensures s.Stuck()
  {
    assert 0xff_fff9 in s.live && 0xff_fffa in s.live && 0xff_fffb in s.live;
  }

  /** From there on the next registration reads the handle of a NULL slot. */
  method StuckHappens() returns (s: Storage<int>, r: Outcome)
    ensures s.Valid() && s.slot.Length == 4 && s.slot[0].Empty? && r == NullSlotRead
  {
    s := Approach();
    StayInThree(s);
    ThreeStuck(s);
    ghost var tries;
    r, tries := s.Register(0);
  }

  method CopyAround(to: array<Name>, from: array<Name>, n: nat, before: nat)
    requires to != from && before <= n <= from.Length && n < to.Length
    modifies to
    ensures to[..before] == from[..before] && to[before + 1..n + 1] == from[before..n]
  {
    for i := 0 to before
      invariant to[..i] == from[..i]
    {
      to[i] := from[i];
    }
    for i := before to n
      invariant to[..before] == from[..before]
      invariant forall k :: before <= k < i ==> to[k + 1] == from[k]
    {
      to[i + 1] := from[i];
    }
  }

  method ShiftUp(name: array<Name>, n: nat, before: nat)
    requires before <= n < name.Length
    modifies name
    ensures name[..before] == old(name[..before]) && name[before + 1..n + 1] == old(name[before..n])
  {
    var i := n;
    while i > before
      invariant before <= i <= n
      invariant forall k :: 0 <= k < i ==> name[k] == old(name[k])
      invariant forall k :: i < k <= n ==> name[k] == old(name[k - 1])
    {
      name[i] := name[i - 1];
      i := i - 1;
    }
  }
}
