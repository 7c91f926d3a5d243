/**
 The queue object of skynet/lualib-src/lua-netpack.c: incomplete packages in hash chains by socket id, and
 complete ones in a ring that grows by a fixed amount.
 */
module Netpack {
  import opened Basics
  import opened PackageStream
  import opened PackageService
  import opened Rings

  const QUEUESIZE := 1024
  const HASHSIZE := 4096

  /** struct uncomplete. `buffer` holds the `read` bytes that have come; `read` is -1 when only a header byte has. */
  datatype Uncomplete = Uncomplete(id: int, size: nat, buffer: Bytes, read: int, header: Byte)

  predicate WellFormed(uc: Uncomplete) {
    if uc.read < 0 then uc.read == -1 && uc.buffer == []
    else uc.read == |uc.buffer| < uc.size < 0x1_0000
  }

  /** The two bytes read_size reads. */
  function Header(size: nat): (h: Bytes)
    requires size < 0x1_0000
    ensures |h| == 2 && ReadSize(h[0], h[1]) == size
  {
    [(size / 256) as Byte, (size % 256) as Byte]
  }

  /** The bytes of the stream an incomplete package stands for. */
  function Pending(uc: Uncomplete): (s: Bytes)
    requires WellFormed(uc)
    ensures s != [] && !HasPackage(s)
  {
    if uc.read < 0 then [uc.header] else Header(uc.size) + uc.buffer
  }

  /** hash_fd: the shifts of a signed 32-bit id round down. */
  function HashFd(fd: int): (h: nat)
    ensures h < HASHSIZE
  {
    (fd / 0x100_0000 + fd / 0x1000 + fd) % 0x1_0000_0000 % HASHSIZE
  }

  predicate EntryOk(uc: Uncomplete, h: nat, pending: map<int, Bytes>) {
    WellFormed(uc) && HashFd(uc.id) == h && Held(pending, uc.id) == Pending(uc)
  }

  ghost predicate ChainOk(c: seq<Uncomplete>, h: nat, pending: map<int, Bytes>) {
    && (forall i :: 0 <= i < |c| ==> EntryOk(c[i], h, pending))
    && (forall i, j :: 0 <= i < |c| && 0 <= j < |c| && c[i].id == c[j].id ==> i == j)
  }

  predicate Has(c: seq<Uncomplete>, fd: int) { exists i :: 0 <= i < |c| && c[i].id == fd }

  /** The chains hold exactly the non-empty remainders, each in the chain of its id. */
  ghost predicate TableOk(t: seq<seq<Uncomplete>>, pending: map<int, Bytes>) {
    && |t| == HASHSIZE
    && (forall h :: 0 <= h < HASHSIZE ==> ChainOk(t[h], h, pending))
    && (forall fd :: Held(pending, fd) != [] ==> Has(t[HashFd(fd)], fd))
  }

  /** A chain whose ids leave out `fd` does not notice what is pending for it. */
  lemma ChainElsewhere(c: seq<Uncomplete>, h: nat, pending: map<int, Bytes>, fd: int, s: Bytes)
    requires ChainOk(c, h, pending) && forall i :: 0 <= i < |c| ==> c[i].id != fd
    ensures ChainOk(c, h, pending[fd := s])
  {
    forall i | 0 <= i < |c|
      ensures EntryOk(c[i], h, pending[fd := s])
    {
      assert EntryOk(c[i], h, pending);
    }
  }

  /** Where an element stood before the i-th was taken out. */
  function Back(k: nat, i: nat): nat { if k < i then k else k + 1 }

  lemma LeftOver(c: seq<Uncomplete>, d: seq<Uncomplete>, i: nat, h: nat, pending: map<int, Bytes>)
    requires ChainOk(c, h, pending) && i < |c| && |d| == |c| - 1
    requires forall k :: 0 <= k < |d| ==> d[k] == c[Back(k, i)]
    ensures ChainOk(d, h, pending) && forall k :: 0 <= k < |d| ==> d[k].id != c[i].id
  {
    forall k | 0 <= k < |d|
      ensures EntryOk(d[k], h, pending) && d[k].id != c[i].id
    {
      assert EntryOk(c[Back(k, i)], h, pending);
    }
  }

  lemma StillThere(c: seq<Uncomplete>, d: seq<Uncomplete>, i: nat, id: int)
    requires i < |c| && |d| == |c| - 1 && id != c[i].id && Has(c, id)
    requires forall k :: 0 <= k < |d| ==> d[k] == c[Back(k, i)]
    ensures Has(d, id)
  {
    var k :| 0 <= k < |c| && c[k].id == id;
    var l := if k < i then k else k - 1;
    assert d[l] == c[Back(l, i)];
  }

  lemma TakenOut(c: seq<Uncomplete>, i: nat, h: nat, pending: map<int, Bytes>)
    requires ChainOk(c, h, pending) && i < |c|
    ensures ChainOk(c[..i] + c[i + 1..], h, pending[c[i].id := []])
    ensures forall id :: id != c[i].id && Has(c, id) ==> Has(c[..i] + c[i + 1..], id)
  {
    var d := c[..i] + c[i + 1..];
    LeftOver(c, d, i, h, pending);
    ChainElsewhere(d, h, pending, c[i].id, []);
    forall id | id != c[i].id && Has(c, id)
      ensures Has(d, id)
    {
      StillThere(c, d, i, id);
    }
  }

  /** Without `fd` in its own chain it is in none. */
  lemma NotElsewhere(t: seq<seq<Uncomplete>>, pending: map<int, Bytes>, g: nat, fd: int)
    requires TableOk(t, pending) && g < HASHSIZE && (g != HashFd(fd) || Held(pending, fd) == [])
    ensures forall i :: 0 <= i < |t[g]| ==> t[g][i].id != fd
  {
    forall i | 0 <= i < |t[g]|
      ensures t[g][i].id != fd
    {
      assert ChainOk(t[g], g, pending) && EntryOk(t[g][i], g, pending);
    }
  }

  lemma RemoveKeeps(t: seq<seq<Uncomplete>>, pending: map<int, Bytes>, h: nat, i: nat, fd: int)
    requires TableOk(t, pending) && h == HashFd(fd) && i < |t[h]| && t[h][i].id == fd
    ensures TableOk(t[h := t[h][..i] + t[h][i + 1..]], pending[fd := []])
  {
    var t' := t[h := t[h][..i] + t[h][i + 1..]];
    TakenOut(t[h], i, h, pending);
    forall g | 0 <= g < HASHSIZE
      ensures ChainOk(t'[g], g, pending[fd := []])
    {
      if g != h {
        NotElsewhere(t, pending, g, fd);
        ChainElsewhere(t[g], g, pending, fd, []);
      }
    }
    forall id | Held(pending[fd := []], id) != []
      ensures Has(t'[HashFd(id)], id)
    {
      assert Held(pending, id) != [];
    }
  }

  lemma NothingKeeps(t: seq<seq<Uncomplete>>, pending: map<int, Bytes>, fd: int)
    requires TableOk(t, pending) && Held(pending, fd) == []
    ensures TableOk(t, pending[fd := []])
  {
    forall g | 0 <= g < HASHSIZE
      ensures ChainOk(t[g], g, pending[fd := []])
    {
      NotElsewhere(t, pending, g, fd);
      ChainElsewhere(t[g], g, pending, fd, []);
    }
    forall id | Held(pending[fd := []], id) != []
      ensures Has(t[HashFd(id)], id)
    {
      assert Held(pending, id) != [];
    }
  }

  lemma PutInFront(c: seq<Uncomplete>, uc: Uncomplete, h: nat, pending: map<int, Bytes>)
    requires ChainOk(c, h, pending) && WellFormed(uc) && HashFd(uc.id) == h
    requires forall i :: 0 <= i < |c| ==> c[i].id != uc.id
    ensures ChainOk([uc] + c, h, pending[uc.id := Pending(uc)])
    ensures forall id :: Has(c, id) || id == uc.id ==> Has([uc] + c, id)
  {
    var d := [uc] + c;
    ChainElsewhere(c, h, pending, uc.id, Pending(uc));
    assert forall k :: 0 < k < |d| ==> d[k] == c[k - 1];
    forall id | Has(c, id) || id == uc.id
      ensures Has(d, id)
    {
      if id == uc.id {
        assert d[0].id == id;
      } else {
        var k :| 0 <= k < |c| && c[k].id == id;
        assert d[k + 1].id == id;
      }
    }
  }

  lemma AddKeeps(t: seq<seq<Uncomplete>>, pending: map<int, Bytes>, uc: Uncomplete)
    requires TableOk(t, pending) && WellFormed(uc) && Held(pending, uc.id) == []
    ensures TableOk(t[HashFd(uc.id) := [uc] + t[HashFd(uc.id)]], pending[uc.id := Pending(uc)])
  {
    var h := HashFd(uc.id);
    var t' := t[h := [uc] + t[h]];
    NotElsewhere(t, pending, h, uc.id);
    PutInFront(t[h], uc, h, pending);
    forall g | 0 <= g < HASHSIZE
      ensures ChainOk(t'[g], g, pending[uc.id := Pending(uc)])
    {
      if g != h {
        NotElsewhere(t, pending, g, uc.id);
        ChainElsewhere(t[g], g, pending, uc.id, Pending(uc));
      }
    }
    forall id | Held(pending[uc.id := Pending(uc)], id) != []
      ensures Has(t'[HashFd(id)], id)
    {
      assert id == uc.id || Held(pending, id) != [];
    }
  }

  lemma Located(t: seq<seq<Uncomplete>>, pending: map<int, Bytes>, h: nat, i: nat)
    requires TableOk(t, pending) && h < HASHSIZE && i < |t[h]|
    ensures EntryOk(t[h][i], h, pending)
  {
    assert ChainOk(t[h], h, pending);
  }

  /** The walk along a chain; the length of the chain when the id is not on it. */
  method Locate(chain: seq<Uncomplete>, fd: int) returns (i: nat)
    ensures i <= |chain| && (i < |chain| ==> chain[i].id == fd)
    ensures i == |chain| ==> !Has(chain, fd)
  {
    i := 0;
    while i < |chain| && chain[i].id != fd
      invariant i <= |chain| && forall j :: 0 <= j < i ==> chain[j].id != fd
    {
      i := i + 1;
    }
  }

  /** What filter_data_ gives back to the caller. */
  datatype Result = Nothing | One(p: Bytes) | More

  class Queue {
    var hash: array<seq<Uncomplete>>
    var queue: array<Package>
    var head: nat
    var tail: nat
    ghost var pending: map<int, Bytes>

    ghost predicate HashOk()
      reads this, hash
    {
      hash.Length == HASHSIZE && TableOk(hash[..], pending)
    }

    ghost predicate RingOk()
      reads this, queue
    {
      head < queue.Length && tail < queue.Length
    }

    ghost predicate Valid()
      reads this, hash, queue
    {
      HashOk() && RingOk()
    }

    /** The packages waiting for lpop, oldest first. */
    ghost function Contents(): seq<Package>
      requires RingOk()
      reads this, queue
    {
      Ring(queue[..], head, Length(head, tail, queue.Length))
    }

    /** get_queue on its first use. */
    constructor ()
      ensures Valid() && Contents() == [] && pending == map[] && fresh(hash) && fresh(queue)
      ensures queue.Length == 1024 && hash.Length == 4096
    {
      hash := new seq<Uncomplete>[HASHSIZE](_ => []);
      queue := new Package[QUEUESIZE](_ => Package(0, []));
      head, tail := 0, 0;
      pending := map[];
    }

    /** find_uncomplete: takes the id's incomplete package out of its chain. */
    method FindUncomplete(fd: int) returns (r: Option<Uncomplete>)
      requires Valid()
      modifies this`pending, hash
      ensures Valid() && pending == old(pending)[fd := []] && Contents() == old(Contents())
      ensures r.None? ==> Held(old(pending), fd) == []
      ensures r.Some? ==> r.value.id == fd && WellFormed(r.value) && Pending(r.value) == Held(old(pending), fd)
    {
      var h := HashFd(fd);
      var chain := hash[h];
      var i := Locate(chain, fd);
      r := None;
      ghost var t := hash[..];
      assert t[h] == chain;
      if i < |chain| {
        Located(t, pending, h, i);
        RemoveKeeps(t, pending, h, i, fd);
        r := Some(chain[i]);
        hash[h] := chain[..i] + chain[i + 1..];
        assert hash[..] == t[h := chain[..i] + chain[i + 1..]];
      } else {
        NothingKeeps(t, pending, fd);
      }
      pending := pending[fd := []];
    }

    /** save_uncomplete with its fields filled in, and the relinking of an unfinished package. */
    method Save(uc: Uncomplete)
      requires Valid() && WellFormed(uc) && Held(pending, uc.id) == []
      modifies this`pending, hash
      ensures Valid() && pending == old(pending)[uc.id := Pending(uc)] && Contents() == old(Contents())
    {
      var h := HashFd(uc.id);
      ghost var t := hash[..];
      AddKeeps(t, pending, uc);
      hash[h] := [uc] + hash[h];
      assert hash[..] == t[h := [uc] + t[h]];
      pending := pending[uc.id := Pending(uc)];
    }

    /** expand_queue: the full ring moves, in order, to the front of a larger one. */
    method ExpandQueue()
      requires RingOk() && head == tail
      modifies this`queue, this`head, this`tail
      ensures RingOk() && fresh(queue) && queue.Length == old(queue.Length) + 1024
      ensures Contents() == Ring(old(queue[..]), old(head), old(queue.Length))
    {
      var cap := queue.Length;
      var bigger := new Package[cap + QUEUESIZE](_ => Package(0, []));
      ghost var all := Ring(queue[..], head, cap);
      var i := 0;
      while i < cap
        invariant 0 <= i <= cap && head < cap && queue.Length == cap && all == Ring(queue[..], head, cap)
        invariant forall k :: 0 <= k < i ==> bigger[k] == all[k]
      {
        WrapOnce(head + i, cap);
        bigger[i] := queue[(head + i) % cap];
        assert bigger[i] == all[i];
        i := i + 1;
      }
      assert bigger[..cap] == all;
      RingFromZero(bigger[..], cap);
      assert bigger[..][..cap] == bigger[..cap];
      head := 0;
      tail := cap;
      queue := bigger;
    }

    /** push_data. */
    method PushData(fd: int, bytes: Bytes)
      requires Valid()
      modifies this`queue, this`head, this`tail, queue
      ensures Valid() && pending == old(pending) && (queue == old(queue) || fresh(queue))
      ensures Contents() == old(Contents()) + [Package(fd, bytes)]
    {
      ghost var n := Length(head, tail, queue.Length);
      ghost var before := queue[..];
      WrapOnce(head + n, queue.Length);
      RingPush(before, head, n, tail, Package(fd, bytes));
      queue[tail] := Package(fd, bytes);
      assert queue[..] == before[tail := Package(fd, bytes)];
      tail := tail + 1;
      if tail >= queue.Length {
        tail := tail - queue.Length;
      }
      if head == tail {
        assert n + 1 == queue.Length;
        ExpandQueue();
      } else {
        assert Length(head, tail, queue.Length) == n + 1;
      }
    }

    /** lpop: the oldest package. */
    method Pop() returns (r: Option<Package>)
      requires Valid()
      modifies this`head
      ensures Valid() && pending == old(pending)
      ensures r.None? <==> old(Contents()) == []
      ensures r.None? ==> Contents() == []
      ensures r.Some? ==> old(Contents()) == [r.value] + Contents()
    {
      if head == tail {
        return None;
      }
      ghost var n := Length(head, tail, queue.Length);
      ghost var all := Ring(queue[..], head, n);
      RingPop(queue[..], head, n);
      WrapOnce(head + 1, queue.Length);
      r := Some(queue[head]);
      head := head + 1;
      if head >= queue.Length {
        head := 0;
      }
      assert Length(head, tail, queue.Length) == n - 1;
      assert all == [all[0]] + all[1..];
    }

    /** push_more: the packages of what is left of a chunk go to the ring, its end to the chains. */
    method PushMore(fd: int, buffer: Bytes)
      requires Valid() && buffer != [] && Held(pending, fd) == []
      modifies this, hash, queue
      ensures Valid() && hash == old(hash) && (queue == old(queue) || fresh(queue))
      ensures pending == old(pending)[fd := Rest(buffer)]
      ensures Contents() == old(Contents()) + Tagged(fd, Packages(buffer))
      decreases |buffer|, 0
    {
      if |buffer| == 1 {
        Save(Uncomplete(fd, 0, [], -1, buffer[0]));
        assert buffer == [buffer[0]];
        return;
      }
      var packSize := ReadSize(buffer[0], buffer[1]);
      ReadSizeParts(buffer[0], buffer[1]);
      var rest := buffer[2..];
      assert buffer == [buffer[0], buffer[1]] + rest;
      if |rest| < packSize {
        Save(Uncomplete(fd, packSize, rest, |rest|, 0));
        return;
      }
      var whole, others := rest[..packSize], rest[packSize..];
      assert First(buffer) == whole && After(buffer) == others;
      PushRest(fd, whole, others);
    }

    /** A complete package and what follows it, if anything does. */
    method PushRest(fd: int, whole: Bytes, buffer: Bytes)
      requires Valid() && Held(pending, fd) == []
      modifies this, hash, queue
      ensures Valid() && hash == old(hash) && (queue == old(queue) || fresh(queue))
      ensures pending == old(pending)[fd := Rest(buffer)]
      ensures Contents() == old(Contents()) + Tagged(fd, [whole] + Packages(buffer))
      decreases |buffer|, 1
    {
      PushData(fd, whole);
      if |buffer| > 0 {
        PushMore(fd, buffer);
      } else {
        Forget(fd);
      }
      Assoc(old(Contents()), Package(fd, whole), Tagged(fd, Packages(buffer)));
      assert ([whole] + Packages(buffer))[1..] == Packages(buffer);
    }

    /** Nothing is left of a chunk. */
    ghost method Forget(fd: int)
      requires Valid() && Held(pending, fd) == []
      modifies this`pending
      ensures Valid() && pending == old(pending)[fd := []] && Contents() == old(Contents())
    {
      NothingKeeps(hash[..], pending, fd);
      pending := pending[fd := []];
    }

    /** The branch of filter_data_ for an id without an incomplete package. */
    method Begin(fd: int, chunk: Bytes) returns (r: Result)
      requires Valid() && chunk != [] && Held(pending, fd) == []
      modifies this, hash, queue
      ensures Valid() && hash == old(hash) && (queue == old(queue) || fresh(queue))
      ensures pending == old(pending)[fd := Rest(chunk)]
      ensures Delivered(r, fd, chunk, old(Contents()), Contents())
    {
      if |chunk| == 1 {
        Save(Uncomplete(fd, 0, [], -1, chunk[0]));
        assert chunk == [chunk[0]];
        return Nothing;
      }
      var packSize := ReadSize(chunk[0], chunk[1]);
      ReadSizeParts(chunk[0], chunk[1]);
      var buffer := chunk[2..];
      assert chunk == [chunk[0], chunk[1]] + buffer;
      if |buffer| < packSize {
        Save(Uncomplete(fd, packSize, buffer, |buffer|, 0));
        return Nothing;
      }
      var whole, rest := buffer[..packSize], buffer[packSize..];
      assert First(chunk) == whole && After(chunk) == rest;
      if |buffer| == packSize {
        Forget(fd);
        assert whole == buffer;
        return One(buffer);
      }
      PushRest(fd, whole, rest);
      return More;
    }

    /** The branch that goes on with an incomplete package. */
    method Fill(fd: int, uc0: Uncomplete, chunk: Bytes) returns (r: Result)
      requires Valid() && chunk != [] && uc0.id == fd && WellFormed(uc0) && Held(pending, fd) == []
      modifies this, hash, queue
      ensures Valid() && hash == old(hash) && (queue == old(queue) || fresh(queue))
      ensures pending == old(pending)[fd := Rest(Pending(uc0) + chunk)]
      ensures Delivered(r, fd, Pending(uc0) + chunk, old(Contents()), Contents())
    {
      var uc, buffer := TakeHeader(uc0, chunk);
      ghost var all := Pending(uc0) + chunk;
      var need := uc.size - uc.read;
      if |buffer| < need {
        uc := uc.(buffer := uc.buffer + buffer, read := uc.read + |buffer|);
        Save(uc);
        assert Pending(uc) == all;
        return Nothing;
      }
      var whole, rest := uc.buffer + buffer[..need], buffer[need..];
      assert all == Header(uc.size) + whole + rest;
      Completed(all, Header(uc.size), whole, rest);
      if |rest| == 0 {
        Forget(fd);
        return One(whole);
      }
      PushRest(fd, whole, rest);
      return More;
    }

    /** filter_data_: what the caller gets and what is queued are the packages the chunk completes. */
    method Filter(fd: int, chunk: Bytes) returns (r: Result)
      requires Valid() && chunk != []
      modifies this, hash, queue
      ensures Valid() && hash == old(hash) && (queue == old(queue) || fresh(queue))
      ensures pending == Keeps(old(pending), Data(fd, chunk))
      ensures Delivered(r, fd, Held(old(pending), fd) + chunk, old(Contents()), Contents())
    {
      ghost var was := pending;
      var uc := FindUncomplete(fd);
      if uc.Some? {
        r := Fill(fd, uc.value, chunk);
      } else {
        assert Held(was, fd) + chunk == chunk;
        r := Begin(fd, chunk);
      }
    }

    /** close_uncomplete: the rest of a closed stream is dropped. */
    method CloseUncomplete(fd: int)
      requires Valid()
      modifies this`pending, hash
      ensures Valid() && pending == Keeps(old(pending), Close(fd)) && Contents() == old(Contents())
    {
      var uc := FindUncomplete(fd);
    }

    /** lpop until there is nothing left. */
    method Drain() returns (out: seq<Package>)
      requires Valid()
      modifies this`head
      ensures Valid() && pending == old(pending) && Contents() == [] && out == old(Contents())
    {
      out := [];
      var np := Pop();
      while np.Some?
        invariant Valid() && pending == old(pending)
        invariant if np.None? then Contents() == [] && out == old(Contents()) else out + [np.value] + Contents() == old(Contents())
        decreases |Contents()| + if np.Some? then 1 else 0
      {
        out := out + [np.value];
        ghost var left := Contents();
        np := Pop();
        if np.Some? {
          Assoc(out, np.value, Contents());
        }
      }
    }

    /** One event, by a caller that takes everything out before the next. */
    method Handle(e: Event) returns (out: seq<Package>)
      requires Valid() && Contents() == [] && (e.Data? ==> e.chunk != [])
      modifies this, hash, queue
      ensures Valid() && Contents() == [] && hash == old(hash) && (queue == old(queue) || fresh(queue))
      ensures pending == Keeps(old(pending), e)
      ensures out == Completes(old(pending), e)
    {
      out := [];
      if e.Close? {
        CloseUncomplete(e.fd);
      } else {
        ghost var all := Held(pending, e.fd) + e.chunk;
        var r := Filter(e.fd, e.chunk);
        ghost var queued := Contents();
        out := Drain();
        if r.One? {
          out := [Package(e.fd, r.p)];
          assert Packages(all) == [r.p];
          assert Tagged(e.fd, [r.p]) == [Package(e.fd, r.p)] + Tagged(e.fd, []);
        } else if r.More? {
          assert queued == [] + Tagged(e.fd, Packages(all)) == Tagged(e.fd, Packages(all));
        }
      }
    }
  }

  /** The second header byte, if it is still to come. */
  method TakeHeader(uc0: Uncomplete, chunk: Bytes) returns (uc: Uncomplete, buffer: Bytes)
    requires WellFormed(uc0) && chunk != []
    ensures uc.id == uc0.id && 0 <= uc.read == |uc.buffer| <= uc.size < 0x1_0000
    ensures Pending(uc0) + chunk == Header(uc.size) + uc.buffer + buffer
  {
    uc, buffer := uc0, chunk;
    if uc.read < 0 {
      ReadSizeParts(uc.header, buffer[0]);
      uc := Uncomplete(uc.id, ReadSize(uc.header, buffer[0]), [], 0, uc.header);
      buffer := buffer[1..];
      assert Header(uc.size) == [uc0.header, chunk[0]];
    }
  }

  lemma Completed(all: Bytes, header: Bytes, whole: Bytes, rest: Bytes)
    requires |header| == 2 && ReadSize(header[0], header[1]) == |whole| && all == header + whole + rest
    ensures Packages(all) == [whole] + Packages(rest) && Rest(all) == Rest(rest)
  {
    assert First(all) == whole && After(all) == rest;
  }

  /** What filter_data_ hands back and queues for the bytes `all` that an id now has. */
  ghost predicate Delivered(r: Result, fd: int, all: Bytes, before: seq<Package>, after: seq<Package>) {
    var out := Packages(all);
    match r
    case Nothing => out == [] && after == before
    case One(p) => out == [p] && Rest(all) == [] && after == before
    case More => out != [] && (|out| > 1 || Rest(all) != []) && after == before + Tagged(fd, out)
  }

  lemma Assoc(a: seq<Package>, p: Package, b: seq<Package>)
    ensures a + [p] + b == a + ([p] + b)
  {
  }

  /** Any events through the queue: every id gets exactly the packages of its own stream, in order. */
  method Feed(q: Queue, es: seq<Event>) returns (out: seq<Package>)
    requires q.Valid() && q.Contents() == [] && q.pending == map[]
    requires forall i :: 0 <= i < |es| && es[i].Data? ==> es[i].chunk != []
    modifies q, q.hash, q.queue
    ensures q.Valid() && out == AllCompleted(es) && q.pending == AllKept(es)
    ensures forall fd :: Of(out, fd) == Earlier(es, fd) + Packages(Stream(es, fd))
  {
    out := [];
    for i := 0 to |es|
      invariant q.Valid() && q.Contents() == [] && q.hash == old(q.hash) && (q.queue == old(q.queue) || fresh(q.queue))
      invariant out == AllCompleted(es[..i]) && q.pending == AllKept(es[..i])
    {
      assert es[..i + 1][..i] == es[..i];
      var ps := q.Handle(es[i]);
      out := out + ps;
    }
    assert es[..|es|] == es;
    forall fd ensures Of(out, fd) == Earlier(es, fd) + Packages(Stream(es, fd)) {
      CutsDoNotMatter(es, fd);
    }
  }

  /** A call by a caller that pops when it likes: what it gets is what the service hands out. */
  method Answer(q: Queue, c: Call, ghost s: Service) returns (out: seq<Package>)
    requires q.Valid() && q.Contents() == Bare(s.waiting) && q.pending == s.kept
    requires c.On? && c.e.Data? ==> c.e.chunk != []
    modifies q, q.hash, q.queue
    ensures q.Valid() && q.hash == old(q.hash) && (q.queue == old(q.queue) || fresh(q.queue))
    ensures var t := After1(s, c);
            q.Contents() == Bare(t.waiting) && q.pending == t.kept && Bare(t.got) == Bare(s.got) + out
  {
    out := [];
    match c {
      case Take =>
        FirstWaits(s);
        ghost var before := q.Contents();
        var p := q.Pop();
        if p.Some? {
          out := [p.value];
          assert before[0] == p.value && before[1..] == q.Contents();
          assert before[1..] == Bare(s.waiting[1..]);
        }
      case On(Close(fd)) =>
        q.CloseUncomplete(fd);
      case On(Data(fd, chunk)) =>
        var r := q.Filter(fd, chunk);
        if r.One? {
          out := [Package(fd, r.p)];
        }
        Handed(s, fd, chunk, r, q.Contents());
    }
  }

  /** The packages of the new tickets are what filter_data_ returns or queues. */
  lemma Handed(s: Service, fd: int, chunk: Bytes, r: Result, after: seq<Package>)
    requires Delivered(r, fd, Held(s.kept, fd) + chunk, Bare(s.waiting), after)
    ensures var t := After1(s, On(Data(fd, chunk)));
            after == Bare(t.waiting) && Bare(t.got) == Bare(s.got) + if r.One? then [Package(fd, r.p)] else []
  {
    var data := Held(s.kept, fd) + chunk;
    var ps := Packages(data);
    var ts := Tickets(fd, ps, |s.all|);
    BareTickets(fd, ps, |s.all|);
    TaggedAt(fd, ps);
    BareConcat(s.got, ts);
    BareConcat(s.waiting, ts);
    if r.One? {
      assert Tagged(fd, ps) == [Package(fd, r.p)];
    } else if r.Nothing? {
      assert ts == [] && s.waiting + ts == s.waiting;
    }
  }

  lemma FirstWaits(s: Service)
    ensures s.waiting == [] <==> Bare(s.waiting) == []
    ensures s.waiting != [] ==> Bare(s.waiting) == [s.waiting[0].p] + Bare(s.waiting[1..])
    ensures s.waiting != [] ==> Bare(s.got + [s.waiting[0]]) == Bare(s.got) + [s.waiting[0].p]
  {
    if s.waiting != [] {
      var w := s.waiting[0];
      assert s.waiting == [w] + s.waiting[1..] && [w][..0] == [];
      BareConcat([w], s.waiting[1..]);
      BareConcat(s.got, [w]);
    }
  }

  /** Any events and pops, in any order. */
  method Serve(q: Queue, calls: seq<Call>) returns (out: seq<Package>)
    requires q.Valid() && q.Contents() == [] && q.pending == map[]
    requires forall i :: 0 <= i < |calls| && calls[i].On? && calls[i].e.Data? ==> calls[i].e.chunk != []
    modifies q, q.hash, q.queue
    ensures q.Valid() && q.pending == Served(calls).kept
    ensures out == Bare(Served(calls).got) && q.Contents() == Bare(Served(calls).waiting)
  {
    out := [];
    for i := 0 to |calls|
      invariant q.Valid() && q.hash == old(q.hash) && (q.queue == old(q.queue) || fresh(q.queue))
      invariant q.pending == Served(calls[..i]).kept && q.Contents() == Bare(Served(calls[..i]).waiting)
      invariant out == Bare(Served(calls[..i]).got)
    {
      assert calls[..i + 1][..i] == calls[..i];
      var more := Answer(q, calls[i], Served(calls[..i]));
      out := out + more;
    }
    assert calls[..|calls|] == calls;
  }
}
