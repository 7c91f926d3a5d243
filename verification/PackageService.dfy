/**
 What a caller of skynet/lualib-src/lua-netpack.c gets when events and pops come in any order: a single
 package is handed over at once, several go through the queue.
 */
module PackageService {
  import opened Basics
  import opened PackageStream

  /** A call of lfilter with an event, or of lpop. */
  datatype Call = On(e: Event) | Take

  /** A package with its number among all packages completed so far. */
  datatype Ticket = Ticket(n: nat, p: Package)

  /** What is kept for the ids, all packages completed, those the caller has got, and those in the queue. */
  datatype Service = Service(kept: map<int, Bytes>, all: seq<Package>, got: seq<Ticket>, waiting: seq<Ticket>)

  function Tickets(fd: int, ps: seq<Bytes>, n: nat): (ts: seq<Ticket>)
    ensures |ts| == |ps|
    ensures forall i :: 0 <= i < |ts| ==> ts[i] == Ticket(n + i, Package(fd, ps[i]))
  {
    if ps == [] then [] else [Ticket(n, Package(fd, ps[0]))] + Tickets(fd, ps[1..], n + 1)
  }

  function Bare(ts: seq<Ticket>): seq<Package> {
    if ts == [] then [] else Bare(ts[..|ts| - 1]) + [ts[|ts| - 1].p]
  }

  /** Whether filter_data_ hands the only package of the data over without queueing it. */
  predicate Direct(all: Bytes) { |Packages(all)| == 1 && Rest(all) == [] }

  function After1(s: Service, c: Call): Service {
    match c
    case Take => if s.waiting == [] then s else s.(got := s.got + [s.waiting[0]], waiting := s.waiting[1..])
    case On(e) =>
      var t := s.(kept := Keeps(s.kept, e), all := s.all + Completes(s.kept, e));
      match e
      case Close(_) => t
      case Data(fd, chunk) =>
        var data := Held(s.kept, fd) + chunk;
        var ts := Tickets(fd, Packages(data), |s.all|);
        if Direct(data) then t.(got := s.got + ts) else t.(waiting := s.waiting + ts)
  }

  function Served(calls: seq<Call>): Service {
    if calls == [] then Service(map[], [], [], []) else After1(Served(calls[..|calls| - 1]), calls[|calls| - 1])
  }

  function Events(calls: seq<Call>): seq<Event> {
    if calls == [] then []
    else Events(calls[..|calls| - 1]) + match calls[|calls| - 1] case On(e) => [e] case Take => []
  }

  function Line(s: Service): seq<Ticket> { s.got + s.waiting }

  // ----- conservation

  lemma {:induction false} BareConcat(a: seq<Ticket>, b: seq<Ticket>)
    ensures Bare(a + b) == Bare(a) + Bare(b)
  {
    if b == [] {
      assert a + b == a;
    } else {
      BareConcat(a, b[..|b| - 1]);
      assert (a + b)[..|a + b| - 1] == a + b[..|b| - 1];
    }
  }

  lemma {:induction false} BareTickets(fd: int, ps: seq<Bytes>, n: nat)
    ensures Bare(Tickets(fd, ps, n)) == Tagged(fd, ps)
  {
    if ps != [] {
      BareTickets(fd, ps[1..], n + 1);
      BareConcat([Ticket(n, Package(fd, ps[0]))], Tickets(fd, ps[1..], n + 1));
      assert [Ticket(n, Package(fd, ps[0]))][..0] == [];
    }
  }

  lemma OneMoreEvent(es: seq<Event>, e: Event)
    ensures AllKept(es + [e]) == Keeps(AllKept(es), e)
    ensures AllCompleted(es + [e]) == AllCompleted(es) + Completes(AllKept(es), e)
  {
    assert (es + [e])[..|es|] == es;
  }

  lemma CallCompletes(s: Service, c: Call)
    ensures c.On? ==> After1(s, c).all == s.all + Completes(s.kept, c.e) && After1(s, c).kept == Keeps(s.kept, c.e)
    ensures c.Take? ==> After1(s, c).all == s.all && After1(s, c).kept == s.kept
  {
  }

  /** The packages completed are those of the events, whenever the pops come. */
  lemma {:induction false} PopsDoNotMatter(calls: seq<Call>)
    ensures Served(calls).all == AllCompleted(Events(calls)) && Served(calls).kept == AllKept(Events(calls))
  {
    if calls != [] {
      var before, c := calls[..|calls| - 1], calls[|calls| - 1];
      PopsDoNotMatter(before);
      CallCompletes(Served(before), c);
      if c.On? {
        OneMoreEvent(Events(before), c.e);
        assert Events(calls) == Events(before) + [c.e];
      } else {
        assert Events(calls) == Events(before);
      }
    }
  }

  /** Each package has one number, and is with the caller or in the queue. */
  predicate Numbered(s: Service) {
    && |Line(s)| == |s.all|
    && (forall t :: t in Line(s) ==> t.n < |s.all| && s.all[t.n] == t.p)
    && (forall k :: 0 <= k < |s.all| ==> Ticket(k, s.all[k]) in Line(s))
  }

  lemma {:induction false} TaggedAt(fd: int, ps: seq<Bytes>)
    ensures |Tagged(fd, ps)| == |ps| && forall i :: 0 <= i < |ps| ==> Tagged(fd, ps)[i] == Package(fd, ps[i])
  {
    if ps != [] { TaggedAt(fd, ps[1..]); }
  }

  lemma NumberedMore(s: Service, fd: int, ps: seq<Bytes>, t: Service)
    requires Numbered(s) && t.all == s.all + Tagged(fd, ps)
    requires var ts := Tickets(fd, ps, |s.all|);
             Line(t) == s.got + ts + s.waiting || Line(t) == s.got + s.waiting + ts
    ensures Numbered(t)
  {
    var ts := Tickets(fd, ps, |s.all|);
    TaggedAt(fd, ps);
    forall x ensures x in Line(t) <==> x in Line(s) || x in ts {}
    forall k | 0 <= k < |t.all|
      ensures Ticket(k, t.all[k]) in Line(t)
    {
      if k < |s.all| {
        assert Ticket(k, s.all[k]) in Line(s);
      } else {
        assert ts[k - |s.all|] == Ticket(k, t.all[k]);
      }
    }
  }

  lemma TakeKeepsLine(s: Service)
    ensures Line(After1(s, Take)) == Line(s)
  {
    if s.waiting != [] { assert s.waiting == [s.waiting[0]] + s.waiting[1..]; }
  }

  lemma DataLine(s: Service, fd: int, chunk: Bytes)
    ensures var data := Held(s.kept, fd) + chunk;
            var ts := Tickets(fd, Packages(data), |s.all|);
            Line(After1(s, On(Data(fd, chunk)))) == if Direct(data) then s.got + ts + s.waiting else s.got + s.waiting + ts
  {
  }

  /** No package is lost and none is handed out twice. */
  lemma {:induction false} NothingLost(calls: seq<Call>)
    ensures Numbered(Served(calls))
  {
    if calls != [] {
      var n := |calls| - 1;
      var s, c := Served(calls[..n]), calls[n];
      NothingLost(calls[..n]);
      match c
      case Take => TakeKeepsLine(s);
      case On(Close(fd)) =>
      case On(Data(fd, chunk)) =>
        DataLine(s, fd, chunk);
        NumberedMore(s, fd, Packages(Held(s.kept, fd) + chunk), After1(s, c));
    }
  }

  // ----- order

  predicate InOrder(line: seq<Ticket>) {
    forall i, j :: 0 <= i < j < |line| && line[i].p.fd == line[j].p.fd ==> line[i].n < line[j].n
  }

  predicate Waits(s: Service, fd: int) { exists t :: t in s.waiting && t.p.fd == fd }

  /** A single package is handed over while packages of its id still wait in the queue. */
  predicate Overtakes(s: Service, c: Call) {
    c.On? && c.e.Data? && Direct(Held(s.kept, c.e.fd) + c.e.chunk) && Waits(s, c.e.fd)
  }

  predicate OvertakesAt(calls: seq<Call>, k: nat) {
    k < |calls| && Overtakes(Served(calls[..k]), calls[k])
  }

  ghost predicate Overtaken(calls: seq<Call>) { exists k: nat :: OvertakesAt(calls, k) }

  lemma AppendInOrder(line: seq<Ticket>, ts: seq<Ticket>)
    requires InOrder(ts) && forall a, b :: a in line && b in ts ==> a.n < b.n
    ensures InOrder(line + ts) <==> InOrder(line)
  {
    var all := line + ts;
    if InOrder(all) {
      forall i, j | 0 <= i < j < |line| && line[i].p.fd == line[j].p.fd
        ensures line[i].n < line[j].n
      {
        assert all[i] == line[i] && all[j] == line[j];
      }
    }
  }

  /** Where an element stands once another has come in at `m`. */
  function Up(i: nat, m: nat): nat { if i < m then i else i + 1 }

  ghost predicate CameIn(was: seq<Ticket>, now: seq<Ticket>, m: nat) {
    m < |now| == |was| + 1 && forall i :: 0 <= i < |was| ==> was[i] == now[Up(i, m)]
  }

  lemma WasInOrder(was: seq<Ticket>, now: seq<Ticket>, m: nat)
    requires CameIn(was, now, m) && InOrder(now)
    ensures InOrder(was)
  {
    forall i, j | 0 <= i < j < |was| && was[i].p.fd == was[j].p.fd
      ensures was[i].n < was[j].n
    {
      assert Up(i, m) < Up(j, m);
    }
  }

  lemma StillInOrder(was: seq<Ticket>, now: seq<Ticket>, m: nat)
    requires CameIn(was, now, m) && InOrder(was)
    requires forall i :: 0 <= i < m ==> now[i].n < now[m].n
    requires forall i :: m < i < |now| ==> now[i].p.fd != now[m].p.fd
    ensures InOrder(now)
  {
    forall i, j | 0 <= i < j < |now| && now[i].p.fd == now[j].p.fd
      ensures now[i].n < now[j].n
    {
      if i != m && j != m {
        var k, l := if i < m then i else i - 1, if j < m then j else j - 1;
        assert now[i] == now[Up(k, m)] == was[k] && now[j] == now[Up(l, m)] == was[l];
      }
    }
  }

  /** A new package between the two parts keeps the order exactly when its id is not in the second. */
  lemma InsertInOrder(a: seq<Ticket>, t: Ticket, b: seq<Ticket>)
    requires (forall i :: 0 <= i < |a| ==> a[i].n < t.n) && forall i :: 0 <= i < |b| ==> b[i].n < t.n
    ensures InOrder(a + [t] + b) <==> InOrder(a + b) && forall x :: x in b ==> x.p.fd != t.p.fd
  {
    var was, now, m := a + b, a + [t] + b, |a|;
    assert now[m] == t && CameIn(was, now, m);
    if InOrder(now) {
      WasInOrder(was, now, m);
      forall k | 0 <= k < |b|
        ensures b[k].p.fd != t.p.fd
      {
        assert now[m + 1 + k].n < now[m].n;
      }
    }
    if InOrder(was) && forall x :: x in b ==> x.p.fd != t.p.fd {
      forall i | m < i < |now|
        ensures now[i].p.fd != t.p.fd
      {
        assert now[i] == b[i - m - 1];
      }
      StillInOrder(was, now, m);
    }
  }

  lemma OrderStep(s: Service, c: Call)
    requires Numbered(s)
    ensures InOrder(Line(After1(s, c))) <==> InOrder(Line(s)) && !Overtakes(s, c)
  {
    match c
    case Take => TakeKeepsLine(s);
    case On(Close(fd)) =>
    case On(Data(fd, chunk)) =>
      var data := Held(s.kept, fd) + chunk;
      var ts := Tickets(fd, Packages(data), |s.all|);
      DataLine(s, fd, chunk);
      if Direct(data) {
        assert ts == [ts[0]];
        assert forall i :: 0 <= i < |s.got| ==> s.got[i] in Line(s);
        assert forall i :: 0 <= i < |s.waiting| ==> s.waiting[i] in Line(s);
        InsertInOrder(s.got, ts[0], s.waiting);
      } else {
        AppendInOrder(Line(s), ts);
      }
  }

  lemma OvertakenBefore(calls: seq<Call>, n: nat, k: nat)
    requires k < n <= |calls|
    ensures OvertakesAt(calls[..n], k) == OvertakesAt(calls, k)
  {
    assert calls[..n][..k] == calls[..k];
  }

  lemma OvertakenLast(calls: seq<Call>)
    requires calls != []
    ensures var n := |calls| - 1;
            Overtaken(calls) <==> Overtaken(calls[..n]) || Overtakes(Served(calls[..n]), calls[n])
  {
    var n := |calls| - 1;
    if k: nat :| OvertakesAt(calls[..n], k) {
      OvertakenBefore(calls, n, k);
    }
    if k: nat :| OvertakesAt(calls, k) {
      if k < n { OvertakenBefore(calls, n, k); }
    }
    assert OvertakesAt(calls, n) == Overtakes(Served(calls[..n]), calls[n]);
  }

  /**
   For any events and pops: the packages of every id come out in the order of its stream if and only if no
   single package was handed over while packages of its id were waiting in the queue.
   */
  lemma {:induction false} InOrderIff(calls: seq<Call>)
    ensures InOrder(Line(Served(calls))) <==> !Overtaken(calls)
  {
    if calls != [] {
      var before := calls[..|calls| - 1];
      InOrderIff(before);
      NothingLost(before);
      OrderStep(Served(before), calls[|calls| - 1]);
      OvertakenLast(calls);
    }
  }

  // ----- the packages of one id

  lemma {:induction false} NotWaiting(ts: seq<Ticket>, fd: int)
    requires forall t :: t in ts ==> t.p.fd != fd
    ensures Of(Bare(ts), fd) == []
  {
    if ts != [] { NotWaiting(ts[..|ts| - 1], fd); }
  }

  lemma OfBare(a: seq<Ticket>, b: seq<Ticket>, fd: int)
    ensures Of(Bare(a + b), fd) == Of(Bare(a), fd) + Of(Bare(b), fd)
  {
    BareConcat(a, b);
    OfAppend(Bare(a), Bare(b), fd);
  }

  lemma OfInserted(a: seq<Ticket>, ts: seq<Ticket>, b: seq<Ticket>, fd: int)
    requires Of(Bare(ts), fd) == [] || Of(Bare(b), fd) == []
    ensures Of(Bare(a + ts + b), fd) == Of(Bare(a + b), fd) + Of(Bare(ts), fd)
  {
    OfBare(a + ts, b, fd);
    OfBare(a, ts, fd);
    OfBare(a, b, fd);
  }

  /** While nothing overtakes, caller and queue together have what an id was sent, in order. */
  lemma OfStep(s: Service, c: Call, fd: int)
    requires Of(Bare(Line(s)), fd) == Of(s.all, fd) && !Overtakes(s, c)
    ensures Of(Bare(Line(After1(s, c))), fd) == Of(After1(s, c).all, fd)
  {
    match c
    case Take => TakeKeepsLine(s);
    case On(Close(_)) =>
      assert s.all + [] == s.all;
    case On(Data(id, chunk)) =>
      var data := Held(s.kept, id) + chunk;
      var ts := Tickets(id, Packages(data), |s.all|);
      DataLine(s, id, chunk);
      BareTickets(id, Packages(data), |s.all|);
      OfAppend(s.all, Tagged(id, Packages(data)), fd);
      OfTagged(Packages(data), id, fd);
      if Direct(data) {
        if id == fd { NotWaiting(s.waiting, fd); }
        OfInserted(s.got, ts, s.waiting, fd);
      } else {
        OfBare(Line(s), ts, fd);
      }
  }

  /** Then every id gets the packages of its own streams, in order, those in the queue being still to come. */
  lemma {:induction false} StreamsInOrder(calls: seq<Call>, fd: int)
    requires !Overtaken(calls)
    ensures var s := Served(calls);
            Of(Bare(s.got), fd) + Of(Bare(s.waiting), fd) == Earlier(Events(calls), fd) + Packages(Stream(Events(calls), fd))
  {
    LinesInOrder(calls, fd);
    var s := Served(calls);
    PopsDoNotMatter(calls);
    CutsDoNotMatter(Events(calls), fd);
    BareConcat(s.got, s.waiting);
    OfAppend(Bare(s.got), Bare(s.waiting), fd);
  }

  lemma {:induction false} LinesInOrder(calls: seq<Call>, fd: int)
    requires !Overtaken(calls)
    ensures Of(Bare(Line(Served(calls))), fd) == Of(Served(calls).all, fd)
  {
    if calls != [] {
      var before := calls[..|calls| - 1];
      OvertakenLast(calls);
      LinesInOrder(before, fd);
      OfStep(Served(before), calls[|calls| - 1], fd);
    }
  }

  const FIRST := On(Data(1, [0, 1, 1, 0, 1, 2]))
  const SECOND := On(Data(1, [0, 1, 3]))
  const QUEUED := [Ticket(0, Package(1, [1])), Ticket(1, Package(1, [2]))]

  lemma TwoQueued()
    ensures After1(Served([]), FIRST).waiting == QUEUED && After1(Served([]), FIRST).got == []
    ensures |After1(Served([]), FIRST).all| == 2 && After1(Served([]), FIRST).kept == map[1 := []]
  {
    TwoPackages();
    assert Held(map[], 1) + FIRST.e.chunk == FIRST.e.chunk;
    assert Tickets(1, [[1], [2]], 0) == QUEUED;
    TaggedAt(1, [[1], [2]]);
  }

  lemma ThirdGoesFirst(s: Service)
    requires s.waiting == QUEUED && s.got == [] && |s.all| == 2 && s.kept == map[1 := []]
    ensures Overtakes(s, SECOND) && After1(s, SECOND).waiting == QUEUED
    ensures After1(s, SECOND).got == [Ticket(2, Package(1, [3]))]
  {
    OnePackage();
    assert [] + SECOND.e.chunk == SECOND.e.chunk;
    assert QUEUED[0] in s.waiting;
    assert Tickets(1, [[3]], 2) == [Ticket(2, Package(1, [3]))];
  }

  /** It does happen: two packages in one chunk are queued, and the next one is handed over before them. */
  lemma OvertakingHappens() returns (calls: seq<Call>)
    ensures calls == [FIRST, SECOND] && Overtaken(calls)
    ensures Served(calls).got == [Ticket(2, Package(1, [3]))] && Served(calls).waiting == QUEUED
  {
    calls := [FIRST, SECOND];
    assert calls[..1] == [FIRST] && [FIRST][..0] == [];
    TwoQueued();
    assert Served(calls[..1]) == After1(Served([]), FIRST);
    ThirdGoesFirst(Served(calls[..1]));
    OvertakenLast(calls);
  }

  lemma OnePackage()
    ensures Packages([0, 1, 3]) == [[3]] && Rest([0, 1, 3]) == []
  {
    var u: Bytes := [0, 1, 3];
    assert First(u) == [3] && After(u) == [];
  }

  lemma TwoPackages()
    ensures Packages([0, 1, 1, 0, 1, 2]) == [[1], [2]] && Rest([0, 1, 1, 0, 1, 2]) == []
  {
    var s: Bytes := [0, 1, 1, 0, 1, 2];
    assert First(s) == [1] && After(s) == [0, 1, 2];
    var t: Bytes := [0, 1, 2];
    assert First(t) == [2] && After(t) == [];
  }
}
