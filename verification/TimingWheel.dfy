/**
 The hierarchical timing wheel of skynet/skynet-src/skynet_timer.c, refining a plain list of timers:
 a timer added with delay d fires on exactly the d-th following tick, once, in the order of the adds.
 */
module TimingWheel {
  import opened Arithmetic
  import opened WheelTime

  datatype Event = Event(handle: nat, session: int)

  /** struct timer_node; `expire` is a 32-bit time. */
  datatype Node = Node(expire: nat, event: Event)

  /** A node and the tick at which it is due, counted on a clock that never wraps. */
  datatype Entry = Entry(node: Node, due: nat)

  datatype Request = Request(event: Event, delay: nat)

  predicate WellTimed(all: seq<Entry>, now: nat) {
    forall i :: 0 <= i < |all| ==> all[i].node.expire == all[i].due % WRAP && all[i].due < now + MAX_DELAY
  }

  /** The elements of `xs` that pass, in order. */
  function Pick<T>(xs: seq<T>, pass: T -> bool): seq<T> {
    if xs == [] then []
    else Pick(xs[..|xs| - 1], pass) + (if pass(xs[|xs| - 1]) then [xs[|xs| - 1]] else [])
  }

  function Nodes(es: seq<Entry>): (ns: seq<Node>)
    ensures |ns| == |es|
  {
    seq(|es|, i requires 0 <= i < |es| => es[i].node)
  }

  function Events(es: seq<Entry>): (evs: seq<Event>)
    ensures |evs| == |es|
  {
    seq(|es|, i requires 0 <= i < |es| => es[i].node.event)
  }

  /** Whether a timer is in slot `s` at time `now` when everything due before `from` has fired. */
  function InSlot(from: nat, now: nat, s: Slot): Entry -> bool {
    (e: Entry) => from <= e.due && SlotOf(e.due, now) == s
  }

  /** The nodes of slot `s`, in the order they were added. */
  function Held(all: seq<Entry>, from: nat, now: nat, s: Slot): seq<Node> {
    Nodes(Pick(all, InSlot(from, now, s)))
  }

  /** Whether add_node puts a node in slot `s`. */
  function GoesTo(time: nat, s: Slot): Node -> bool {
    (n: Node) => SlotOf(n.expire, time) == s
  }

  /** The nodes of a list that add_node puts in slot `s`. */
  function Sift(list: seq<Node>, time: nat, s: Slot): seq<Node> { Pick(list, GoesTo(time, s)) }

  function IsDue(t: nat): Entry -> bool { (e: Entry) => e.due == t }

  /** The events of all timers due at tick `t`, in the order of the adds. */
  function DueAt(all: seq<Entry>, t: nat): seq<Event> { Events(Pick(all, IsDue(t))) }

  function Entries(window: seq<Request>, now: nat): (es: seq<Entry>)
    ensures |es| == |window|
  {
    seq(|window|, i requires 0 <= i < |window| =>
      Entry(Node((now + window[i].delay) % WRAP, window[i].event), now + window[i].delay))
  }

  predicate Timely(window: seq<Request>) {
    forall i :: 0 <= i < |window| ==> 1 <= window[i].delay < MAX_DELAY
  }

  // ----- facts about picking

  lemma PickAppend<T>(xs: seq<T>, x: T, pass: T -> bool)
    ensures Pick(xs + [x], pass) == Pick(xs, pass) + (if pass(x) then [x] else [])
  {
    assert (xs + [x])[..|xs|] == xs;
  }

  lemma {:induction false} PickSame<T>(xs: seq<T>, p: T -> bool, q: T -> bool)
    requires forall i :: 0 <= i < |xs| ==> p(xs[i]) == q(xs[i])
    ensures Pick(xs, p) == Pick(xs, q)
  {
    if xs != [] { PickSame(xs[..|xs| - 1], p, q); }
  }

  lemma {:induction false} PickNone<T>(xs: seq<T>, p: T -> bool)
    requires forall i :: 0 <= i < |xs| ==> !p(xs[i])
    ensures Pick(xs, p) == []
  {
    if xs != [] { PickNone(xs[..|xs| - 1], p); }
  }

  function Both<T>(p: T -> bool, q: T -> bool): T -> bool { x => p(x) && q(x) }

  function OnNode(q: Node -> bool): Entry -> bool { (e: Entry) => q(e.node) }

  /** Picking from what was picked. */
  lemma {:induction false} PickTwice<T>(xs: seq<T>, p: T -> bool, q: T -> bool)
    ensures Pick(Pick(xs, p), q) == Pick(xs, Both(p, q))
  {
    if xs != [] {
      var rest, x := xs[..|xs| - 1], xs[|xs| - 1];
      PickTwice(rest, p, q);
      if p(x) {
        PickAppend(Pick(rest, p), x, q);
      } else {
        assert Pick(xs, p) == Pick(rest, p);
      }
    }
  }

  /** Picking nodes is picking their timers. */
  lemma {:induction false} PickNodes(es: seq<Entry>, q: Node -> bool)
    ensures Pick(Nodes(es), q) == Nodes(Pick(es, OnNode(q)))
  {
    if es != [] {
      var rest, e := es[..|es| - 1], es[|es| - 1];
      PickNodes(rest, q);
      assert Nodes(es) == Nodes(rest) + [e.node];
      PickAppend(Nodes(rest), e.node, q);
    }
  }

  lemma {:induction false} PickConcat<T>(xs: seq<T>, ys: seq<T>, p: T -> bool)
    ensures Pick(xs + ys, p) == Pick(xs, p) + Pick(ys, p)
  {
    if ys == [] {
      assert xs + ys == xs;
    } else {
      PickConcat(xs, ys[..|ys| - 1], p);
      assert (xs + ys)[..|xs + ys| - 1] == xs + ys[..|ys| - 1];
    }
  }

  // ----- what a tick does to the slots

  /** What the cascade means for one timer and one slot. */
  lemma CascadeEntry(c: nat, e: Entry, s: Slot, m: Slot)
    requires c > 0 && CascadeAt(c).From? && m == Far(CascadeAt(c).level, CascadeAt(c).idx)
    requires e.node.expire == e.due % WRAP && c <= e.due < c - 1 + MAX_DELAY
    ensures SlotOf(e.node.expire, c % WRAP) == SlotOf(e.due, c)
    ensures Below(s, m.level) ==> SlotOf(e.due, c - 1) != s
    ensures Below(s, m.level) && SlotOf(e.due, c) == s ==> SlotOf(e.due, c - 1) == m
    ensures !Below(s, m.level) && SlotOf(e.due, c - 1) == m ==> SlotOf(e.due, c) != s
    ensures !Below(s, m.level) && SlotOf(e.due, c - 1) != m ==> SlotOf(e.due, c) == SlotOf(e.due, c - 1)
  {
    NoneBelow(c, e.due);
    CascadeMoves(c, e.due);
    WrappedSlot(e.due, c);
  }

  /** The timers the cascade adds to slot `s`. */
  function Moved(c: nat, s: Slot, m: Slot): Entry -> bool
    requires c > 0
  {
    Both(InSlot(c, c - 1, m), OnNode(GoesTo(c % WRAP, s)))
  }

  lemma SiftHeld(all: seq<Entry>, c: nat, s: Slot, m: Slot)
    requires c > 0
    ensures Sift(Held(all, c, c - 1, m), c % WRAP, s) == Nodes(Pick(all, Moved(c, s, m)))
  {
    PickNodes(Pick(all, InSlot(c, c - 1, m)), GoesTo(c % WRAP, s));
    PickTwice(all, InSlot(c, c - 1, m), OnNode(GoesTo(c % WRAP, s)));
  }

  /** Slots below the cascading level are empty before the tick and receive their nodes from the cascade. */
  lemma HeldBelow(all: seq<Entry>, c: nat, s: Slot, m: Slot)
    requires c > 0 && WellTimed(all, c - 1) && CascadeAt(c).From? && m == Far(CascadeAt(c).level, CascadeAt(c).idx)
    requires Below(s, m.level)
    ensures Held(all, c, c - 1, s) == [] && Held(all, c, c, s) == Sift(Held(all, c, c - 1, m), c % WRAP, s)
  {
    forall i | 0 <= i < |all|
      ensures !InSlot(c, c - 1, s)(all[i])
      ensures InSlot(c, c, s)(all[i]) == Moved(c, s, m)(all[i])
    {
      if c <= all[i].due { CascadeEntry(c, all[i], s, m); }
    }
    PickNone(all, InSlot(c, c - 1, s));
    SiftHeld(all, c, s, m);
    PickSame(all, InSlot(c, c, s), Moved(c, s, m));
  }

  /** Every other slot keeps its nodes, except that the cascading slot is emptied. */
  lemma HeldAbove(all: seq<Entry>, c: nat, s: Slot, m: Slot)
    requires c > 0 && WellTimed(all, c - 1) && CascadeAt(c).From? && m == Far(CascadeAt(c).level, CascadeAt(c).idx)
    requires !Below(s, m.level)
    ensures Sift(Held(all, c, c - 1, m), c % WRAP, s) == []
    ensures Held(all, c, c, s) == if s == m then [] else Held(all, c, c - 1, s)
  {
    forall i | 0 <= i < |all|
      ensures !Moved(c, s, m)(all[i])
      ensures InSlot(c, c, s)(all[i]) == (s != m && InSlot(c, c - 1, s)(all[i]))
    {
      if c <= all[i].due { CascadeEntry(c, all[i], s, m); }
    }
    SiftHeld(all, c, s, m);
    PickNone(all, Moved(c, s, m));
    if s == m {
      PickNone(all, InSlot(c, c, s));
    } else {
      PickSame(all, InSlot(c, c, s), InSlot(c, c - 1, s));
    }
  }

  lemma CascadeHolds(all: seq<Entry>, c: nat, s: Slot)
    requires c > 0 && WellTimed(all, c - 1) && CascadeAt(c).From?
    ensures var m := Far(CascadeAt(c).level, CascadeAt(c).idx);
            Held(all, c, c, s) == (if s == m then [] else Held(all, c, c - 1, s)) + Sift(Held(all, c, c - 1, m), c % WRAP, s)
  {
    var m := Far(CascadeAt(c).level, CascadeAt(c).idx);
    if Below(s, m.level) { HeldBelow(all, c, s, m); } else { HeldAbove(all, c, s, m); }
  }

  lemma QuietTick(all: seq<Entry>, c: nat, s: Slot)
    requires c > 0 && CascadeAt(c).Nothing?
    ensures Held(all, c, c, s) == Held(all, c, c - 1, s)
  {
    forall i | 0 <= i < |all| ensures InSlot(c, c, s)(all[i]) == InSlot(c, c - 1, s)(all[i]) { NoCascade(c, all[i].due); }
    PickSame(all, InSlot(c, c, s), InSlot(c, c - 1, s));
  }

  /** The near slot of the current tick holds exactly what is due now; all other slots hold nothing of it. */
  lemma DueNow(all: seq<Entry>, c: nat, s: Slot)
    ensures Held(all, c, c, Near(c % 0x100)) == Nodes(Pick(all, IsDue(c)))
    ensures Held(all, c + 1, c, s) == if s == Near(c % 0x100) then [] else Held(all, c, c, s)
  {
    forall i | 0 <= i < |all|
      ensures InSlot(c, c, Near(c % 0x100))(all[i]) == IsDue(c)(all[i])
      ensures InSlot(c + 1, c, s)(all[i]) == (s != Near(c % 0x100) && InSlot(c, c, s)(all[i]))
    {
      if c <= all[i].due { DueSlot(all[i].due, c); }
    }
    PickSame(all, InSlot(c, c, Near(c % 0x100)), IsDue(c));
    if s == Near(c % 0x100) {
      PickNone(all, InSlot(c + 1, c, s));
    } else {
      PickSame(all, InSlot(c + 1, c, s), InSlot(c, c, s));
    }
  }

  /** A timer added now goes to the end of the slot add_node chooses. */
  lemma HeldMore(all: seq<Entry>, e: Entry, now: nat, s: Slot)
    requires e.node.expire == e.due % WRAP && now < e.due < now + MAX_DELAY
    ensures Held(all + [e], now + 1, now, s) ==
            Held(all, now + 1, now, s) + (if s == SlotOf(e.node.expire, now % WRAP) then [e.node] else [])
  {
    PickAppend(all, e, InSlot(now + 1, now, s));
    WrappedSlot(e.due, now);
  }

  lemma AddedOne(all: seq<Entry>, e: Entry, now: nat)
    requires WellTimed(all, now) && e.node.expire == e.due % WRAP && now < e.due < now + MAX_DELAY
    ensures WellTimed(all + [e], now)
    ensures forall s :: IsSlot(s) ==>
              Held(all + [e], now + 1, now, s) ==
              Held(all, now + 1, now, s) + (if s == SlotOf(e.node.expire, now % WRAP) then [e.node] else [])
  {
    forall s | IsSlot(s) ensures Held(all + [e], now + 1, now, s) ==
      Held(all, now + 1, now, s) + (if s == SlotOf(e.node.expire, now % WRAP) then [e.node] else [])
    {
      HeldMore(all, e, now, s);
    }
  }

  /** When nothing is due the executed slot is empty and every slot is as it should be after the tick. */
  lemma NothingDue(all: seq<Entry>, now: nat)
    requires Held(all, now, now, Near(now % 0x100)) == []
    ensures DueAt(all, now) == []
    ensures forall s :: IsSlot(s) ==> Held(all, now + 1, now, s) == Held(all, now, now, s)
  {
    forall s | IsSlot(s) ensures Held(all, now + 1, now, s) == Held(all, now, now, s) { DueNow(all, now, s); }
    DueNow(all, now, Near(now % 0x100));
  }

  lemma SiftAppend(list: seq<Node>, n: Node, time: nat, s: Slot)
    ensures Sift(list + [n], time, s) == Sift(list, time, s) + (if s == SlotOf(n.expire, time) then [n] else [])
  {
    PickAppend(list, n, GoesTo(time, s));
  }

  /** Timers added at or after a tick never fire on it. */
  lemma LaterAdds(all: seq<Entry>, more: seq<Entry>, t: nat)
    requires forall i :: 0 <= i < |more| ==> more[i].due > t
    ensures DueAt(all + more, t) == DueAt(all, t)
  {
    PickConcat(all, more, IsDue(t));
    PickNone(more, IsDue(t));
  }

  /** dispatch_list: one message per node, in list order. */
  method DispatchList(list: seq<Node>) returns (events: seq<Event>)
    ensures events == seq(|list|, i requires 0 <= i < |list| => list[i].event)
  {
    events := [];
    var k := 0;
    while k < |list|
      invariant 0 <= k <= |list| && |events| == k
      invariant forall i :: 0 <= i < k ==> events[i] == list[i].event
    {
      events := events + [list[k].event];
      k := k + 1;
    }
  }

  // ----- the wheel

  /** struct timer. */
  class Timer {
    var near: array<seq<Node>>
    var far: array2<seq<Node>>
    var time: nat
    ghost var now: nat            // ticks so far, on a clock that never wraps
    ghost var all: seq<Entry>     // every timer ever added

    ghost predicate Sized()
      reads this`near, this`far
    {
      near.Length == 256 && far.Length0 == 4 && far.Length1 == 64
    }

    ghost predicate Shape()
      reads this
    {
      Sized() && time == now % WRAP && WellTimed(all, now)
    }

    ghost function Cell(s: Slot): seq<Node>
      requires Sized() && IsSlot(s)
      reads this`near, this`far, near, far
    {
      match s case Near(i) => near[i] case Far(l, i) => far[l, i]
    }

    /** Every slot holds exactly the nodes add_node would now put there, in the order of the adds. */
    ghost predicate Stores(from: nat)
      requires Shape()
      reads this, near, far
    {
      forall s :: IsSlot(s) ==> Cell(s) == Held(all, from, now, s)
    }

    /** Between two ticks everything due up to now has fired. */
    ghost predicate Valid()
      reads this, near, far
    {
      Shape() && Stores(now + 1)
    }

    constructor ()
      ensures Valid() && all == [] && now == 0 && fresh(near) && fresh(far)
    {
      near := new seq<Node>[256](_ => []);
      far := new seq<Node>[4, 64]((_, _) => []);
      time := 0;
      now := 0;
      all := [];
    }

    /** add_node. */
    method AddNode(node: Node)
      requires Shape()
      modifies near, far
      ensures Shape()
      ensures forall s :: IsSlot(s) ==>
                Cell(s) == old(Cell(s)) + (if s == SlotOf(node.expire, time) then [node] else [])
    {
      var slot := Choose(node.expire, time);
      match slot
      case Near(idx) => near[idx] := near[idx] + [node];
      case Far(i, idx) => far[i, idx] := far[i, idx] + [node];
    }

    /** timer_add, for the delays skynet_timeout passes on. */
    method Add(event: Event, delay: nat)
      requires Valid() && 1 <= delay < MAX_DELAY
      modifies this`all, near, far
      ensures Valid() && all == old(all) + [Entry(Node((now + delay) % WRAP, event), now + delay)]
    {
      var node := Node((delay + time) % WRAP, event);
      ghost var e := Entry(node, now + delay);
      assert node.expire == (now + delay) % WRAP by { WrapSum(now, delay); }
      AddNode(node);
      AddedOne(all, e, now);
      all := all + [e];
    }

    /** skynet_timeout: a delay that is not positive is answered at once. */
    method Timeout(event: Event, delay: int) returns (immediate: bool)
      requires Valid() && delay < MAX_DELAY
      modifies this`all, near, far
      ensures Valid() && immediate == (delay <= 0)
      ensures immediate ==> all == old(all)
      ensures !immediate ==> all == old(all) + [Entry(Node((now + delay) % WRAP, event), now + delay)]
    {
      immediate := delay <= 0;
      if !immediate {
        Add(event, delay);
      }
    }

    /** The loop of move_list: the nodes are added in their order. */
    method AddList(current: seq<Node>)
      requires Shape()
      modifies near, far
      ensures Shape()
      ensures forall s :: IsSlot(s) ==> Cell(s) == old(Cell(s)) + Sift(current, time, s)
    {
      var k := 0;
      while k < |current|
        invariant 0 <= k <= |current| && Shape()
        invariant forall s :: IsSlot(s) ==> Cell(s) == old(Cell(s)) + Sift(current[..k], time, s)
      {
        AddNode(current[k]);
        assert current[..k + 1] == current[..k] + [current[k]];
        forall s | IsSlot(s) ensures Cell(s) == old(Cell(s)) + Sift(current[..k + 1], time, s) {
          SiftAppend(current[..k], current[k], time, s);
        }
        k := k + 1;
      }
      assert current[..k] == current;
    }

    /** move_list: the nodes of one slot are taken out and added again. */
    method MoveList(level: nat, idx: nat)
      requires Shape() && level < 4 && idx < 64
      modifies near, far
      ensures Shape()
      ensures forall s :: IsSlot(s) ==>
                Cell(s) == (if s == Far(level, idx) then [] else old(Cell(s))) + Sift(old(Cell(Far(level, idx))), time, s)
    {
      var current := far[level, idx];
      far[level, idx] := [];
      AddList(current);
    }

    /** Adds made by other threads while the lock is free. */
    method AddAll(window: seq<Request>)
      requires Valid() && Timely(window)
      modifies this`all, near, far
      ensures Valid() && all == old(all) + Entries(window, now)
    {
      var k := 0;
      assert Entries(window[..0], now) == [];
      while k < |window|
        invariant 0 <= k <= |window| && Valid() && all == old(all) + Entries(window[..k], now)
      {
        Add(window[k].event, window[k].delay);
        assert Entries(window[..k + 1], now) == Entries(window[..k], now) +
               [Entry(Node((now + window[k].delay) % WRAP, window[k].event), now + window[k].delay)];
        k := k + 1;
      }
      assert window[..k] == window;
    }

    /** The body of timer_shift after the increment. */
    method CascadeNow()
      requires Shape() && now > 0
      modifies near, far
      ensures Shape()
      ensures CascadeAt(now).Nothing? ==> forall s :: IsSlot(s) ==> Cell(s) == old(Cell(s))
      ensures CascadeAt(now).From? ==>
                var m := Far(CascadeAt(now).level, CascadeAt(now).idx);
                IsSlot(m) && forall s :: IsSlot(s) ==>
                  Cell(s) == (if s == m then [] else old(Cell(s))) + Sift(old(Cell(m)), time, s)
    {
      TickWrapped(now);
      if time == 0 {
        MoveList(3, 0);
      } else {
        var mask, rest, i := 0x100, time / 0x100, 0;
        MaskKeepsRest(time, 0);
        while BitAnd(time, mask - 1) == 0
          invariant 0 <= i < 4 && mask == Span(i) && rest == time / Span(i)
          invariant i > 0 ==> CascadeAt(now).From? && i <= CascadeAt(now).level
          invariant BitAnd(time, mask - 1) == time % mask && (i > 0 ==> time % mask == 0)
          invariant forall s :: IsSlot(s) ==> Cell(s) == old(Cell(s))
          decreases 4 - i
        {
          LevelMask(rest);
          var idx := BitAnd(rest, 63);
          LevelStep(now, i);
          if idx != 0 {
            MoveList(i, idx);
            return;
          }
          NextRest(time, i);
          MaskKeepsRest(time, i + 1);
          mask := mask * 64;
          rest := rest / 64;
          i := i + 1;
        }
      }
    }

    /** timer_shift: the clock advances and one slot may cascade. */
    method Shift()
      requires Valid()
      modifies this`time, this`now, near, far
      ensures Shape() && now == old(now) + 1 && Stores(now)
    {
      WrapSum(now, 1);
      time := (time + 1) % WRAP;
      now := now + 1;
      assert forall s :: IsSlot(s) ==> Cell(s) == Held(all, now, now - 1, s);
      CascadeNow();
      forall s | IsSlot(s) ensures Cell(s) == Held(all, now, now, s) {
        if CascadeAt(now).From? { CascadeHolds(all, now, s); } else { QuietTick(all, now, s); }
      }
    }

    /** The slot to execute holds what is due, and nothing once that has fired. */
    lemma ExecutedSlot(idx: nat)
      requires Shape() && idx == time % 0x100
      ensures idx == now % 0x100
      ensures Stores(now) ==> near[idx] == Nodes(Pick(all, IsDue(now)))
      ensures Stores(now + 1) ==> near[idx] == []
    {
      WrapKeepsLowBits(now);
      DueNow(all, now, Near(idx));
      assert near[idx] == Cell(Near(idx));
    }

    /** One turn of timer_execute: clear the list, free the lock, dispatch, take the lock. */
    method ExecuteOnce(window: seq<Request>) returns (events: seq<Event>)
      requires Shape() && Stores(now) && Timely(window)
      modifies this`all, near, far
      ensures Valid() && events == DueAt(old(all), now) && all == old(all) + Entries(window, now)
      ensures |events| == |old(near[time % 0x100])| && near[time % 0x100] == []
    {
      var idx := NearIndex(time);
      ExecutedSlot(idx);
      var current := near[idx];
      near[idx] := [];
      forall s | IsSlot(s) ensures Cell(s) == Held(all, now + 1, now, s) {
        DueNow(all, now, s);
        assert s != Near(idx) ==> Cell(s) == old(Cell(s));
      }
      AddAll(window);
      ExecutedSlot(idx);
      events := DispatchList(current);
    }

    /**
     timer_execute: the lock is free while a list is dispatched, and `window` is what other threads
     add meanwhile.  `ticked` tells whether the clock has advanced since the last call.
     */
    method Execute(window: seq<Request>, ghost ticked: bool) returns (fired: seq<Event>)
      requires Shape() && (ticked ==> Stores(now)) && (!ticked ==> Stores(now + 1)) && Timely(window)
      modifies this`all, near, far
      ensures Valid() && fired == if ticked then DueAt(old(all), now) else []
      ensures all == old(all) + (if fired == [] then [] else Entries(window, now))
    {
      var idx := NearIndex(time);
      fired := [];
      ghost var todo := ticked;
      ghost var due := if ticked then DueAt(all, now) else [];
      ExecutedSlot(idx);
      while near[idx] != []
        invariant Shape() && (todo ==> Stores(now)) && (!todo ==> Stores(now + 1) && near[idx] == [])
        invariant todo ==> ticked && all == old(all) && fired == []
        invariant !todo ==> fired == due && all == old(all) + (if fired == [] then [] else Entries(window, now))
        decreases todo
      {
        var events := ExecuteOnce(window);
        fired := fired + events;
        todo := false;
      }
      if todo {
        NoneFired();
      }
    }

    /** When the slot to execute is empty, nothing was due. */
    lemma NoneFired()
      requires Shape() && Stores(now) && near[time % 0x100] == []
      ensures Stores(now + 1) && DueAt(all, now) == []
    {
      WrapKeepsLowBits(now);
      assert Cell(Near(now % 0x100)) == near[time % 0x100];
      NothingDue(all, now);
    }

    /** timer_update: one tick. */
    method Update(window: seq<Request>) returns (fired: seq<Event>)
      requires Valid() && Timely(window)
      modifies this, near, far
      ensures Valid() && near == old(near) && far == old(far)
      ensures now == old(now) + 1 && fired == DueAt(old(all), now)
      ensures all == old(all) + (if fired == [] then [] else Entries(window, now))
    {
      var early := Execute([], false);
      assert all == old(all);
      Shift();
      fired := Execute(window, true);
    }
  }

  lemma WrapSum(now: nat, d: nat)
    ensures (now % WRAP + d) % WRAP == (now + d) % WRAP
  {
    DivUnique(now + d, WRAP, now / WRAP + (now % WRAP + d) / WRAP, (now % WRAP + d) % WRAP);
  }

  /** The 32-bit time tells which slot cascades. */
  lemma TickWrapped(c: nat)
    requires c > 0
    ensures c % WRAP == 0 ==> CascadeAt(c) == From(3, 0)
    ensures c % WRAP % 0x100 != 0 ==> CascadeAt(c).Nothing?
  {
    WrapKeepsLowBits(c);
    if c % WRAP == 0 {
      DivUnique(c, Span(3), c / WRAP * 64, 0);
      SpanMultiples(c);
    }
  }

  lemma LowZero(c: nat, i: nat)
    requires i < 4
    ensures c % WRAP % Span(i) == 0 <==> c % Span(i) == 0
    ensures c % WRAP / Span(i) % 64 == c / Span(i) % 64
  {
    BlocksAgree(c, c, i);
    var a, r := c / WRAP, c % WRAP;
    assert PerTurn(i) * Span(i) == WRAP;
    assert a * (PerTurn(i) * Span(i)) == (a * PerTurn(i)) * Span(i);
    assert c == (a * PerTurn(i) + r / Span(i)) * Span(i) + r % Span(i);
    DivUnique(c, Span(i), a * PerTurn(i) + r / Span(i), r % Span(i));
  }

  /** One turn of the loop of timer_shift. */
  lemma LevelStep(c: nat, i: nat)
    requires i < 4 && c % WRAP != 0 && c % WRAP % Span(i) == 0
    requires i > 0 ==> CascadeAt(c).From? && i <= CascadeAt(c).level
    ensures CascadeAt(c).From?
    ensures var idx := c % WRAP / Span(i) % 64;
            if idx != 0 then CascadeAt(c) == From(i, idx)
            else i < 3 && i < CascadeAt(c).level && c % WRAP % Span(i + 1) == 0
  {
    LowZero(c, i);
    SpanMultiples(c);
    DigitZero(c, i);
    if i < 3 {
      LowZero(c, i + 1);
    } else {
      DigitZero(c % WRAP, 3);
    }
  }

  /** A multiple of a span is one of the next span exactly when its digit there is zero. */
  lemma DigitZero(c: nat, i: nat)
    requires i < 4 && c % Span(i) == 0
    ensures c / Span(i) % 64 == 0 <==> c % Span(i + 1) == 0
  {
    var q := c / Span(i);
    assert Span(i + 1) == 64 * Span(i);
    assert q == 64 * (q / 64) + q % 64;
    assert c == (64 * (q / 64) + q % 64) * Span(i) == q / 64 * (64 * Span(i)) + q % 64 * Span(i);
    assert q % 64 * Span(i) < 64 * Span(i);
    DivUnique(c, Span(i + 1), q / 64, q % 64 * Span(i));
  }

  lemma NextRest(t: nat, i: nat)
    requires i < 3
    ensures t / Span(i) / 64 == t / Span(i + 1) && Span(i) * 64 == Span(i + 1)
  {
    Nested(t);
  }

  /** The loop of add_node: the lowest of three levels whose next block both times share, else the fourth. */
  method Level(expire: nat, time: nat) returns (i: nat)
    ensures i == LevelOf(expire, time)
  {
    var mask := 0x4000;
    i := 0;
    while i < 3
      invariant 0 <= i <= 3 && mask == Span(i + 1)
      invariant forall k :: 1 <= k <= i ==> expire / Span(k) != time / Span(k)
    {
      MaskComparesBlocks(expire, time, i + 1);
      if BitOr(expire, mask - 1) == BitOr(time, mask - 1) {
        break;
      }
      mask := mask * 64;
      i := i + 1;
    }
  }

  /** The choice of add_node. */
  method Choose(expire: nat, time: nat) returns (slot: Slot)
    ensures slot == SlotOf(expire, time)
  {
    MaskComparesBlocks(expire, time, 0);
    if BitOr(expire, 0xff) == BitOr(time, 0xff) {
      MaskKeepsRest(expire, 0);
      slot := Near(BitAnd(expire, 0xff));
    } else {
      var i := Level(expire, time);
      LevelMask(expire / Span(i));
      slot := Far(i, BitAnd(expire / Span(i), 63));
    }
  }

  /** `time & TIME_NEAR_MASK`. */
  method NearIndex(time: nat) returns (idx: nat)
    ensures idx == time % 0x100
  {
    MaskKeepsRest(time, 0);
    idx := BitAnd(time, 0xff);
  }

  // ----- whole runs

  datatype Op = AddTimer(event: Event, delay: nat) | Tick(window: seq<Request>)

  predicate Allowed(ops: seq<Op>) {
    forall i :: 0 <= i < |ops| ==>
      match ops[i] case AddTimer(_, d) => 1 <= d < MAX_DELAY case Tick(window) => Timely(window)
  }

  /** How many ticks have gone by. */
  function Now(ops: seq<Op>): nat {
    if ops == [] then 0 else Now(ops[..|ops| - 1]) + (if ops[|ops| - 1].Tick? then 1 else 0)
  }

  /**
   The timers that were asked for, in order, each due its delay after the tick at which it was added.
   The adds in the window of a tick are made during its dispatch, so there are some only if a timer is due.
   */
  function Plan(ops: seq<Op>): seq<Entry> {
    if ops == [] then []
    else
      var before, now := Plan(ops[..|ops| - 1]), Now(ops[..|ops| - 1]);
      match ops[|ops| - 1]
      case AddTimer(event, delay) => before + Entries([Request(event, delay)], now)
      case Tick(window) => if DueAt(before, now + 1) == [] then before else before + Entries(window, now + 1)
  }

  /** What a run is to fire, tick by tick: the plain specification, from the operations alone. */
  ghost predicate FiresAsPlanned(ops: seq<Op>, log: seq<seq<Event>>) {
    |log| == Now(ops) && forall k :: 0 <= k < |log| ==> log[k] == DueAt(Plan(ops), k + 1)
  }

  /** Later operations only add timers, and none for a tick that is over. */
  lemma PlanStep(ops: seq<Op>, n: nat)
    requires Allowed(ops) && n < |ops|
    ensures Plan(ops[..n]) <= Plan(ops[..n + 1]) && Now(ops[..n]) <= Now(ops[..n + 1])
    ensures forall t: nat :: t <= Now(ops[..n + 1]) ==> DueAt(Plan(ops[..n + 1]), t) == DueAt(Plan(ops[..n]), t)
  {
    var before, after := ops[..n], ops[..n + 1];
    assert after[..n] == before && after[n] == ops[n];
    var more := Plan(after)[|Plan(before)|..];
    assert Plan(after) == Plan(before) + more;
    forall t: nat | t <= Now(after)
      ensures DueAt(Plan(after), t) == DueAt(Plan(before), t)
    {
      LaterAdds(Plan(before), more, t);
    }
  }

  lemma AddPlanned(ops: seq<Op>, n: nat, log: seq<seq<Event>>)
    requires Allowed(ops) && n < |ops| && ops[n].AddTimer? && FiresAsPlanned(ops[..n], log)
    ensures Now(ops[..n + 1]) == Now(ops[..n]) && FiresAsPlanned(ops[..n + 1], log)
    ensures var now := Now(ops[..n]);
            Plan(ops[..n + 1]) == Plan(ops[..n]) + [Entry(Node((now + ops[n].delay) % WRAP, ops[n].event), now + ops[n].delay)]
  {
    assert ops[..n + 1][..n] == ops[..n];
    PlanStep(ops, n);
    var now := Now(ops[..n]);
    assert Entries([Request(ops[n].event, ops[n].delay)], now) ==
           [Entry(Node((now + ops[n].delay) % WRAP, ops[n].event), now + ops[n].delay)];
  }

  lemma TickPlanned(ops: seq<Op>, n: nat, log: seq<seq<Event>>)
    requires Allowed(ops) && n < |ops| && ops[n].Tick? && FiresAsPlanned(ops[..n], log)
    ensures var due := DueAt(Plan(ops[..n]), Now(ops[..n]) + 1);
            && Now(ops[..n + 1]) == Now(ops[..n]) + 1 && FiresAsPlanned(ops[..n + 1], log + [due])
            && Plan(ops[..n + 1]) == Plan(ops[..n]) + (if due == [] then [] else Entries(ops[n].window, Now(ops[..n]) + 1))
  {
    assert ops[..n + 1][..n] == ops[..n];
    PlanStep(ops, n);
  }

  /** The n-th operation of a run. */
  method Do(timer: Timer, ops: seq<Op>, n: nat, before: seq<seq<Event>>) returns (log: seq<seq<Event>>)
    requires Allowed(ops) && n < |ops| && FiresAsPlanned(ops[..n], before)
    requires timer.Valid() && timer.now == Now(ops[..n]) && timer.all == Plan(ops[..n])
    modifies timer, timer.near, timer.far
    ensures timer.Valid() && timer.now == Now(ops[..n + 1]) && timer.all == Plan(ops[..n + 1])
    ensures timer.near == old(timer.near) && timer.far == old(timer.far)
    ensures FiresAsPlanned(ops[..n + 1], log)
  {
    match ops[n] {
      case AddTimer(event, delay) =>
        AddPlanned(ops, n, before);
        timer.Add(event, delay);
        log := before;
      case Tick(window) =>
        TickPlanned(ops, n, before);
        var fired := timer.Update(window);
        log := before + [fired];
    }
  }

  /** Over any run from a new wheel, tick k fires exactly the timers planned for k, in the order of their adds. */
  method Run(ops: seq<Op>) returns (timer: Timer, log: seq<seq<Event>>)
    requires Allowed(ops)
    ensures fresh(timer) && timer.Valid() && timer.now == Now(ops) && timer.all == Plan(ops)
    ensures FiresAsPlanned(ops, log)
  {
    timer := new Timer();
    log := [];
    var i := 0;
    while i < |ops|
      invariant 0 <= i <= |ops|
      invariant fresh(timer) && fresh(timer.near) && fresh(timer.far) && timer.Valid()
      invariant timer.now == Now(ops[..i]) && timer.all == Plan(ops[..i])
      invariant FiresAsPlanned(ops[..i], log)
    {
      log := Do(timer, ops, i, log);
      i := i + 1;
    }
    assert ops[..|ops|] == ops;
  }

  lemma {:induction false} PlanGrows(ops: seq<Op>, n: nat)
    requires Allowed(ops) && n <= |ops|
    ensures Plan(ops[..n]) <= Plan(ops)
    decreases |ops| - n
  {
    if n == |ops| {
      assert ops[..n] == ops;
    } else {
      PlanStep(ops, n);
      PlanGrows(ops, n + 1);
    }
  }

  /** The i-th planned timer is in the log at its tick, behind exactly the earlier timers of that tick. */
  lemma FiresInPlace(ops: seq<Op>, log: seq<seq<Event>>, i: nat)
    requires FiresAsPlanned(ops, log) && i < |Plan(ops)| && 0 < Plan(ops)[i].due <= Now(ops)
    ensures var t := Plan(ops)[i].due;
            var place := |DueAt(Plan(ops)[..i], t)|;
            place < |log[t - 1]| && log[t - 1][place] == Plan(ops)[i].node.event
  {
    DuePlace(Plan(ops), i);
  }

  lemma DuePlace(all: seq<Entry>, i: nat)
    requires i < |all|
    ensures var t := all[i].due;
            var place := |DueAt(all[..i], t)|;
            place < |DueAt(all, t)| && DueAt(all, t)[place] == all[i].node.event
  {
    var t := all[i].due;
    assert all == all[..i] + ([all[i]] + all[i + 1..]);
    PickConcat(all[..i], [all[i]] + all[i + 1..], IsDue(t));
    PickConcat([all[i]], all[i + 1..], IsDue(t));
    assert [all[i]][..0] == [];
    assert Pick([all[i]], IsDue(t)) == Pick([], IsDue(t)) + [all[i]];
  }

  /** A timer added with delay d fires on exactly the d-th following tick, behind the timers of that tick added before it. */
  lemma FiresOnTheDthTick(ops: seq<Op>, log: seq<seq<Event>>, j: nat)
    requires Allowed(ops) && FiresAsPlanned(ops, log) && j < |ops| && ops[j].AddTimer?
    requires Now(ops[..j]) + ops[j].delay <= Now(ops)
    ensures var t := Now(ops[..j]) + ops[j].delay;
            var place := |DueAt(Plan(ops[..j]), t)|;
            place < |log[t - 1]| && log[t - 1][place] == ops[j].event
  {
    assert ops[..j + 1][..j] == ops[..j];
    PlanGrows(ops, j);
    PlanGrows(ops, j + 1);
    var i := |Plan(ops[..j])|;
    assert Plan(ops[..j + 1])[i] == Plan(ops)[i] && Plan(ops)[..i] == Plan(ops[..j]);
    FiresInPlace(ops, log, i);
  }

  /** The number of timers among `all` due no later than `t`. */
  function DueBy(all: seq<Entry>, t: nat): nat {
    if all == [] then 0 else DueBy(all[..|all| - 1], t) + (if all[|all| - 1].due <= t then 1 else 0)
  }

  /** How many events a log holds. */
  function Fired(log: seq<seq<Event>>): nat {
    if log == [] then 0 else Fired(log[..|log| - 1]) + |log[|log| - 1]|
  }

  lemma {:induction false} PlannedAhead(ops: seq<Op>)
    requires Allowed(ops)
    ensures forall i :: 0 <= i < |Plan(ops)| ==> Plan(ops)[i].due > 0
  {
    if ops != [] { PlannedAhead(ops[..|ops| - 1]); }
  }

  /** Nothing fires twice and nothing is lost: after tick `t` as many events have fired as timers were due by then. */
  lemma {:induction false} FiresOnce(ops: seq<Op>, log: seq<seq<Event>>, t: nat)
    requires Allowed(ops) && FiresAsPlanned(ops, log) && t <= |log|
    ensures Fired(log[..t]) == DueBy(Plan(ops), t)
  {
    if t == 0 {
      PlannedAhead(ops);
      NoneDueBy(Plan(ops));
    } else {
      FiresOnce(ops, log, t - 1);
      OneTickMore(Plan(ops), t);
      assert log[..t][..t - 1] == log[..t - 1];
    }
  }

  lemma {:induction false} NoneDueBy(all: seq<Entry>)
    requires forall i :: 0 <= i < |all| ==> all[i].due > 0
    ensures DueBy(all, 0) == 0
  {
    if all != [] { NoneDueBy(all[..|all| - 1]); }
  }

  lemma {:induction false} OneTickMore(all: seq<Entry>, t: nat)
    requires t > 0
    ensures DueBy(all, t) == DueBy(all, t - 1) + |DueAt(all, t)|
  {
    if all != [] { OneTickMore(all[..|all| - 1], t); }
  }
}
