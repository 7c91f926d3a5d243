/**
 Ring buffers: the stretch of an array that starts at `head` and wraps at the end, as a sequence.
 */
module Rings {

  /** The `n` cells of ring `a` that start at `head`. */
  function Ring<T>(a: seq<T>, head: nat, n: nat): (s: seq<T>)
    requires head < |a| && n <= |a|
    ensures |s| == n
  {
    seq(n, i requires 0 <= i < n => a[(head + i) % |a|])
  }

  /** Indices of a ring wrap at most once. */
  lemma WrapOnce(x: nat, cap: nat)
    requires 0 < cap && x < 2 * cap
    ensures x % cap == if x < cap then x else x - cap
  {
  }

  /** The length kept between `head` and `tail`; they meet only when the ring is empty. */
  function Length(head: nat, tail: nat, cap: nat): nat
    requires head < cap && tail < cap
  {
    if head <= tail then tail - head else tail + cap - head
  }

  /** The new cell lies outside the used stretch, and becomes its end. */
  lemma RingPush<T>(a: seq<T>, head: nat, n: nat, tail: nat, m: T)
    requires head < |a| && n < |a| && tail < |a| && tail == (head + n) % |a|
    ensures Ring(a[tail := m], head, n + 1) == Ring(a, head, n) + [m]
  {
    var b := a[tail := m];
    WrapOnce(head + n, |a|);
    forall i | 0 <= i <= n ensures Ring(b, head, n + 1)[i] == (Ring(a, head, n) + [m])[i] {
      WrapOnce(head + i, |a|);
    }
  }

  lemma RingPop<T>(a: seq<T>, head: nat, n: nat)
    requires head < |a| && 0 < n <= |a|
    ensures Ring(a, head, n)[0] == a[head]
    ensures Ring(a, (head + 1) % |a|, n - 1) == Ring(a, head, n)[1..]
  {
    WrapOnce(head, |a|);
    WrapOnce(head + 1, |a|);
    forall i | 0 <= i < n - 1 ensures Ring(a, (head + 1) % |a|, n - 1)[i] == Ring(a, head, n)[1..][i] {
      WrapOnce(head + 1 + i, |a|);
      WrapOnce((head + 1) % |a| + i, |a|);
    }
  }

  lemma RingFromZero<T>(a: seq<T>, n: nat)
    requires 0 < |a| && n <= |a|
    ensures Ring(a, 0, n) == a[..n]
  {
    forall i | 0 <= i < n ensures Ring(a, 0, n)[i] == a[..n][i] {
      WrapOnce(i, |a|);
    }
  }
}
