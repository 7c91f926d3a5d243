/**
 The substring search of game_room/client/select.h: a table of borders, and a scan that never goes back in the text.
 */
module Kmp {

  /** A prefix of w of length k that is also its suffix, and not all of w. */
  predicate Border(w: string, k: nat) {
    k < |w| && w[..k] == w[|w| - k..]
  }

  ghost predicate Longest(w: string, k: int) {
    0 <= k && Border(w, k) && forall j: nat :: Border(w, j) ==> j <= k
  }

  /** A border of a border is a border, and a shorter border lies within a longer one. */
  lemma BorderWithin(w: string, k: nat, j: nat)
    requires Border(w, k) && j < k
    ensures Border(w, j) <==> Border(w[..k], j)
  {
    assert w[|w| - j..] == w[|w| - k..][k - j..];
    assert w[..k][..j] == w[..j];
  }

  /** Borders grow by one letter at a time. */
  lemma BorderGrows(w: string, pos: nat, j: nat)
    requires 1 <= pos < |w| && j < pos
    ensures Border(w[..pos + 1], j + 1) <==> Border(w[..pos], j) && w[j] == w[pos]
  {
    var u, v := w[..pos], w[..pos + 1];
    assert v[..j + 1] == u[..j] + [w[j]];
    assert v[pos - j..] == u[pos - j..] + [w[pos]];
    assert v[..j + 1][..j] == u[..j] && v[pos - j..][..j] == u[pos - j..];
    assert v[..j + 1][j] == w[j] && v[pos - j..][j] == w[pos];
  }

  lemma EmptyBorder(w: string)
    requires w != []
    ensures Border(w, 0)
  {
  }

  /** The candidate cannot be beaten: any border of w[..pos + 1] comes from a border of w[..pos] of at most `cnd`. */
  ghost predicate Candidate(w: string, pos: nat, cnd: nat)
    requires pos < |w|
  {
    Border(w[..pos], cnd) && forall j: nat :: cnd < j && Border(w[..pos], j) ==> w[j] != w[pos]
  }

  lemma CandidateFits(w: string, pos: nat, cnd: nat)
    requires 1 <= pos < |w| && Candidate(w, pos, cnd) && w[cnd] == w[pos]
    ensures Longest(w[..pos + 1], cnd + 1)
  {
    BorderGrows(w, pos, cnd);
    var v := w[..pos + 1];
    forall j: nat | Border(v, j)
      ensures j <= cnd + 1
    {
      if j > 0 { BorderGrows(w, pos, j - 1); }
    }
  }

  lemma CandidateFallsBack(w: string, pos: nat, cnd: nat, next: nat)
    requires 1 <= pos < |w| && Candidate(w, pos, cnd) && w[cnd] != w[pos] && 0 < cnd && Longest(w[..cnd], next)
    ensures Candidate(w, pos, next)
  {
    assert w[..pos][..cnd] == w[..cnd];
    BorderWithin(w[..pos], cnd, next);
    forall j: nat | next < j && Border(w[..pos], j)
      ensures w[j] != w[pos]
    {
      if j < cnd {
        BorderWithin(w[..pos], cnd, j);
      }
    }
  }

  lemma NoCandidate(w: string, pos: nat)
    requires 1 <= pos < |w| && Candidate(w, pos, 0) && w[0] != w[pos]
    ensures Longest(w[..pos + 1], 0)
  {
    var v := w[..pos + 1];
    EmptyBorder(v);
    forall j: nat | Border(v, j)
      ensures j == 0
    {
      if j > 0 { BorderGrows(w, pos, j - 1); }
    }
  }

  lemma LongestIsCandidate(w: string, pos: nat, cnd: nat)
    requires pos < |w| && Longest(w[..pos], cnd)
    ensures Candidate(w, pos, cnd)
  {
  }

  /** The first `n` entries are done: each is the longest border of its prefix, that of the empty prefix is -1. */
  ghost predicate Rows(w: string, t: seq<int>, n: nat) {
    0 < n <= |t| == |w| && t[0] == -1 && forall k :: 0 < k < n ==> Longest(w[..k], t[k])
  }

  ghost predicate Table(w: string, t: seq<int>) { Rows(w, t, |w|) }

  lemma RowsMore(w: string, t: seq<int>, n: nat, v: nat)
    requires Rows(w, t, n) && n < |t| && Longest(w[..n], v)
    ensures Rows(w, t[n := v], n + 1)
    ensures n < |w| ==> Candidate(w, n, v)
  {
    LongestIsCandidate(w, n, v);
  }

  lemma FirstRows(w: string, t: seq<int>)
    requires 2 <= |w| == |t| && t[0] == -1 && t[1] == 0
    ensures Rows(w, t, 2) && Candidate(w, 1, 0)
  {
    EmptyBorder(w[..1]);
    assert Longest(w[..1], 0);
    LongestIsCandidate(w, 1, 0);
  }

  /** string_table. */
  method StringTable(w: string, table: array<int>)
    requires 2 <= |w| == table.Length
    modifies table
    ensures Table(w, table[..])
  {
    var pos: nat, cnd: nat := 2, 0;
    table[0] := -1;
    table[1] := 0;
    FirstRows(w, table[..]);
    while pos < |w|
      invariant 2 <= pos <= |w| && Rows(w, table[..], pos)
      invariant Candidate(w, pos - 1, cnd)
      decreases 2 * (|w| - pos) + cnd
    {
      ghost var t := table[..];
      if w[pos - 1] == w[cnd] {
        CandidateFits(w, pos - 1, cnd);
        cnd := cnd + 1;
        RowsMore(w, t, pos, cnd);
        table[pos] := cnd;
        assert table[..] == t[pos := cnd];
        pos := pos + 1;
      } else if cnd > 0 {
        assert Longest(w[..cnd], t[cnd]);
        CandidateFallsBack(w, pos - 1, cnd, table[cnd]);
        cnd := table[cnd];
      } else {
        NoCandidate(w, pos - 1);
        RowsMore(w, t, pos, 0);
        table[pos] := 0;
        assert table[..] == t[pos := 0];
        pos := pos + 1;
      }
    }
  }

  // ----- the search

  predicate OccursAt(text: string, pattern: string, q: nat) {
    q + |pattern| <= |text| && text[q..q + |pattern|] == pattern
  }

  ghost predicate FirstOccurrence(text: string, pattern: string, r: int) {
    if r < 0 then r == -1 && forall q: nat :: !OccursAt(text, pattern, q)
    else OccursAt(text, pattern, r) && forall q: nat :: q < r ==> !OccursAt(text, pattern, q)
  }

  lemma OccurrenceMatches(text: string, pattern: string, q: nat, i: nat)
    requires OccursAt(text, pattern, q) && i < |pattern|
    ensures text[q + i] == pattern[i]
  {
    assert text[q..q + |pattern|][i] == text[q + i];
  }

  /** An occurrence that overlaps a partial match shows a border of the matched part. */
  lemma OccurrenceIsBorder(text: string, pattern: string, m: nat, i: nat, q: nat)
    requires i < |pattern| && m + i <= |text| && text[m..m + i] == pattern[..i]
    requires OccursAt(text, pattern, q) && m < q <= m + i
    ensures Border(pattern[..i], i - (q - m))
  {
    var d, w := q - m, pattern[..i];
    assert w[..i - d] == text[q..q + |pattern|][..i - d] == text[q..m + i];
    assert w[d..] == text[m..m + i][d..] == text[q..m + i];
  }

  /** Between the place that failed and the next one the table allows, the pattern cannot occur. */
  lemma SkipsNothing(text: string, pattern: string, m: nat, i: nat, b: nat, q: nat)
    requires 0 < i < |pattern| && m + i < |text| && text[m..m + i] == pattern[..i] && pattern[i] != text[m + i]
    requires Longest(pattern[..i], b) && m <= q < m + i - b
    ensures !OccursAt(text, pattern, q)
  {
    if OccursAt(text, pattern, q) {
      if q == m {
        OccurrenceMatches(text, pattern, q, i);
      } else {
        OccurrenceIsBorder(text, pattern, m, i, q);
      }
    }
  }

  /** After a failure behind a partial match the table's shift keeps what is known and misses nothing. */
  lemma Shift(text: string, pattern: string, m: nat, i: nat, b: nat)
    requires 0 < i < |pattern| && m + i < |text| && text[m..m + i] == pattern[..i] && pattern[i] != text[m + i]
    requires Longest(pattern[..i], b)
    ensures b < i && text[m + i - b..m + i] == pattern[..b]
    ensures forall q: nat :: m <= q < m + i - b ==> !OccursAt(text, pattern, q)
  {
    assert text[m + i - b..m + i] == text[m..m + i][i - b..] == pattern[..i][i - b..];
    assert pattern[..b] == pattern[..i][..b];
    forall q: nat | m <= q < m + i - b
      ensures !OccursAt(text, pattern, q)
    {
      SkipsNothing(text, pattern, m, i, b, q);
    }
  }

  lemma MatchGrows(text: string, pattern: string, m: nat, i: nat)
    requires i < |pattern| && m + i < |text| && text[m..m + i] == pattern[..i] && pattern[i] == text[m + i]
    ensures text[m..m + i + 1] == pattern[..i + 1]
  {
    assert text[m..m + i + 1] == text[m..m + i] + [text[m + i]] == pattern[..i] + [pattern[i]] == pattern[..i + 1];
  }

  /** What -1 means for the inputs string_search does not look at: an empty pattern occurs everywhere. */
  lemma ShortInputs(text: string, pattern: string)
    requires |text| < 2 || |pattern| < 2
    ensures FirstOccurrence(text, pattern, -1) <==> |pattern| >= 2 || (|pattern| == 1 && pattern[0] !in text)
  {
    if pattern == [] {
      assert OccursAt(text, pattern, 0);
    } else if |pattern| == 1 {
      if pattern[0] in text {
        var q :| 0 <= q < |text| && text[q] == pattern[0];
        assert OccursAt(text, pattern, q);
      } else {
        forall q: nat
          ensures !OccursAt(text, pattern, q)
        {
          if OccursAt(text, pattern, q) { OccurrenceMatches(text, pattern, q, 0); }
        }
      }
    }
  }

  /** So a pattern of one letter is not found where it stands, and an empty one nowhere. */
  lemma ShortPatternsMissed()
    ensures OccursAt("ab", "b", 1) && !FirstOccurrence("ab", "b", -1)
    ensures OccursAt("ab", "", 0) && !FirstOccurrence("ab", "", -1)
  {
    assert "ab"[1..2] == "b" && "ab"[0..0] == "";
    ShortInputs("ab", "b");
    ShortInputs("ab", "");
    assert "b"[0] == "ab"[1];
  }

  /** string_search. */
  method StringSearch(text: string, pattern: string) returns (r: int)
    ensures |text| < 2 || |pattern| < 2 ==> r == -1
    ensures FirstOccurrence(text, pattern, r) <==> |pattern| >= 2 || (|pattern| == 1 && pattern[0] !in text)
  {
    if |text| < 2 || |pattern| < 2 {
      ShortInputs(text, pattern);
      return -1;
    }
    var m, i: int := 0, 0;
    var table := new int[|pattern|];
    StringTable(pattern, table);
    while m + i < |text|
      invariant 0 <= m && 0 <= i < |pattern| && m + i <= |text| && text[m..m + i] == pattern[..i]
      invariant Table(pattern, table[..])
      invariant forall q: nat :: q < m ==> !OccursAt(text, pattern, q)
      decreases 2 * |text| - 2 * m - i
    {
      if pattern[i] == text[m + i] {
        MatchGrows(text, pattern, m, i);
        if i == |pattern| - 1 {
          return m;
        }
        i := i + 1;
      } else {
        var b := table[i];
        assert b == table[..][i];
        if i == 0 {
          if OccursAt(text, pattern, m) { OccurrenceMatches(text, pattern, m, 0); }
        } else {
          assert Longest(pattern[..i], b);
          Shift(text, pattern, m, i, b);
        }
        m := m + i - b;
        if b > -1 {
          i := b;
        } else {
          i := 0;
        }
      }
    }
    return -1;
  }
}
