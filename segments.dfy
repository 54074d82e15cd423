/*
 * Sequence facts behind `lua_rotate`: a segment is rotated by reversing its
 * prefix, reversing its suffix and reversing the whole.
 */
module Segments {

  /* The segment in reverse order. */
  function Reversed<T>(s: seq<T>): (r: seq<T>)
    ensures |r| == |s|
    ensures forall i :: 0 <= i < |s| ==> r[i] == s[|s| - 1 - i]
  {
    if s == [] then [] else [s[|s| - 1]] + Reversed(s[..|s| - 1])
  }

  /*
   * The segment rotated by `n` positions toward its end: with `n >= 0` the
   * last `n` values come first, with `n < 0` the first `-n` values go last.
   */
  function Rotated<T>(s: seq<T>, n: int): (r: seq<T>)
    requires -|s| <= n <= |s|
    ensures |r| == |s|
  {
    var j := if n >= 0 then |s| - n else -n;
    s[j..] + s[..j]
  }

  lemma ReversedConcat<T>(a: seq<T>, b: seq<T>)
    ensures Reversed(a + b) == Reversed(b) + Reversed(a)
  {
    var l, r := Reversed(a + b), Reversed(b) + Reversed(a);
    forall i | 0 <= i < |l|
      ensures l[i] == r[i]
    {
      if i < |b| {
        assert r[i] == b[|b| - 1 - i];
      } else {
        assert r[i] == Reversed(a)[i - |b|];
      }
    }
  }

  lemma ReversedTwice<T>(s: seq<T>)
    ensures Reversed(Reversed(s)) == s
  {
  }

  /* Reversing prefix and suffix, then the whole, swaps prefix and suffix. */
  lemma ThreeReversals<T>(s: seq<T>, j: nat)
    requires j <= |s|
    ensures Reversed(Reversed(s[..j]) + Reversed(s[j..])) == s[j..] + s[..j]
  {
    ReversedConcat(Reversed(s[..j]), Reversed(s[j..]));
    ReversedTwice(s[..j]);
    ReversedTwice(s[j..]);
  }

  /* Position `i + n` of a segment of length `len`, wrapped around its ends. */
  function Wrap(i: int, n: int, len: int): int {
    if i + n >= len then i + n - len else if i + n < 0 then i + n + len else i + n
  }

  /* Every value moves `n` places toward the end of the segment, wrapping around. */
  lemma RotatedMoves<T>(s: seq<T>, n: int, i: int)
    requires -|s| <= n <= |s| && 0 <= i < |s|
    ensures 0 <= Wrap(i, n, |s|) < |s|
    ensures Rotated(s, n)[Wrap(i, n, |s|)] == s[i]
  {
    var j := if n >= 0 then |s| - n else -n;
    if i < j {
      assert Wrap(i, n, |s|) == i + |s| - j;
    } else {
      assert Wrap(i, n, |s|) == i - j;
    }
  }

  /* Rotating by 0 changes nothing. */
  lemma RotatedZero<T>(s: seq<T>)
    ensures Rotated(s, 0) == s
  {
    assert s[|s|..] == [];
  }

  /* Rotating by `n` and then by `-n` restores the segment. */
  lemma RotatedInverse<T>(s: seq<T>, n: int)
    requires -|s| <= n <= |s|
    ensures Rotated(Rotated(s, n), -n) == s
  {
    var j := if n >= 0 then |s| - n else -n;
    var r := Rotated(s, n);
    assert r == s[j..] + s[..j];
    if n > 0 {
      assert Rotated(r, -n) == r[n..] + r[..n];
      assert r[n..] == s[..j];
      assert r[..n] == s[j..];
    } else if n == 0 {
      assert s[|s|..] == [] && s[..|s|] == s;
      assert r[|r|..] == [] && r[..|r|] == r;
    } else {
      assert Rotated(r, -n) == r[|s| + n..] + r[..|s| + n];
      assert r[|s| + n..] == s[..j];
      assert r[..|s| + n] == s[j..];
    }
  }

  /*
   * The sequence with its segment from `from` to `to` (both included)
   * reversed, one exchange of the two ends at a time.
   */
  function ReverseRange<T>(s: seq<T>, from: int, to: int): (r: seq<T>)
    requires 0 <= from <= to + 1 <= |s|
    ensures |r| == |s|
    decreases 1 + to - from
  {
    if from < to then ReverseRange(s[from := s[to]][to := s[from]], from + 1, to - 1) else s
  }

  /* The value that reversing `[from, to]` brings to slot `k`. */
  function Mirrored<T>(s: seq<T>, from: int, to: int, k: int): T
    requires 0 <= from <= to + 1 <= |s| && 0 <= k < |s|
  {
    if from <= k <= to then s[from + to - k] else s[k]
  }

  /* Slot `k` of the reversed range holds the value mirrored across the range. */
  lemma {:induction false} ReverseRangeAt<T>(s: seq<T>, from: int, to: int, k: int)
    requires 0 <= from <= to + 1 <= |s| && 0 <= k < |s|
    ensures ReverseRange(s, from, to)[k] == Mirrored(s, from, to, k)
    decreases 1 + to - from
  {
    if from < to {
      ReverseRangeAt(s[from := s[to]][to := s[from]], from + 1, to - 1, k);
    }
  }

  /* Reversing a range keeps what lies outside it and reverses the slice inside. */
  lemma ReverseRangeSlices<T>(s: seq<T>, from: int, to: int)
    requires 0 <= from <= to + 1 <= |s|
    ensures ReverseRange(s, from, to) == s[..from] + Reversed(s[from..to + 1]) + s[to + 1..]
  {
    var r, q := ReverseRange(s, from, to), s[..from] + Reversed(s[from..to + 1]) + s[to + 1..];
    forall k | 0 <= k < |s|
      ensures r[k] == q[k]
    {
      ReverseRangeAt(s, from, to, k);
      if k < from {
      } else if k <= to {
        assert q[k] == Reversed(s[from..to + 1])[k - from];
      } else {
        assert q[k] == s[to + 1..][k - (to + 1)];
      }
    }
  }

  /*
   * Reversing `[p, m]`, then `[m + 1, t]`, then `[p, t]` swaps the two parts
   * of the segment and leaves everything outside it in place.
   */
  lemma RotateByReversals<T>(s: seq<T>, s1: seq<T>, s2: seq<T>, s3: seq<T>, p: int, m: int, t: int)
    requires 0 <= p <= m + 1 <= t + 1 <= |s|
    requires s1 == ReverseRange(s, p, m) && s2 == ReverseRange(s1, m + 1, t) && s3 == ReverseRange(s2, p, t)
    ensures s3 == s[..p] + (s[m + 1..t + 1] + s[p..m + 1]) + s[t + 1..]
  {
    var q := s[..p] + (s[m + 1..t + 1] + s[p..m + 1]) + s[t + 1..];
    forall k | 0 <= k < |s|
      ensures s3[k] == q[k]
    {
      ThreeReversalsAt(s, s1, s2, s3, p, m, t, k);
      SwappedAt(s, p, m, t, k);
    }
  }

  /* Where each value lands after the three reversals. */
  lemma ThreeReversalsAt<T>(s: seq<T>, s1: seq<T>, s2: seq<T>, s3: seq<T>, p: int, m: int, t: int, k: int)
    requires 0 <= p <= m + 1 <= t + 1 <= |s| && 0 <= k < |s|
    requires s1 == ReverseRange(s, p, m) && s2 == ReverseRange(s1, m + 1, t) && s3 == ReverseRange(s2, p, t)
    ensures s3[k] == if k < p || t < k then s[k] else if k < p + t - m then s[k + (m + 1 - p)] else s[k - (t - m)]
  {
    ReverseRangeAt(s2, p, t, k);
    var j := if p <= k <= t then p + t - k else k;
    ReverseRangeAt(s1, m + 1, t, j);
    var i := if m + 1 <= j <= t then m + 1 + t - j else j;
    ReverseRangeAt(s, p, m, i);
  }

  /* Indexing the swapped sequence, part by part. */
  lemma SwappedAt<T>(s: seq<T>, p: int, m: int, t: int, k: int)
    requires 0 <= p <= m + 1 <= t + 1 <= |s| && 0 <= k < |s|
    ensures (s[..p] + (s[m + 1..t + 1] + s[p..m + 1]) + s[t + 1..])[k]
            == if k < p || t < k then s[k] else if k < p + t - m then s[k + (m + 1 - p)] else s[k - (t - m)]
  {
  }

  /*
   * The three reversals of `[p, m]`, `[m + 1, t]` and `[p, t]` rotate the
   * segment `[p, t]` by `n` when `m` splits it at the rotation point.
   */
  lemma RotateSteps<T>(s0: seq<T>, s1: seq<T>, s2: seq<T>, s3: seq<T>, p: int, m: int, t: int, n: int)
    requires 0 <= p <= t + 1 <= |s0| && -(t + 1 - p) <= n <= t + 1 - p
    requires m == if n >= 0 then t - n else p - n - 1
    requires s1 == ReverseRange(s0, p, m) && s2 == ReverseRange(s1, m + 1, t) && s3 == ReverseRange(s2, p, t)
    ensures s3 == s0[..p] + Rotated(s0[p..t + 1], n) + s0[t + 1..]
  {
    RotateByReversals(s0, s1, s2, s3, p, m, t);
    RotatedAtSplit(s0, p, m, t, n);
  }

  /* Rotating the slice `[p, t]` by `n` puts its part after `m` first. */
  lemma RotatedAtSplit<T>(s: seq<T>, p: int, m: int, t: int, n: int)
    requires 0 <= p <= t + 1 <= |s| && -(t + 1 - p) <= n <= t + 1 - p
    requires m == if n >= 0 then t - n else p - n - 1
    ensures Rotated(s[p..t + 1], n) == s[m + 1..t + 1] + s[p..m + 1]
  {
    SplitSegment(s, p, m, t);
  }

  /* Splitting a slice at `m + 1` gives the two slices of the whole sequence. */
  lemma SplitSegment<T>(s: seq<T>, p: int, m: int, t: int)
    requires 0 <= p <= m + 1 <= t + 1 <= |s|
    ensures s[p..t + 1][m + 1 - p..] == s[m + 1..t + 1]
    ensures s[p..t + 1][..m + 1 - p] == s[p..m + 1]
  {
    var seg := s[p..t + 1];
    assert forall k :: 0 <= k < |seg| ==> seg[k] == s[p + k];
  }
}
