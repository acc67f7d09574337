/** Sequence operations shared by the scrapers: the "first element that
    matches" search behind every `for ...: if ...: break` probe, and Python's
    slice `s[start:stop]` with its negative-index rules. */
module Sequences {

  /** Index of the first element of `s` that satisfies `p`, or `|s|` when
      none does. */
  function FindFirst<T>(s: seq<T>, p: T -> bool): (j: nat)
    ensures j <= |s|
    ensures forall i :: 0 <= i < j ==> !p(s[i])
    ensures j < |s| ==> p(s[j])
  {
    if |s| == 0 then 0
    else if p(s[0]) then 0
    else 1 + FindFirst(s[1..], p)
  }

  /** The first index is pinned down by a satisfying element with none
      before it, or by no satisfying element at all. */
  lemma FindFirstIs<T>(s: seq<T>, p: T -> bool, n: nat)
    requires n <= |s| && forall k :: 0 <= k < n ==> !p(s[k])
    requires n < |s| ==> p(s[n])
    ensures FindFirst(s, p) == n
  {
  }

  function Min(a: int, b: int): (m: int) { if a <= b then a else b }
  function Max(a: int, b: int): (m: int) { if a >= b then a else b }

  /** How Python resolves a slice bound against a sequence of length `n`:
      a negative bound counts from the end, and the result is clamped to
      `0..n`. */
  function SliceBound(i: int, n: nat): (b: nat)
    ensures b <= n
    ensures 0 <= i ==> b == Min(i, n)
    ensures i < 0 ==> b == Max(0, n + i)
  {
    if i < 0 then (if n + i < 0 then 0 else n + i) else if i > n then n else i
  }

  /** Python's `s[start:stop]`: the elements from the resolved start up to the
      resolved stop, empty when the stop does not lie after the start. */
  function PySlice<T>(s: seq<T>, start: int, stop: int): (r: seq<T>)
    ensures var a, b := SliceBound(start, |s|), SliceBound(stop, |s|);
      |r| == (if a < b then b - a else 0) && (forall k :: 0 <= k < |r| ==> r[k] == s[a + k])
  {
    var a, b := SliceBound(start, |s|), SliceBound(stop, |s|);
    if a < b then s[a..b] else []
  }

  /** Python's `s[:stop]`: a prefix of `s`. */
  function PyPrefix<T>(s: seq<T>, stop: int): (r: seq<T>)
    ensures r <= s
    ensures 0 <= stop ==> |r| == Min(stop, |s|)
    ensures stop < 0 ==> |r| == Max(0, |s| + stop)
  {
    s[..SliceBound(stop, |s|)]
  }

  /** `f` applied to the elements of `a` and `b` side by side. */
  function Pairwise<A, B, C>(f: (A, B) -> C, a: seq<A>, b: seq<B>): (r: seq<C>)
    requires |a| == |b|
    ensures |r| == |a|
    ensures forall i :: 0 <= i < |r| ==> r[i] == f(a[i], b[i])
  {
    seq(|a|, i requires 0 <= i < |a| => f(a[i], b[i]))
  }

  lemma PairwiseAppend<A, B, C>(f: (A, B) -> C, a: seq<A>, b: seq<B>, c: seq<A>, d: seq<B>)
    requires |a| == |b| && |c| == |d|
    ensures Pairwise(f, a + c, b + d) == Pairwise(f, a, b) + Pairwise(f, c, d)
  {
    var l, r := Pairwise(f, a + c, b + d), Pairwise(f, a, b) + Pairwise(f, c, d);
    forall i | 0 <= i < |l| ensures l[i] == r[i] {
      if i < |a| {
        assert (a + c)[i] == a[i] && (b + d)[i] == b[i];
      } else {
        assert (a + c)[i] == c[i - |a|] && (b + d)[i] == d[i - |a|];
      }
    }
  }

  /** The pieces `f` gives for the elements of `s`, concatenated in order. */
  function FlatMap<T, U>(f: T -> seq<U>, s: seq<T>): seq<U> {
    if |s| == 0 then [] else FlatMap(f, s[..|s| - 1]) + f(s[|s| - 1])
  }

  lemma FlatMapSnoc<T, U>(f: T -> seq<U>, s: seq<T>, x: T)
    ensures FlatMap(f, s + [x]) == FlatMap(f, s) + f(x)
  {
    assert (s + [x])[..|s|] == s;
  }

  lemma FlatMapPrefixStep<T, U>(f: T -> seq<U>, s: seq<T>, i: nat)
    requires i < |s|
    ensures FlatMap(f, s[..i + 1]) == FlatMap(f, s[..i]) + f(s[i])
  {
    assert s[..i + 1][..i] == s[..i];
  }

  /** Two stretches give the pieces of the first, then those of the second. */
  lemma {:induction false} FlatMapAppend<T, U>(f: T -> seq<U>, a: seq<T>, b: seq<T>)
    ensures FlatMap(f, a + b) == FlatMap(f, a) + FlatMap(f, b)
  {
    if |b| == 0 {
      assert a + b == a;
    } else {
      var init, last := b[..|b| - 1], b[|b| - 1];
      FlatMapAppend(f, a, init);
      assert a + b == (a + init) + [last];
      FlatMapSnoc(f, a + init, last);
      FlatMapSnoc(f, init, last);
      assert b == init + [last];
    }
  }

  /** Whatever one element contributes is in the whole. */
  lemma FlatMapMember<T, U>(f: T -> seq<U>, s: seq<T>, i: nat, y: U)
    requires i < |s| && y in f(s[i])
    ensures y in FlatMap(f, s)
  {
    FlatMapSnoc(f, s[..i], s[i]);
    assert s[..i] + [s[i]] == s[..i + 1];
    FlatMapAppend(f, s[..i + 1], s[i + 1..]);
    assert s[..i + 1] + s[i + 1..] == s;
  }

  /** Everything in the whole was contributed by some element. */
  lemma {:induction false} FlatMapSource<T, U>(f: T -> seq<U>, s: seq<T>, y: U)
    requires y in FlatMap(f, s)
    ensures exists i :: 0 <= i < |s| && y in f(s[i])
  {
    var n := |s| - 1;
    if y in FlatMap(f, s[..n]) {
      FlatMapSource(f, s[..n], y);
      var i :| 0 <= i < n && y in f(s[..n][i]);
      assert s[..n][i] == s[i];
    } else {
      assert y in f(s[n]);
    }
  }

  /** Elements that contribute at most one piece each give at most one piece
      per element. */
  lemma {:induction false} FlatMapAtMostOne<T, U>(f: T -> seq<U>, s: seq<T>)
    requires forall x :: x in s ==> |f(x)| <= 1
    ensures |FlatMap(f, s)| <= |s|
  {
    if |s| > 0 {
      var n := |s| - 1;
      assert forall x :: x in s[..n] ==> x in s;
      FlatMapAtMostOne(f, s[..n]);
      assert s[n] in s;
    }
  }

  /** Reading on from `n` elements, one at a time: how many have been read
      when `stop` first holds of those read so far, or all of them. */
  function FirstStop<T>(stop: seq<T> -> bool, s: seq<T>, n: nat): (m: nat)
    requires n <= |s|
    ensures n <= m <= |s|
    decreases |s| - n
  {
    if n == |s| then n
    else if stop(s[..n + 1]) then n + 1
    else FirstStop(stop, s, n + 1)
  }

  /** Reading stops at the same place in a prefix that ends where reading
      would stop anyway (or in the whole). */
  lemma {:induction false} FirstStopOfPrefix<T>(stop: seq<T> -> bool, s: seq<T>, n: nat, k: nat)
    requires k <= n <= |s| && (n == |s| || stop(s[..n]))
    requires k < n || n == |s|
    ensures FirstStop(stop, s, k) == FirstStop(stop, s[..n], k)
    decreases n - k
  {
    if n == |s| {
      assert s[..n] == s;
    } else {
      assert s[..n][..k + 1] == s[..k + 1];
      if !stop(s[..k + 1]) {
        FirstStopOfPrefix(stop, s, n, k + 1);
      }
    }
  }
}
