/**
 The bottom-up merge sort of app/mergesort/hls/mergesort.cpp, for a scratch array of any power-of-two
 size.
 */
module MergeSort {

  import opened Shifts

  ghost predicate Sorted(s: seq<nat>)
  {
    forall i, j :: 0 <= i < j < |s| ==> s[i] <= s[j]
  }

  /** The merge of two sequences; the left one wins ties. */
  ghost function Merged(a: seq<nat>, b: seq<nat>): seq<nat>
    decreases |a| + |b|
  {
    if a == [] then b
    else if b == [] then a
    else if a[0] <= b[0] then [a[0]] + Merged(a[1..], b)
    else [b[0]] + Merged(a, b[1..])
  }

  lemma {:induction false} MergedPermutes(a: seq<nat>, b: seq<nat>)
    ensures |Merged(a, b)| == |a| + |b| && multiset(Merged(a, b)) == multiset(a) + multiset(b)
    decreases |a| + |b|
  {
    if a != [] && b != [] {
      assert a == [a[0]] + a[1..] && b == [b[0]] + b[1..];
      if a[0] <= b[0] { MergedPermutes(a[1..], b); } else { MergedPermutes(a, b[1..]); }
    }
  }

  ghost predicate AtLeast(s: seq<nat>, x: nat)
  {
    forall i :: 0 <= i < |s| ==> x <= s[i]
  }

  lemma {:induction false} MergedAtLeast(a: seq<nat>, b: seq<nat>, x: nat)
    requires AtLeast(a, x) && AtLeast(b, x)
    ensures AtLeast(Merged(a, b), x)
    decreases |a| + |b|
  {
    if a != [] && b != [] {
      if a[0] <= b[0] { MergedAtLeast(a[1..], b, x); } else { MergedAtLeast(a, b[1..], x); }
    }
  }

  lemma {:induction false} MergedSorted(a: seq<nat>, b: seq<nat>)
    requires Sorted(a) && Sorted(b)
    ensures Sorted(Merged(a, b))
    decreases |a| + |b|
  {
    if a != [] && b != [] {
      if a[0] <= b[0] {
        MergedSorted(a[1..], b);
        MergedAtLeast(a[1..], b, a[0]);
      } else {
        MergedSorted(a, b[1..]);
        MergedAtLeast(a, b[1..], b[0]);
      }
    }
  }

  // ---------- one pass

  /** `n` sorted runs of width `w`, one after another. */
  ghost predicate Runs(s: seq<nat>, w: nat, n: nat)
  {
    if n == 0 then s == [] else |s| >= w && Sorted(s[..w]) && Runs(s[w..], w, n - 1)
  }

  /** `s` with `n` neighbouring pairs of runs of width `w` merged. */
  ghost function Pass(s: seq<nat>, w: nat, n: nat): seq<nat>
    decreases n
  {
    if n == 0 || |s| < 2 * w then s
    else Merged(s[..w], s[w..2 * w]) + Pass(s[2 * w..], w, n - 1)
  }

  lemma {:induction false} SingleRuns(s: seq<nat>)
    ensures Runs(s, 1, |s|)
  {
    if s != [] { SingleRuns(s[1..]); }
  }

  lemma {:induction false} TwoRuns(s: seq<nat>, w: nat, n: nat)
    requires n > 0 && Runs(s, w, 2 * n)
    ensures 2 * w <= |s| && Sorted(s[..w]) && Sorted(s[w..2 * w]) && Runs(s[2 * w..], w, 2 * (n - 1))
  {
    var t := s[w..];
    assert t[..w] == s[w..2 * w] && t[w..] == s[2 * w..];
  }

  /** A pass halves the number of runs, doubles their width, and permutes. */
  lemma {:induction false} PassDoubles(s: seq<nat>, w: nat, n: nat)
    requires Runs(s, w, 2 * n)
    ensures Runs(Pass(s, w, n), 2 * w, n) && |Pass(s, w, n)| == |s|
    ensures multiset(Pass(s, w, n)) == multiset(s)
  {
    hide Sorted, Merged;
    if n > 0 {
      TwoRuns(s, w, n);
      var a, b, rest := s[..w], s[w..2 * w], s[2 * w..];
      MergedPermutes(a, b);
      MergedSorted(a, b);
      PassDoubles(rest, w, n - 1);
      var p := Pass(s, w, n);
      assert p[..2 * w] == Merged(a, b) && p[2 * w..] == Pass(rest, w, n - 1);
      assert s == a + b + rest;
    }
  }

  // ---------- the methods

  /** `merge`: the two neighbouring halves of scratch[l..r + 1], through the two buffers. */
  method Merge(scratch: array<nat>, l: nat, m: nat, r: nat, left: array<nat>, right: array<nat>)
    requires l <= m < r < scratch.Length && r - m == m - l + 1
    requires m - l + 1 <= left.Length && m - l + 1 <= right.Length
    requires scratch != left && scratch != right && left != right
    modifies scratch, left, right
    ensures scratch[..] == MergedIn(old(scratch[..]), l, m, r)
  {
    hide Halfway, MergedIn, Merged;
    ghost var before := scratch[..];
    ghost var a, b := before[l..m + 1], before[m + 1..r + 1];
    var n := m - l + 1;
    FillLists(scratch, l, m, left, right);
    var i, j, k := 0, 0, 0;
    HalfwayStart(before, l, m, r);
    while i < n && j < n
      invariant 0 <= i <= n && 0 <= j <= n && k == i + j
      invariant Halfway(scratch[..], before, l, r, a, b, i, j)
      modifies scratch
    {
      assert left[i] == a[i] && right[j] == b[j];
      HalfwayStep(scratch[..], before, l, r, a, b, i, j);
      if left[i] <= right[j] {
        scratch[l + k] := left[i];
        i := i + 1;
      } else {
        scratch[l + k] := right[j];
        j := j + 1;
      }
      k := k + 1;
    }
    while i < n
      invariant 0 <= i <= n && 0 <= j <= n && k == i + j && (i < n ==> j == n)
      invariant Halfway(scratch[..], before, l, r, a, b, i, j)
      modifies scratch
    {
      ghost var now := scratch[..];
      assert left[i] == a[i];
      HalfwayStep(now, before, l, r, a, b, i, j);
      scratch[l + k] := left[i];
      assert scratch[..] == now[l + k := a[i]];
      i, k := i + 1, k + 1;
    }
    while j < n
      invariant i == n && 0 <= j <= n && k == i + j
      invariant Halfway(scratch[..], before, l, r, a, b, i, j)
      modifies scratch
    {
      ghost var now := scratch[..];
      assert right[j] == b[j];
      HalfwayStep(now, before, l, r, a, b, i, j);
      scratch[l + k] := right[j];
      assert scratch[..] == now[l + k := b[j]];
      j, k := j + 1, k + 1;
    }
    HalfwayEnd(scratch[..], before, l, m, r);
  }

  /** The first loop of `merge`. */
  method FillLists(scratch: array<nat>, l: nat, m: nat, left: array<nat>, right: array<nat>)
    requires l <= m && 2 * m - l + 1 < scratch.Length
    requires m - l + 1 <= left.Length && m - l + 1 <= right.Length
    requires scratch != left && scratch != right && left != right
    modifies left, right
    ensures left[..m - l + 1] == scratch[l..m + 1] && right[..m - l + 1] == scratch[m + 1..2 * m - l + 2]
  {
    for i := 0 to m - l + 1
      invariant forall k :: 0 <= k < i ==> left[k] == scratch[l + k] && right[k] == scratch[m + 1 + k]
    {
      left[i] := scratch[l + i];
      right[i] := scratch[m + 1 + i];
    }
  }

  ghost function MergedIn(s: seq<nat>, l: nat, m: nat, r: nat): seq<nat>
    requires l <= m < r < |s|
  {
    s[..l] + Merged(s[l..m + 1], s[m + 1..r + 1]) + s[r + 1..]
  }

  /** The first i + j elements of the merge are in place, the rest is what a[i..] and b[j..] give, all else is as before. */
  ghost predicate Halfway(s: seq<nat>, before: seq<nat>, l: nat, r: nat, a: seq<nat>, b: seq<nat>, i: nat, j: nat)
  {
    && l <= r < |s| == |before| && i <= |a| && j <= |b| && |a| + |b| == r + 1 - l
    && s[..l] == before[..l] && s[r + 1..] == before[r + 1..]
    && s[l..l + i + j] + Merged(a[i..], b[j..]) == Merged(a, b)
  }

  lemma HalfwayStart(s: seq<nat>, l: nat, m: nat, r: nat)
    requires l <= m < r < |s|
    ensures Halfway(s, s, l, r, s[l..m + 1], s[m + 1..r + 1], 0, 0)
  {
    hide Merged;
    var a, b := s[l..m + 1], s[m + 1..r + 1];
    assert a[0..] == a && b[0..] == b;
  }

  lemma HalfwayStep(s: seq<nat>, before: seq<nat>, l: nat, r: nat, a: seq<nat>, b: seq<nat>, i: nat, j: nat)
    requires Halfway(s, before, l, r, a, b, i, j) && i + j < |a| + |b|
    ensures l + i + j < |s|
    ensures i < |a| && (j < |b| ==> a[i] <= b[j]) ==> Halfway(s[l + i + j := a[i]], before, l, r, a, b, i + 1, j)
    ensures j < |b| && (i < |a| ==> a[i] > b[j]) ==> Halfway(s[l + i + j := b[j]], before, l, r, a, b, i, j + 1)
  {
    hide Merged;
    if i < |a| && (j < |b| ==> a[i] <= b[j]) {
      TakeLeft(a, b, i, j);
      Shifted(s, l, i + j, a[i], Merged(a[i + 1..], b[j..]));
    } else {
      TakeRight(a, b, i, j);
      Shifted(s, l, i + j, b[j], Merged(a[i..], b[j + 1..]));
    }
  }

  lemma TakeLeft(a: seq<nat>, b: seq<nat>, i: nat, j: nat)
    requires i < |a| && j <= |b| && (j < |b| ==> a[i] <= b[j])
    ensures Merged(a[i..], b[j..]) == [a[i]] + Merged(a[i + 1..], b[j..])
  {
    assert a[i..] == [a[i]] + a[i + 1..];
    MergedNothing(a[i + 1..]);
  }

  lemma TakeRight(a: seq<nat>, b: seq<nat>, i: nat, j: nat)
    requires i <= |a| && j < |b| && (i < |a| ==> a[i] > b[j])
    ensures Merged(a[i..], b[j..]) == [b[j]] + Merged(a[i..], b[j + 1..])
  {
    assert b[j..] == [b[j]] + b[j + 1..];
    MergedNothing(b[j + 1..]);
  }

  lemma {:induction false} MergedNothing(a: seq<nat>)
    ensures Merged(a, []) == a && Merged([], a) == a
  {
  }

  lemma Shifted(s: seq<nat>, l: nat, k: nat, x: nat, rest: seq<nat>)
    requires l + k < |s|
    ensures var t := s[l + k := x];
      && t[l..l + k + 1] + rest == s[l..l + k] + ([x] + rest)
      && t[..l] == s[..l]
      && forall e :: l + k < e <= |s| ==> t[e..] == s[e..]
  {
    var t := s[l + k := x];
    assert t[l..l + k + 1] == s[l..l + k] + [x];
  }

  lemma HalfwayEnd(s: seq<nat>, before: seq<nat>, l: nat, m: nat, r: nat)
    requires l <= m < r < |before|
    requires Halfway(s, before, l, r, before[l..m + 1], before[m + 1..r + 1], m + 1 - l, r - m)
    ensures s == MergedIn(before, l, m, r)
  {
    var a, b := before[l..m + 1], before[m + 1..r + 1];
    assert a[|a|..] == [] && b[|b|..] == [];
    assert s[l..r + 1] + [] == s[l..r + 1];
    assert s == s[..l] + s[l..r + 1] + s[r + 1..];
  }

  /** The inner loop over `l`. */
  method MergePass(scratch: array<nat>, subsize: nat, ghost pairs: nat, left: array<nat>, right: array<nat>)
    requires subsize >= 1 && Runs(scratch[..], subsize, 2 * pairs)
    requires subsize <= left.Length && subsize <= right.Length
    requires scratch != left && scratch != right && left != right
    modifies scratch, left, right
    ensures scratch[..] == Pass(old(scratch[..]), subsize, pairs)
  {
    hide Passed, Runs, Pass, MergedIn;
    ghost var before, d := scratch[..], pairs;
    var l := 0;
    PassedStart(before, subsize, pairs);
    while l < scratch.Length - 1
      invariant 0 <= l <= scratch.Length && Passed(scratch[..], before, subsize, pairs, l, d)
      decreases scratch.Length - l
    {
      PassedStep(scratch[..], before, subsize, pairs, l, d);
      var mid, r := l + subsize - 1, l + 2 * subsize - 1;
      Merge(scratch, l, mid, r, left, right);
      l, d := l + 2 * subsize, d - 1;
    }
    PassedEnd(scratch[..], before, subsize, pairs, l, d);
  }

  /** The pass is made up to `l`, with `d` pairs of runs to go. */
  ghost predicate Passed(s: seq<nat>, before: seq<nat>, w: nat, pairs: nat, l: nat, d: nat)
  {
    && l <= |s| == |before| && s[l..] == before[l..] && Runs(before[l..], w, 2 * d)
    && s[..l] + Pass(before[l..], w, d) == Pass(before, w, pairs)
  }

  lemma {:induction false} PassedStart(s: seq<nat>, w: nat, pairs: nat)
    requires Runs(s, w, 2 * pairs)
    ensures Passed(s, s, w, pairs, 0, pairs)
  {
    assert s[0..] == s;
  }

  lemma PassedStep(s: seq<nat>, before: seq<nat>, w: nat, pairs: nat, l: nat, d: nat)
    requires w >= 1 && l < |s| && Passed(s, before, w, pairs, l, d)
    ensures d > 0 && l + 2 * w <= |s|
    ensures Passed(MergedIn(s, l, l + w - 1, l + 2 * w - 1), before, w, pairs, l + 2 * w, d - 1)
  {
    hide Merged;
    var rest := before[l..];
    assert d > 0;
    TwoRuns(rest, w, d);
    var both := Merged(rest[..w], rest[w..2 * w]);
    MergedPermutes(rest[..w], rest[w..2 * w]);
    assert s[l..l + w] == rest[..w] && s[l + w..l + 2 * w] == rest[w..2 * w];
    var t := MergedIn(s, l, l + w - 1, l + 2 * w - 1);
    assert s[l + 2 * w..] == rest[2 * w..] == before[l + 2 * w..];
    assert t[..l + 2 * w] == s[..l] + both && t[l + 2 * w..] == s[l + 2 * w..];
    Regrouped(s[..l], both, Pass(rest[2 * w..], w, d - 1));
  }

  lemma Regrouped(a: seq<nat>, b: seq<nat>, c: seq<nat>)
    ensures a + (b + c) == a + b + c
  {
  }

  lemma {:induction false} PassedEnd(s: seq<nat>, before: seq<nat>, w: nat, pairs: nat, l: nat, d: nat)
    requires w >= 1 && |s| - 1 <= l && Passed(s, before, w, pairs, l, d)
    ensures s == Pass(before, w, pairs)
  {
    if d > 0 {
      TwoRuns(before[l..], w, d);
    } else {
      assert s[..l] + [] == s;
    }
  }

  /** The MERGE_SORT state: the scratch array ends sorted, and is a permutation of what it held. */
  method Sort(scratch: array<nat>, ghost logSize: nat)
    requires scratch.Length == Pow2(logSize)
    modifies scratch
    ensures Sorted(scratch[..]) && multiset(scratch[..]) == multiset(old(scratch[..]))
  {
    hide Sorted, Runs, Pass, Pow2;
    var left, right := new nat[scratch.Length / 2], new nat[scratch.Length / 2];
    var subsize := 1;
    ghost var d := logSize;
    SingleRuns(scratch[..]);
    while subsize < scratch.Length
      invariant subsize >= 1 && Runs(scratch[..], subsize, Pow2(d))
      invariant multiset(scratch[..]) == multiset(old(scratch[..]))
      decreases d
    {
      HalfTheRuns(scratch[..], subsize, d);
      PassDoubles(scratch[..], subsize, Pow2(d - 1));
      MergePass(scratch, subsize, Pow2(d - 1), left, right);
      subsize, d := subsize * 2, d - 1;
    }
    OneRun(scratch[..], subsize, d);
  }

  lemma {:induction false} ExactRun(s: seq<nat>, w: nat)
    ensures Runs(s, w, 1) ==> |s| == w && Sorted(s)
  {
    assert |s| >= w ==> (Runs(s[w..], w, 0) <==> |s| == w);
    assert |s| == w ==> s[..w] == s;
  }

  lemma {:induction false} HalfTheRuns(s: seq<nat>, w: nat, d: nat)
    requires w < |s| && Runs(s, w, Pow2(d))
    ensures d > 0 && Pow2(d) == 2 * Pow2(d - 1) && 2 * w <= |s|
  {
    ExactRun(s, w);
    if d > 0 {
      Pow2Positive(d - 1);
      TwoRuns(s, w, Pow2(d - 1));
    }
  }

  lemma {:induction false} Pow2Positive(d: nat)
    ensures Pow2(d) > 0
  {
    if d > 0 { Pow2Positive(d - 1); }
  }

  lemma {:induction false} OneRun(s: seq<nat>, w: nat, d: nat)
    requires |s| <= w && Runs(s, w, Pow2(d))
    ensures Sorted(s)
  {
    Pow2Positive(d);
    assert |s| == w;
    assert s[..w] == s;
  }
}
