/** The subsets of a fixed size as increasing tuples, in lexicographic order, and the loop that visits them. */
module Subsets {
  import opened Options

  predicate Increasing(c: seq<nat>, lo: nat, n: nat) {
    && (forall i :: 0 <= i < |c| ==> lo <= c[i] < n)
    && (forall i, j :: 0 <= i < j < |c| ==> c[i] < c[j])
  }

  ghost predicate DiffersAt(a: seq<nat>, b: seq<nat>, p: nat) {
    p < |a| && p < |b| && a[..p] == b[..p] && a[p] < b[p]
  }

  /** Lexicographic order, on tuples of one length. */
  ghost predicate LexLess(a: seq<nat>, b: seq<nat>) {
    exists p: nat :: DiffersAt(a, b, p)
  }

  function Prepend(x: nat, cs: seq<seq<nat>>): (r: seq<seq<nat>>)
    ensures |r| == |cs| && forall i :: 0 <= i < |cs| ==> r[i] == [x] + cs[i]
  {
    seq(|cs|, i requires 0 <= i < |cs| => [x] + cs[i])
  }

  /** All increasing k-tuples of numbers from lo up to n: those that begin with lo, then the others. */
  function Combinations(lo: nat, n: nat, k: nat): seq<seq<nat>>
    decreases n - lo
  {
    if k == 0 then [[]]
    else if lo >= n then []
    else Prepend(lo, Combinations(lo + 1, n, k - 1)) + Combinations(lo + 1, n, k)
  }

  function Binomial(n: nat, k: nat): nat {
    if k == 0 then 1 else if n == 0 then 0 else Binomial(n - 1, k - 1) + Binomial(n - 1, k)
  }

  // ----- the list is complete, ordered and of binomial length -----

  lemma {:induction false} CombinationsSound(lo: nat, n: nat, k: nat, i: nat)
    requires i < |Combinations(lo, n, k)|
    ensures |Combinations(lo, n, k)[i]| == k && Increasing(Combinations(lo, n, k)[i], lo, n)
    decreases n - lo
  {
    if k > 0 {
      var front := Combinations(lo + 1, n, k - 1);
      if i < |front| {
        CombinationsSound(lo + 1, n, k - 1, i);
      } else {
        CombinationsSound(lo + 1, n, k, i - |front|);
      }
    }
  }

  /** A tuple begins with lo, or is one from lo + 1 on. */
  lemma FirstIs(lo: nat, n: nat, c: seq<nat>)
    requires Increasing(c, lo, n) && c != []
    ensures lo < n && c == [c[0]] + c[1..]
    ensures if c[0] == lo then Increasing(c[1..], lo + 1, n) else Increasing(c, lo + 1, n)
  {
  }

  lemma {:induction false} CombinationsComplete(lo: nat, n: nat, c: seq<nat>) returns (i: nat)
    requires Increasing(c, lo, n)
    ensures i < |Combinations(lo, n, |c|)| && Combinations(lo, n, |c|)[i] == c
    decreases n - lo
  {
    hide Prepend, Increasing;
    i := 0;
    if c != [] {
      FirstIs(lo, n, c);
      var front := Combinations(lo + 1, n, |c| - 1);
      if c[0] == lo {
        i := CombinationsComplete(lo + 1, n, c[1..]);
        assert Prepend(lo, front)[i] == [lo] + front[i];
      } else {
        i := CombinationsComplete(lo + 1, n, c);
        i := |front| + i;
      }
    }
  }

  lemma PrependLess(x: nat, a: seq<nat>, b: seq<nat>)
    requires LexLess(a, b)
    ensures LexLess([x] + a, [x] + b)
  {
    var p: nat :| DiffersAt(a, b, p);
    assert ([x] + a)[..p + 1] == [x] + a[..p] && ([x] + b)[..p + 1] == [x] + b[..p];
    assert DiffersAt([x] + a, [x] + b, p + 1);
  }

  lemma FirstDiffers(a: seq<nat>, b: seq<nat>)
    requires a != [] && b != [] && a[0] < b[0]
    ensures LexLess(a, b)
  {
    assert DiffersAt(a, b, 0);
  }

  lemma {:induction false} CombinationsOrdered(lo: nat, n: nat, k: nat, i: nat, j: nat)
    requires i < j < |Combinations(lo, n, k)|
    ensures LexLess(Combinations(lo, n, k)[i], Combinations(lo, n, k)[j])
    decreases n - lo
  {
    hide LexLess, Prepend, Increasing;
    var front, back := Combinations(lo + 1, n, k - 1), Combinations(lo + 1, n, k);
    assert Combinations(lo, n, k) == Prepend(lo, front) + back;
    if j < |front| {
      CombinationsOrdered(lo + 1, n, k - 1, i, j);
      PrependLess(lo, front[i], front[j]);
    } else if i >= |front| {
      CombinationsOrdered(lo + 1, n, k, i - |front|, j - |front|);
    } else {
      FirstIsLater(lo, n, k, j - |front|);
      FirstDiffers([lo] + front[i], back[j - |front|]);
    }
  }

  lemma FirstIsLater(lo: nat, n: nat, k: nat, i: nat)
    requires k > 0 && i < |Combinations(lo + 1, n, k)|
    ensures Combinations(lo + 1, n, k)[i] != [] && lo < Combinations(lo + 1, n, k)[i][0]
  {
    CombinationsSound(lo + 1, n, k, i);
  }

  lemma {:induction false} CombinationsCount(lo: nat, n: nat, k: nat)
    requires lo <= n
    ensures |Combinations(lo, n, k)| == Binomial(n - lo, k)
    decreases n - lo
  {
    if k > 0 && lo < n {
      CombinationsCount(lo + 1, n, k - 1);
      CombinationsCount(lo + 1, n, k);
    }
  }

  function Range(lo: nat, k: nat): (r: seq<nat>)
    ensures |r| == k && forall i :: 0 <= i < k ==> r[i] == lo + i
  {
    seq(k, i requires 0 <= i < k => lo + i)
  }

  lemma {:induction false} FirstCombination(lo: nat, n: nat, k: nat)
    requires lo + k <= n
    ensures Combinations(lo, n, k) != [] && Combinations(lo, n, k)[0] == Range(lo, k)
    decreases k
  {
    if k > 0 {
      FirstCombination(lo + 1, n, k - 1);
      assert Range(lo, k) == [lo] + Range(lo + 1, k - 1);
    }
  }

  lemma NotBoth(a: seq<nat>, b: seq<nat>, p: nat, q: nat)
    requires DiffersAt(a, b, p)
    ensures !DiffersAt(b, a, q)
  {
    if p < q && q <= |a| && q <= |b| {
      assert b[..q][p] == b[p] && a[..q][p] == a[p];
    } else if q < p {
      assert b[..p][q] == b[q] && a[..p][q] == a[q];
    }
  }

  lemma LessIsStrict(a: seq<nat>, b: seq<nat>)
    requires LexLess(a, b)
    ensures a != b && !LexLess(b, a)
  {
    var p: nat :| DiffersAt(a, b, p);
    forall q: nat ensures !DiffersAt(b, a, q) {
      NotBoth(a, b, p, q);
    }
  }

  // ----- the step of the loop -----

  /** The last position that has not reached its largest value, if any. */
  ghost predicate Pivot(c: seq<nat>, n: nat, i: int) {
    && -1 <= i < |c| <= n
    && (i >= 0 ==> c[i] != i + n - |c|)
    && forall j :: i < j < |c| ==> c[j] == j + n - |c|
  }

  function Raise(c: seq<nat>, i: nat): (d: seq<nat>)
    requires i < |c|
    ensures |d| == |c| && d[..i] == c[..i] && forall j :: i <= j < |c| ==> d[j] == c[i] + 1 + (j - i)
  {
    c[..i] + seq(|c| - i, j requires 0 <= j < |c| - i => c[i] + 1 + j)
  }

  lemma {:induction false} Ceiling(c: seq<nat>, n: nat, i: nat)
    requires Increasing(c, 0, n) && i < |c|
    ensures c[i] + |c| <= i + n
    decreases |c| - i
  {
    if i < |c| - 1 { Ceiling(c, n, i + 1); }
  }

  lemma {:induction false} Floor(c: seq<nat>, i: nat, j: nat)
    requires i <= j < |c| && Increasing(c, 0, c[|c| - 1] + 1)
    ensures c[j] >= c[i] + (j - i)
    decreases j
  {
    if i < j { Floor(c, i, j - 1); }
  }

  lemma RaiseIsLater(c: seq<nat>, n: nat, i: nat)
    requires Increasing(c, 0, n) && Pivot(c, n, i)
    ensures Increasing(Raise(c, i), 0, n) && LexLess(c, Raise(c, i))
  {
    var d := Raise(c, i);
    Ceiling(c, n, i);
    assert forall j :: 0 <= j < i ==> d[j] == d[..i][j] == c[j];
    assert DiffersAt(c, d, i);
  }

  /** Nothing lies between a tuple and its raised form. */
  lemma RaiseIsNext(c: seq<nat>, n: nat, i: nat, e: seq<nat>)
    requires Increasing(c, 0, n) && Pivot(c, n, i) && Increasing(e, 0, n) && |e| == |c| && LexLess(c, e)
    ensures e == Raise(c, i) || LexLess(Raise(c, i), e)
  {
    var d := Raise(c, i);
    var p: nat :| DiffersAt(c, e, p);
    Ceiling(e, n, p);
    assert p <= i;
    if p < i {
      assert d[..p] == d[..i][..p] && d[p] == d[..i][p];
      assert DiffersAt(d, e, p);
    } else if e[i] > d[i] {
      assert DiffersAt(d, e, i);
    } else {
      SameOrLater(d, e, i);
    }
  }

  /** From position i on, d grows by ones and e by ones at least. */
  lemma SameOrLater(d: seq<nat>, e: seq<nat>, i: nat)
    requires |d| == |e| && i < |d| && d[..i] == e[..i] && d[i] == e[i]
    requires forall j :: i <= j < |d| ==> d[j] == d[i] + (j - i)
    requires |e| > 0 && Increasing(e, 0, e[|e| - 1] + 1)
    ensures e == d || LexLess(d, e)
  {
    var q := i;
    while q < |d| && d[q] == e[q]
      invariant i <= q <= |d| && d[..q] == e[..q]
    {
      assert d[..q + 1] == d[..q] + [d[q]] && e[..q + 1] == e[..q] + [e[q]];
      q := q + 1;
    }
    if q < |d| {
      Floor(e, i, q);
      assert DiffersAt(d, e, q);
    } else {
      assert d == d[..q] && e == e[..q];
    }
  }

  lemma NothingLater(c: seq<nat>, n: nat, e: seq<nat>)
    requires Pivot(c, n, -1) && Increasing(e, 0, n) && |e| == |c|
    ensures !LexLess(c, e)
  {
    if LexLess(c, e) {
      var p: nat :| DiffersAt(c, e, p);
      Ceiling(e, n, p);
      assert false;
    }
  }

  /** The loop's step goes from each tuple of the list to the next, and stops at the last. */
  lemma StepFollowsList(n: nat, k: nat, at: nat, i: int)
    requires at < |Combinations(0, n, k)|
    requires Pivot(Combinations(0, n, k)[at], n, i)
    ensures i == -1 ==> at + 1 == |Combinations(0, n, k)|
    ensures i >= 0 ==> at + 1 < |Combinations(0, n, k)| &&
                       Combinations(0, n, k)[at + 1] == Raise(Combinations(0, n, k)[at], i)
  {
    var cs := Combinations(0, n, k);
    var c := cs[at];
    CombinationsSound(0, n, k, at);
    if at + 1 < |cs| {
      CombinationsSound(0, n, k, at + 1);
      CombinationsOrdered(0, n, k, at, at + 1);
    }
    if i == -1 {
      if at + 1 < |cs| { NothingLater(c, n, cs[at + 1]); }
    } else {
      RaiseIsLater(c, n, i);
      var d := Raise(c, i);
      var to := CombinationsComplete(0, n, d);
      LessIsStrict(c, d);
      if to < at { CombinationsOrdered(0, n, k, to, at); }
      assert to > at;
      RaiseIsNext(c, n, i, cs[at + 1]);
      if at + 1 < to {
        CombinationsOrdered(0, n, k, at + 1, to);
        LessIsStrict(cs[at + 1], d);
      }
    }
  }

  // ----- the loop -----

  /** Feeds the tuples to fn until it says stop; fn carries a state along. */
  function Run<S>(fn: (S, seq<nat>) -> (S, bool), s: S, cs: seq<seq<nat>>): S {
    if cs == [] then s
    else
      var (t, stop) := fn(s, cs[0]);
      if stop then t else Run(fn, t, cs[1..])
  }

  /** The tuples handed to fn: all of them if k is out of range or no tuple exists, none. */
  function Visited(n: int, k: int): seq<seq<nat>> {
    if k <= 0 || k > n then [] else Combinations(0, n, k)
  }

  method ForEachShareCombination<S>(n: int, k: int, s0: S, fn: (S, seq<nat>) -> (S, bool)) returns (s: S)
    ensures s == Run(fn, s0, Visited(n, k))
  {
    hide Combinations, Raise, Range;
    s := s0;
    if k <= 0 || k > n {
      return;
    }
    var indices := new nat[k](i => i);
    ghost var cs := Combinations(0, n, k);
    ghost var at := 0;
    FirstCombination(0, n, k);
    assert indices[..] == Range(0, k);
    assert cs[0..] == cs;
    while true
      invariant at < |cs| && indices[..] == cs[at]
      invariant Run(fn, s0, cs) == Run(fn, s, cs[at..])
      decreases |cs| - at
    {
      var (t, stop) := fn(s, indices[..]);
      s := t;
      if stop {
        return;
      }
      assert cs[at..][1..] == cs[at + 1..];
      var i := k - 1;
      while i >= 0 && indices[i] == i + n - k
        invariant -1 <= i < k
        invariant forall j :: i < j < k ==> indices[j] == j + n - k
      {
        i := i - 1;
      }
      StepFollowsList(n, k, at, i);
      if i < 0 {
        return;
      }
      RaiseInPlace(indices, i);
      at := at + 1;
    }
  }

  method RaiseInPlace(indices: array<nat>, i: nat)
    requires i < indices.Length
    modifies indices
    ensures indices[..] == Raise(old(indices[..]), i)
  {
    ghost var c := indices[..];
    indices[i] := indices[i] + 1;
    for j := i + 1 to indices.Length
      invariant indices[..i] == c[..i]
      invariant forall l :: i <= l < j ==> indices[l] == c[i] + 1 + (l - i)
    {
      indices[j] := indices[j - 1] + 1;
    }
    assert indices[..] == Raise(c, i);
  }
}
