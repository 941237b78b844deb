/** The planner's loops: counting, dealing, the greedy fallback and the check that ends it. */
module Planner {
  import opened Options
  import Sets
  import opened Wire
  import opened Arrange

  /** What the planner returns: nothing for an empty or oversized batch or one with a malformed ciphertext. */
  function Plan(bMax: nat, domain: nat, cts: seq<Ciphertext>): Option<(nat, seq<seq<BatchItem>>)> {
    if cts == [] || |cts| > bMax || !AllShaped(domain, cts) || Arranged(cts).None? then None
    else Some((Alpha(ItemsOf(cts)), Arranged(cts).value))
  }

  predicate AllShaped(domain: nat, cts: seq<Ciphertext>) {
    forall i :: 0 <= i < |cts| ==> ValidShape(domain, cts[i])
  }

  /** Planning fails for no other batch. */
  lemma PlanSucceeds(bMax: nat, domain: nat, cts: seq<Ciphertext>)
    ensures Plan(bMax, domain, cts).Some? <==> cts != [] && |cts| <= bMax && AllShaped(domain, cts)
  {
    hide Arranged;
    if cts != [] { ArrangedIsPartition(cts); }
  }

  // ----- counting -----

  /** The number of ciphertexts per index, unless one is malformed. */
  method CountIndices(domain: nat, cts: seq<Ciphertext>) returns (counts: Option<map<int, nat>>)
    ensures counts.Some? <==> AllShaped(domain, cts)
    ensures counts.Some? ==> Counted(counts.value, ItemsOf(cts))
  {
    var found: map<int, nat> := map[];
    var items := ItemsOf(cts);
    for i := 0 to |cts|
      invariant AllShaped(domain, cts[..i])
      invariant Counted(found, items[..i])
    {
      if !ValidShape(domain, cts[i]) {
        return None;
      }
      var x := cts[i].capsule.I;
      CountedOne(found, items, i);
      found := found[x := (if x in found then found[x] else 0) + 1];
    }
    assert cts[..|cts|] == cts && items[..|cts|] == items;
    counts := Some(found);
  }

  ghost predicate Counted(counts: map<int, nat>, items: seq<BatchItem>) {
    && (forall x :: x in counts <==> Occ(items, x) > 0)
    && (forall x :: x in counts ==> counts[x] == Occ(items, x))
  }

  lemma CountedOne(counts: map<int, nat>, items: seq<BatchItem>, i: nat)
    requires i < |items| && Counted(counts, items[..i])
    ensures var x := Idx(items[i]);
            Counted(counts[x := (if x in counts then counts[x] else 0) + 1], items[..i + 1])
  {
    assert items[..i + 1][..i] == items[..i];
    forall x ensures Occ(items[..i + 1], x) == Occ(items[..i], x) + if Idx(items[i]) == x then 1 else 0 {
    }
  }

  /** The largest of the counts, and of `least`. */
  method LargestCount(counts: map<int, nat>, least: nat) returns (r: nat)
    ensures r >= least && forall x :: x in counts ==> counts[x] <= r
    ensures r == least || exists x :: x in counts && counts[x] == r
  {
    r := least;
    var todo := counts.Keys;
    while todo != {}
      invariant todo <= counts.Keys && least <= r
      invariant forall x :: x in counts && x !in todo ==> counts[x] <= r
      invariant r == least || exists x :: x in counts && counts[x] == r
      decreases todo
    {
      var x := Sets.Any(todo);
      if counts[x] > r {
        r := counts[x];
      }
      todo := todo - {x};
    }
  }

  /** The number of sub-batches for the counts. */
  method ChooseAlpha(items: seq<BatchItem>, counts: map<int, nat>) returns (alpha: nat)
    requires Counted(counts, items)
    ensures alpha == Alpha(items)
  {
    hide Root, MaxOcc;
    alpha := Root(4 * |items|, 0);
    if alpha < 1 {
      alpha := 1;
    }
    ghost var least := alpha;
    alpha := LargestCount(counts, alpha);
    MaxOccIs(items, counts, least, alpha);
    if alpha > |items| {
      alpha := |items|;
    }
  }

  lemma MaxOccIs(items: seq<BatchItem>, counts: map<int, nat>, least: nat, v: nat)
    requires Counted(counts, items) && least <= v
    requires forall x :: x in counts ==> counts[x] <= v
    requires v == least || exists x :: x in counts && counts[x] == v
    ensures v == Max(least, MaxOcc(items, |items|))
  {
    MaxOccAtMost(items, |items|, v);
    if v > least {
      var x :| x in counts && counts[x] == v;
      OccHolds(items, x);
      var i :| 0 <= i < |items| && Idx(items[i]) == x;
      MaxOccBounds(items, |items|, i);
    }
  }

  lemma {:induction false} MaxOccAtMost(items: seq<BatchItem>, n: nat, v: nat)
    requires n <= |items| && forall x :: Occ(items, x) > 0 ==> Occ(items, x) <= v
    ensures MaxOcc(items, n) <= v
  {
    if n > 0 {
      MaxOccAtMost(items, n - 1, v);
    }
  }

  // ----- dealing -----

  method Deal(items: seq<BatchItem>, alpha: nat) returns (subs: seq<seq<BatchItem>>)
    requires alpha > 0
    ensures subs == Dealt(items, alpha)
  {
    var subBatches := new seq<BatchItem>[alpha](_ => []);
    assert subBatches[..] == Nothing(alpha);
    for i := 0 to |items|
      invariant subBatches[..] == Dealt(items[..i], alpha)
    {
      assert items[..i + 1][..i] == items[..i];
      SmallModulo(i, alpha);
      subBatches[i % alpha] := subBatches[i % alpha] + [items[i]];
    }
    assert items[..|items|] == items;
    subs := subBatches[..];
  }

  method ValidateSubBatchIndices(subs: seq<seq<BatchItem>>) returns (err: bool)
    ensures err <==> !AllDistinct(subs)
  {
    for id := 0 to |subs|
      invariant AllDistinct(subs[..id])
    {
      var repeated := HasRepetition(subs[id]);
      if repeated {
        return true;
      }
      assert subs[..id + 1] == subs[..id] + [subs[id]];
    }
    assert subs[..|subs|] == subs;
    err := false;
  }

  method HasRepetition(s: seq<BatchItem>) returns (r: bool)
    ensures r <==> !DistinctIn(s)
  {
    var seen: set<int> := {};
    for i := 0 to |s|
      invariant forall x :: x in seen <==> Holds(s[..i], x)
      invariant DistinctIn(s[..i])
    {
      var idx := Idx(s[i]);
      if idx in seen {
        var j :| 0 <= j < i && Idx(s[..i][j]) == idx;
        assert Idx(s[j]) == Idx(s[i]);
        return true;
      }
      HoldsOneMore(s, i);
      seen := seen + {idx};
    }
    assert s[..|s|] == s;
    r := false;
  }

  lemma HoldsOneMore(s: seq<BatchItem>, i: nat)
    requires i < |s|
    ensures forall x :: Holds(s[..i + 1], x) <==> Holds(s[..i], x) || x == Idx(s[i])
    ensures DistinctIn(s[..i]) && !Holds(s[..i], Idx(s[i])) ==> DistinctIn(s[..i + 1])
  {
    forall x ensures Holds(s[..i + 1], x) <==> Holds(s[..i], x) || x == Idx(s[i]) {
      assert Idx(s[..i + 1][i]) == Idx(s[i]);
      if Holds(s[..i], x) {
        var j :| 0 <= j < i && Idx(s[..i][j]) == x;
        assert Idx(s[..i + 1][j]) == x;
      }
      if Holds(s[..i + 1], x) && x != Idx(s[i]) {
        var j :| 0 <= j < i + 1 && Idx(s[..i + 1][j]) == x;
        assert Idx(s[..i][j]) == x;
      }
    }
    assert forall j :: 0 <= j < i ==> Idx(s[..i][j]) == Idx(s[j]);
  }

  // ----- the greedy fallback -----

  method ArrangeCollisionFree(items: seq<BatchItem>, alpha: nat) returns (r: Option<seq<seq<BatchItem>>>)
    ensures r == Placed(items, alpha)
  {
    var subBatches := new seq<BatchItem>[alpha](_ => []);
    var seen := new set<int>[alpha](_ => {});
    assert subBatches[..] == Nothing(alpha);
    for i := 0 to |items|
      invariant Placed(items[..i], alpha) == Some(subBatches[..])
      invariant forall k, x :: 0 <= k < alpha ==> (x in seen[k] <==> Holds(subBatches[k], x))
    {
      assert items[..i + 1][..i] == items[..i];
      var index := Idx(items[i]);
      var selected := SelectIn(subBatches, seen, index);
      if selected == -1 {
        PlacedFails(items, i + 1, alpha);
        return None;
      }
      PutHolds(subBatches[selected], items[i]);
      subBatches[selected] := subBatches[selected] + [items[i]];
      seen[selected] := seen[selected] + {index};
    }
    assert items[..|items|] == items;
    r := Some(subBatches[..]);
  }

  method SelectIn(subBatches: array<seq<BatchItem>>, seen: array<set<int>>, index: int) returns (selected: int)
    requires seen.Length == subBatches.Length
    requires forall k, x :: 0 <= k < seen.Length ==> (x in seen[k] <==> Holds(subBatches[k], x))
    ensures selected == Select(subBatches[..], index, subBatches.Length)
  {
    selected := -1;
    for id := 0 to subBatches.Length
      invariant selected == Select(subBatches[..], index, id)
    {
      if index in seen[id] {
        continue;
      }
      if selected == -1 || |subBatches[id]| < |subBatches[selected]| {
        selected := id;
      }
    }
  }

  lemma PutHolds(s: seq<BatchItem>, it: BatchItem)
    ensures forall x :: Holds(s + [it], x) <==> Holds(s, x) || x == Idx(it)
  {
    HoldsOneMore(s + [it], |s|);
    assert (s + [it])[..|s|] == s && (s + [it])[..|s| + 1] == s + [it];
  }

  lemma {:induction false} PlacedFails(items: seq<BatchItem>, n: nat, alpha: nat)
    requires n <= |items| && Placed(items[..n], alpha).None?
    ensures Placed(items, alpha).None?
    decreases |items|
  {
    if n < |items| {
      assert items[..|items| - 1][..n] == items[..n];
      PlacedFails(items[..|items| - 1], n, alpha);
    } else {
      assert items[..n] == items;
    }
  }

  // ----- the planner -----

  method ArrangeBatch(bMax: nat, domain: nat, cts: seq<Ciphertext>) returns (r: Option<(nat, seq<seq<BatchItem>>)>)
    ensures r == Plan(bMax, domain, cts)
  {
    hide Alpha, Sorted, Dealt, Placed, AllDistinct, AllShaped;
    if |cts| == 0 {
      return None;
    }
    if |cts| > bMax {
      return None;
    }
    var counts := CountIndices(domain, cts);
    if counts.None? {
      return None;
    }
    var items := ItemsOf(cts);
    var alpha := ChooseAlpha(items, counts.value);
    AlphaBounds(items, 0);
    var sorted := Sorted(items, |items|);
    var subBatches := Deal(sorted, alpha);
    var err := ValidateSubBatchIndices(subBatches);
    if !err {
      return Some((alpha, subBatches));
    }
    var placed := ArrangeCollisionFree(sorted, alpha);
    if placed.None? {
      return None;
    }
    err := ValidateSubBatchIndices(placed.value);
    ArrangedIsPartition(cts);
    if err {
      return None;
    }
    r := Some((alpha, placed.value));
  }
}
