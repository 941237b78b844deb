/** Arranging a batch into sub-batches that hold no ciphertext index twice. */
module Arrange {
  import opened Options
  import opened Wire

  datatype BatchItem = BatchItem(position: nat, ct: Ciphertext)

  function Idx(it: BatchItem): int {
    it.ct.capsule.I
  }

  function ItemsOf(cts: seq<Ciphertext>): (r: seq<BatchItem>)
    ensures |r| == |cts| && forall i :: 0 <= i < |cts| ==> r[i] == BatchItem(i, cts[i])
  {
    seq(|cts|, i requires 0 <= i < |cts| => BatchItem(i, cts[i]))
  }

  // ----- occurrences -----

  function Occ(items: seq<BatchItem>, x: int): nat {
    if items == [] then 0
    else Occ(items[..|items| - 1], x) + if Idx(items[|items| - 1]) == x then 1 else 0
  }

  function OccAll(subs: seq<seq<BatchItem>>, x: int): nat {
    if subs == [] then 0 else OccAll(subs[..|subs| - 1], x) + Occ(subs[|subs| - 1], x)
  }

  predicate Holds(s: seq<BatchItem>, x: int) {
    exists i :: 0 <= i < |s| && Idx(s[i]) == x
  }

  lemma {:induction false} OccHolds(s: seq<BatchItem>, x: int)
    ensures Occ(s, x) > 0 <==> Holds(s, x)
  {
    if s != [] {
      var r := s[..|s| - 1];
      OccHolds(r, x);
      if Holds(r, x) {
        var i :| 0 <= i < |r| && Idx(r[i]) == x;
        assert Idx(s[i]) == x;
      }
    }
  }

  lemma {:induction false} OccAppend(s: seq<BatchItem>, t: seq<BatchItem>, x: int)
    ensures Occ(s + t, x) == Occ(s, x) + Occ(t, x)
  {
    if t == [] {
      assert s + t == s;
    } else {
      OccAppend(s, t[..|t| - 1], x);
      assert (s + t)[..|s + t| - 1] == s + t[..|t| - 1];
    }
  }

  lemma {:induction false} OccBounded(s: seq<BatchItem>, x: int)
    ensures Occ(s, x) <= |s|
  {
    if s != [] { OccBounded(s[..|s| - 1], x); }
  }

  // ----- the number of sub-batches -----

  /** The least number from a on whose square reaches m. */
  function Root(m: nat, a: nat): (r: nat)
    requires a > 0 ==> (a - 1) * (a - 1) < m
    ensures r * r >= m && (r > 0 ==> (r - 1) * (r - 1) < m)
    decreases m - a * a
  {
    if a * a >= m then a else Root(m, a + 1)
  }

  function Max(a: nat, b: nat): nat {
    if a > b then a else b
  }

  /** The largest number of times any index of the first n items occurs among all. */
  function MaxOcc(items: seq<BatchItem>, n: nat): nat
    requires n <= |items|
  {
    if n == 0 then 0 else Max(MaxOcc(items, n - 1), Occ(items, Idx(items[n - 1])))
  }

  /** Twice the square root of the size, rounded up; no less than any index occurs, no more than the size. */
  function Alpha(items: seq<BatchItem>): nat {
    var a := Max(Max(Root(4 * |items|, 0), 1), MaxOcc(items, |items|));
    if a > |items| then |items| else a
  }

  lemma {:induction false} MaxOccBounds(items: seq<BatchItem>, n: nat, i: nat)
    requires i < n <= |items|
    ensures Occ(items, Idx(items[i])) <= MaxOcc(items, n)
  {
    if i < n - 1 { MaxOccBounds(items, n - 1, i); }
  }

  lemma AlphaBounds(items: seq<BatchItem>, x: int)
    requires items != []
    ensures 1 <= Alpha(items) <= |items| && Occ(items, x) <= Alpha(items)
  {
    OccHolds(items, x);
    OccBounded(items, x);
    if Holds(items, x) {
      var i :| 0 <= i < |items| && Idx(items[i]) == x;
      MaxOccBounds(items, |items|, i);
    }
  }

  // ----- the order -----

  /** More frequent indices first, then by position. */
  predicate Before(all: seq<BatchItem>, a: BatchItem, b: BatchItem) {
    var ca, cb := Occ(all, Idx(a)), Occ(all, Idx(b));
    ca > cb || (ca == cb && a.position < b.position)
  }

  function Insert(all: seq<BatchItem>, s: seq<BatchItem>, it: BatchItem): seq<BatchItem> {
    if s == [] || !Before(all, it, s[|s| - 1]) then s + [it]
    else Insert(all, s[..|s| - 1], it) + [s[|s| - 1]]
  }

  /** The stable sort of the first n items. */
  function Sorted(all: seq<BatchItem>, n: nat): seq<BatchItem>
    requires n <= |all|
  {
    if n == 0 then [] else Insert(all, Sorted(all, n - 1), all[n - 1])
  }

  lemma {:induction false} InsertAdds(all: seq<BatchItem>, s: seq<BatchItem>, it: BatchItem, x: int)
    ensures multiset(Insert(all, s, it)) == multiset(s) + multiset{it}
    ensures |Insert(all, s, it)| == |s| + 1
    ensures Occ(Insert(all, s, it), x) == Occ(s, x) + if Idx(it) == x then 1 else 0
  {
    hide Before;
    if s == [] || !Before(all, it, s[|s| - 1]) {
      assert (s + [it])[..|s|] == s;
    } else {
      var r, last := s[..|s| - 1], s[|s| - 1];
      InsertAdds(all, r, it, x);
      assert s == r + [last];
      assert Insert(all, s, it)[..|s|] == Insert(all, r, it);
    }
  }

  lemma TakeOne(all: seq<BatchItem>, n: nat, x: int)
    requires 0 < n <= |all|
    ensures multiset(all[..n]) == multiset(all[..n - 1]) + multiset{all[n - 1]}
    ensures Occ(all[..n], x) == Occ(all[..n - 1], x) + if Idx(all[n - 1]) == x then 1 else 0
  {
    assert all[..n] == all[..n - 1] + [all[n - 1]];
    assert all[..n][..n - 1] == all[..n - 1];
  }

  /** Sorting only permutes. */
  lemma {:induction false} SortedAdds(all: seq<BatchItem>, n: nat, x: int)
    requires n <= |all|
    ensures multiset(Sorted(all, n)) == multiset(all[..n]) && |Sorted(all, n)| == n
    ensures Occ(Sorted(all, n), x) == Occ(all[..n], x)
  {
    hide Insert, Occ;
    if n > 0 {
      SortedAdds(all, n - 1, x);
      InsertAdds(all, Sorted(all, n - 1), all[n - 1], x);
      TakeOne(all, n, x);
    } else {
      assert all[..0] == [];
    }
  }

  ghost predicate Ordered(all: seq<BatchItem>, s: seq<BatchItem>) {
    forall i, j :: 0 <= i < j < |s| ==> Before(all, s[i], s[j])
  }

  lemma {:induction false} InsertOrders(all: seq<BatchItem>, s: seq<BatchItem>, it: BatchItem)
    requires Ordered(all, s) && forall i :: 0 <= i < |s| ==> s[i].position != it.position
    ensures Ordered(all, Insert(all, s, it))
    ensures forall x :: x in Insert(all, s, it) ==> x in s || x == it
  {
    if s == [] {
    } else if Before(all, it, s[|s| - 1]) {
      InsertOrders(all, s[..|s| - 1], it);
      var r, last := Insert(all, s[..|s| - 1], it), s[|s| - 1];
      forall i | 0 <= i < |r| ensures Before(all, r[i], last) {
        assert r[i] in r;
        if r[i] != it {
          var j :| 0 <= j < |s| - 1 && s[j] == r[i];
        }
      }
    } else {
      forall i | 0 <= i < |s| ensures Before(all, s[i], it) {
        assert i < |s| - 1 ==> Before(all, s[i], s[|s| - 1]);
      }
    }
  }

  /** The sort puts the items into the order, in which no two items are level. */
  lemma {:induction false} SortedIsOrdered(all: seq<BatchItem>, n: nat)
    requires n <= |all| && forall i :: 0 <= i < |all| ==> all[i].position == i
    ensures Ordered(all, Sorted(all, n)) && forall x :: x in Sorted(all, n) ==> x.position < n
  {
    if n > 0 {
      SortedIsOrdered(all, n - 1);
      InsertOrders(all, Sorted(all, n - 1), all[n - 1]);
    }
  }

  // ----- sub-batches -----

  predicate DistinctIn(s: seq<BatchItem>) {
    forall i, j :: 0 <= i < j < |s| ==> Idx(s[i]) != Idx(s[j])
  }

  predicate AllDistinct(subs: seq<seq<BatchItem>>) {
    forall k :: 0 <= k < |subs| ==> DistinctIn(subs[k])
  }

  function Total(subs: seq<seq<BatchItem>>): multiset<BatchItem> {
    if subs == [] then multiset{} else Total(subs[..|subs| - 1]) + multiset(subs[|subs| - 1])
  }

  function Nothing(alpha: nat): (r: seq<seq<BatchItem>>)
    ensures |r| == alpha && forall k :: 0 <= k < alpha ==> r[k] == []
  {
    seq(alpha, k requires 0 <= k < alpha => [])
  }

  function Put(subs: seq<seq<BatchItem>>, k: nat, it: BatchItem): seq<seq<BatchItem>>
    requires k < |subs|
  {
    subs[k := subs[k] + [it]]
  }

  lemma {:induction false} PutAdds(subs: seq<seq<BatchItem>>, k: nat, it: BatchItem, x: int)
    requires k < |subs|
    ensures Total(Put(subs, k, it)) == Total(subs) + multiset{it}
    ensures OccAll(Put(subs, k, it), x) == OccAll(subs, x) + if Idx(it) == x then 1 else 0
  {
    var n := |subs| - 1;
    if k < n {
      PutAdds(subs[..n], k, it, x);
      assert Put(subs, k, it)[..n] == Put(subs[..n], k, it);
    } else {
      assert Put(subs, k, it)[..n] == subs[..n];
      assert (subs[n] + [it])[..|subs[n]|] == subs[n];
    }
  }

  lemma {:induction false} NothingThere(alpha: nat, x: int)
    ensures Total(Nothing(alpha)) == multiset{} && OccAll(Nothing(alpha), x) == 0
  {
    if alpha > 0 {
      NothingThere(alpha - 1, x);
      assert Nothing(alpha)[..alpha - 1] == Nothing(alpha - 1);
    }
  }

  // ----- round robin -----

  /** Item i goes to sub-batch i modulo alpha. */
  function Dealt(items: seq<BatchItem>, alpha: nat): (r: seq<seq<BatchItem>>)
    requires alpha > 0
    ensures |r| == alpha
  {
    if items == [] then Nothing(alpha)
    else
      var n := |items| - 1;
      Put(Dealt(items[..n], alpha), n % alpha, items[n])
  }

  lemma SmallModulo(n: nat, alpha: nat)
    requires alpha > 0
    ensures 0 <= n % alpha < alpha && (n < alpha ==> n % alpha == n)
  {
  }

  lemma {:induction false} DealtKeeps(items: seq<BatchItem>, alpha: nat)
    requires alpha > 0
    ensures Total(Dealt(items, alpha)) == multiset(items)
    ensures forall k :: 0 <= k < alpha && k < |items| ==> Dealt(items, alpha)[k] != []
  {
    if items == [] {
      NothingThere(alpha, 0);
    } else {
      var n := |items| - 1;
      DealtKeeps(items[..n], alpha);
      PutAdds(Dealt(items[..n], alpha), n % alpha, items[n], 0);
      assert items == items[..n] + [items[n]];
      SmallModulo(n, alpha);
    }
  }

  // ----- greedy placement -----

  /** The first shortest of the first n sub-batches that do not hold x, or -1. */
  function Select(subs: seq<seq<BatchItem>>, x: int, n: nat): (r: int)
    requires n <= |subs|
    ensures -1 <= r < n
  {
    if n == 0 then -1
    else
      var s := Select(subs, x, n - 1);
      if Holds(subs[n - 1], x) then s
      else if s == -1 || |subs[n - 1]| < |subs[s]| then n - 1 else s
  }

  lemma {:induction false} SelectIsShortest(subs: seq<seq<BatchItem>>, x: int, n: nat)
    requires n <= |subs|
    ensures var r := Select(subs, x, n);
            if r == -1 then forall k :: 0 <= k < n ==> Holds(subs[k], x)
            else !Holds(subs[r], x) && forall k :: 0 <= k < n && !Holds(subs[k], x) ==> |subs[r]| <= |subs[k]|
  {
    if n > 0 { SelectIsShortest(subs, x, n - 1); }
  }

  function Placed(items: seq<BatchItem>, alpha: nat): (r: Option<seq<seq<BatchItem>>>)
    ensures r.Some? ==> |r.value| == alpha
  {
    if items == [] then Some(Nothing(alpha))
    else
      var n := |items| - 1;
      var before := Placed(items[..n], alpha);
      if before.None? then None
      else
        var k := Select(before.value, Idx(items[n]), alpha);
        if k == -1 then None else Some(Put(before.value, k, items[n]))
  }

  /** If every sub-batch holds x, it occurs as often as there are sub-batches. */
  lemma {:induction false} EverywhereCounts(subs: seq<seq<BatchItem>>, x: int)
    requires forall k :: 0 <= k < |subs| ==> Holds(subs[k], x)
    ensures OccAll(subs, x) >= |subs|
  {
    if subs != [] {
      EverywhereCounts(subs[..|subs| - 1], x);
      OccHolds(subs[|subs| - 1], x);
    }
  }

  /** How many sub-batches are empty. */
  function Empties(subs: seq<seq<BatchItem>>): nat {
    if subs == [] then 0 else Empties(subs[..|subs| - 1]) + if subs[|subs| - 1] == [] then 1 else 0
  }

  lemma {:induction false} SomeEmpty(subs: seq<seq<BatchItem>>, k: nat)
    requires k < |subs| && subs[k] == []
    ensures Empties(subs) > 0
  {
    if k < |subs| - 1 { SomeEmpty(subs[..|subs| - 1], k); }
  }

  lemma {:induction false} FindEmpty(subs: seq<seq<BatchItem>>) returns (k: nat)
    requires Empties(subs) > 0
    ensures k < |subs| && subs[k] == []
  {
    k := |subs| - 1;
    if subs[k] != [] { k := FindEmpty(subs[..k]); }
  }

  lemma {:induction false} PutFills(subs: seq<seq<BatchItem>>, k: nat, it: BatchItem)
    requires k < |subs|
    ensures Empties(Put(subs, k, it)) == Empties(subs) - if subs[k] == [] then 1 else 0
  {
    var n := |subs| - 1;
    if k < n {
      PutFills(subs[..n], k, it);
      assert Put(subs, k, it)[..n] == Put(subs[..n], k, it);
    } else {
      assert Put(subs, k, it)[..n] == subs[..n];
    }
  }

  /** While a sub-batch is empty, the next item goes to an empty one. */
  lemma FillsEmpty(subs: seq<seq<BatchItem>>, k: nat, it: BatchItem)
    requires k < |subs|
    requires forall l :: 0 <= l < |subs| && !Holds(subs[l], Idx(it)) ==> |subs[k]| <= |subs[l]|
    ensures Empties(Put(subs, k, it)) == if Empties(subs) == 0 then 0 else Empties(subs) - 1
  {
    hide Put;
    PutFills(subs, k, it);
    if Empties(subs) > 0 {
      var l := FindEmpty(subs);
      assert !Holds(subs[l], Idx(it));
    } else if subs[k] == [] {
      SomeEmpty(subs, k);
    }
  }

  lemma {:induction false} AllEmpty(alpha: nat)
    ensures Empties(Nothing(alpha)) == alpha
  {
    if alpha > 0 {
      AllEmpty(alpha - 1);
      assert Nothing(alpha)[..alpha - 1] == Nothing(alpha - 1);
    }
  }

  /** What holds after the greedy placement of some items. */
  ghost predicate Fair(items: seq<BatchItem>, subs: seq<seq<BatchItem>>) {
    && AllDistinct(subs) && Total(subs) == multiset(items)
    && (forall x :: OccAll(subs, x) == Occ(items, x))
    && Empties(subs) == if |items| < |subs| then |subs| - |items| else 0
  }

  lemma FairStart(alpha: nat)
    ensures Fair([], Nothing(alpha))
  {
    forall x ensures OccAll(Nothing(alpha), x) == 0 { NothingThere(alpha, x); }
    NothingThere(alpha, 0);
    AllEmpty(alpha);
  }

  lemma StillDistinct(subs: seq<seq<BatchItem>>, k: nat, it: BatchItem)
    requires k < |subs| && AllDistinct(subs) && !Holds(subs[k], Idx(it))
    ensures AllDistinct(Put(subs, k, it))
  {
  }

  lemma FairStep(items: seq<BatchItem>, subs: seq<seq<BatchItem>>, it: BatchItem)
    requires Fair(items, subs) && Occ(items, Idx(it)) < |subs|
    ensures var k := Select(subs, Idx(it), |subs|);
            k >= 0 && Fair(items + [it], Put(subs, k, it))
  {
    hide AllDistinct, Holds, Put, Select;
    var k := Select(subs, Idx(it), |subs|);
    SelectIsShortest(subs, Idx(it), |subs|);
    if k == -1 {
      EverywhereCounts(subs, Idx(it));
      assert false;
    }
    forall x ensures OccAll(Put(subs, k, it), x) == Occ(items + [it], x) {
      PutAdds(subs, k, it, x);
      assert (items + [it])[..|items|] == items;
    }
    PutAdds(subs, k, it, 0);
    StillDistinct(subs, k, it);
    FillsEmpty(subs, k, it);
    SameSize(subs, k, it);
  }

  lemma SameSize(subs: seq<seq<BatchItem>>, k: nat, it: BatchItem)
    requires k < |subs|
    ensures |Put(subs, k, it)| == |subs|
  {
  }

  /** The greedy placement never runs out of sub-batches if no index occurs more often than there are any. */
  lemma {:induction false} PlacedKeeps(items: seq<BatchItem>, alpha: nat)
    requires forall x :: Occ(items, x) <= alpha
    ensures Placed(items, alpha).Some? && Fair(items, Placed(items, alpha).value)
  {
    hide Fair, Put, Select;
    if items == [] {
      FairStart(alpha);
    } else {
      var n := |items| - 1;
      forall x ensures Occ(items[..n], x) <= alpha {
        assert Occ(items, x) >= Occ(items[..n], x);
      }
      PlacedKeeps(items[..n], alpha);
      assert items == items[..n] + [items[n]];
      assert Occ(items, Idx(items[n])) == Occ(items[..n], Idx(items[n])) + 1;
      FairStep(items[..n], Placed(items[..n], alpha).value, items[n]);
    }
  }

  // ----- the arrangement -----

  function Arranged(cts: seq<Ciphertext>): Option<seq<seq<BatchItem>>>
    requires cts != []
  {
    var items := ItemsOf(cts);
    AlphaBounds(items, 0);
    var alpha := Alpha(items);
    var sorted := Sorted(items, |items|);
    var dealt := Dealt(sorted, alpha);
    if AllDistinct(dealt) then Some(dealt) else Placed(sorted, alpha)
  }

  /** The batch is split into alpha non-empty sub-batches, every ciphertext in exactly one of them
      under its position, and no index twice in any. There always is an arrangement. */
  lemma ArrangedIsPartition(cts: seq<Ciphertext>)
    requires cts != []
    ensures Arranged(cts).Some?
    ensures var subs := Arranged(cts).value;
            && |subs| == Alpha(ItemsOf(cts)) && AllDistinct(subs)
            && Total(subs) == multiset(ItemsOf(cts))
            && forall k :: 0 <= k < |subs| ==> subs[k] != []
  {
    hide Root, MaxOcc, Alpha, Sorted, Dealt, Placed, AllDistinct;
    var items := ItemsOf(cts);
    var alpha, sorted := Alpha(items), Sorted(items, |items|);
    AlphaBounds(items, 0);
    SortedAdds(items, |items|, 0);
    assert items[..|items|] == items;
    DealtKeeps(sorted, alpha);
    if !AllDistinct(Dealt(sorted, alpha)) {
      forall x ensures Occ(sorted, x) <= alpha {
        AlphaBounds(items, x);
        SortedAdds(items, |items|, x);
      }
      PlacedKeeps(sorted, alpha);
      var subs := Placed(sorted, alpha).value;
      forall k: nat | k < |subs| ensures subs[k] != [] {
        if subs[k] == [] { SomeEmpty(subs, k); }
      }
    }
  }
}
