/** Combining decryption shares: admission, and the bounded search for a valid threshold subset. */
module Combine {
  import opened Options
  import opened Bytes
  import opened Groups
  import EG = ElGamal
  import Shamir
  import opened Btd
  import opened Wire
  import opened Arrange
  import opened Subsets
  import opened Cluster

  // ----- one subset -----

  function Pick(shares: seq<EG.PubShare>, indices: seq<nat>): Option<seq<EG.PubShare>> {
    if forall i :: 0 <= i < |indices| ==> indices[i] < |shares|
    then Some(seq(|indices|, i requires 0 <= i < |indices| && indices[i] < |shares| => shares[indices[i]]))
    else None
  }

  /** The plaintext of every item with its position, unless one fails to decrypt. */
  function DecryptAll(c: ClusterBTE, items: seq<BatchItem>, msgs: seq<GT>, n: nat): Option<seq<(nat, Bytes)>>
    requires n <= |items| && n <= |msgs|
  {
    if n == 0 then Some([])
    else
      var front := DecryptAll(c, items, msgs, n - 1);
      var raw := DecryptTx(c, msgs[n - 1], items[n - 1].ct);
      if front.None? || raw.None? then None else Some(front.value + [(items[n - 1].position, raw.value)])
  }

  /** What one subset of the shares gives. */
  function Try(c: ClusterBTE, items: seq<BatchItem>, shares: seq<EG.PubShare>, indices: seq<nat>)
    : Option<seq<(nat, Bytes)>>
    requires c.Sized() && Shamir.IsField()
  {
    var candidate := Pick(shares, indices);
    if candidate.None? then None
    else
      var msgs := BatchCombine(c.btd, Capsules(items), candidate.value, true);
      if msgs.None? || |msgs.value| != |items| then None
      else DecryptAll(c, items, msgs.value, |items|)
  }

  // ----- the search -----

  /** What the search has done so far. */
  datatype Search<R> = Search(attempts: nat, out: Option<R>)

  function Visit<R>(attempt: seq<nat> -> Option<R>, max: int, s: Search<R>, indices: seq<nat>): (Search<R>, bool) {
    if s.attempts >= max then (s, true)
    else
      var r := attempt(indices);
      (Search(s.attempts + 1, if r.Some? then r else s.out), r.Some?)
  }

  function Visitor<R>(attempt: seq<nat> -> Option<R>, max: int): (Search<R>, seq<nat>) -> (Search<R>, bool) {
    (s: Search<R>, indices: seq<nat>) => Visit(attempt, max, s, indices)
  }

  /** The first i at which the attempt succeeds. */
  ghost predicate FirstSuccess<R>(attempt: seq<nat> -> Option<R>, cs: seq<seq<nat>>, i: nat) {
    i < |cs| && attempt(cs[i]).Some? && forall j :: 0 <= j < i ==> attempt(cs[j]).None?
  }

  /** The search returns the first valid subset if it lies within the limit. */
  lemma {:induction false} SearchFindsFirst<R>(attempt: seq<nat> -> Option<R>, max: nat, cs: seq<seq<nat>>,
                                               a: nat, i: nat)
    requires FirstSuccess(attempt, cs, i) && a + i < max
    ensures Run(Visitor(attempt, max), Search(a, None), cs) == Search(a + i + 1, attempt(cs[i]))
    decreases i
  {
    if i > 0 {
      assert attempt(cs[0]).None?;
      assert forall j :: 0 <= j < i - 1 ==> cs[1..][j] == cs[j + 1];
      SearchFindsFirst(attempt, max, cs[1..], a + 1, i - 1);
    }
  }

  /** Without one the search gives nothing, after as many attempts as it may make. */
  lemma {:induction false} SearchFindsNothing<R>(attempt: seq<nat> -> Option<R>, max: nat, cs: seq<seq<nat>>, a: nat)
    requires a <= max && forall i: nat :: i < |cs| && a + i < max ==> attempt(cs[i]).None?
    ensures Run(Visitor(attempt, max), Search(a, None), cs) == Search(if a + |cs| < max then a + |cs| else max, None)
    decreases |cs|
  {
    if cs != [] && a < max {
      forall i: nat | i < |cs[1..]| && a + 1 + i < max ensures attempt(cs[1..][i]).None? {
        assert cs[1..][i] == cs[i + 1];
      }
      SearchFindsNothing(attempt, max, cs[1..], a + 1);
    }
  }

  /** Any valid subset makes for a first one. */
  lemma {:induction false} SomeFirst<R>(attempt: seq<nat> -> Option<R>, cs: seq<seq<nat>>, k: nat) returns (i: nat)
    requires k < |cs| && attempt(cs[k]).Some?
    ensures i <= k && FirstSuccess(attempt, cs, i)
  {
    i := 0;
    while attempt(cs[i]).None?
      invariant i <= k && forall j :: 0 <= j < i ==> attempt(cs[j]).None?
      decreases k - i
    {
      i := i + 1;
    }
  }

  /** The number of attempts stays within the limit, and a result is one some subset gave. */
  lemma {:induction false} SearchIsBounded<R>(attempt: seq<nat> -> Option<R>, max: nat, cs: seq<seq<nat>>, a: nat)
    requires a <= max
    ensures var s := Run(Visitor(attempt, max), Search(a, None), cs);
            && a <= s.attempts <= max
            && (s.out.Some? ==> exists i :: 0 <= i < |cs| && attempt(cs[i]) == s.out)
    decreases |cs|
  {
    if cs != [] && a < max {
      if attempt(cs[0]).None? {
        SearchIsBounded(attempt, max, cs[1..], a + 1);
        var s := Run(Visitor(attempt, max), Search(a + 1, None), cs[1..]);
        if s.out.Some? {
          var i :| 0 <= i < |cs| - 1 && attempt(cs[1..][i]) == s.out;
          assert attempt(cs[i + 1]) == s.out;
        }
      } else {
        assert attempt(cs[0]) == Run(Visitor(attempt, max), Search(a, None), cs).out;
      }
    }
  }

  // ----- one sub-batch -----

  function Attempt(c: ClusterBTE, items: seq<BatchItem>, shares: seq<EG.PubShare>)
    : seq<nat> -> Option<seq<(nat, Bytes)>>
    requires c.Sized() && Shamir.IsField()
  {
    (indices: seq<nat>) => Try(c, items, shares, indices)
  }

  function SubBatchSearch(c: ClusterBTE, items: seq<BatchItem>, shares: seq<EG.PubShare>, max: int)
    : Search<seq<(nat, Bytes)>>
    requires c.Sized() && Shamir.IsField()
  {
    Run(Visitor(Attempt(c, items, shares), max), Search(0, None), Visited(|shares|, c.T))
  }

  method CombineSubBatch(c: ClusterBTE, items: seq<BatchItem>, shares: seq<EG.PubShare>, max: int)
    returns (out: Option<seq<(nat, Bytes)>>, attempts: nat)
    requires c.Sized() && Shamir.IsField()
    ensures Search(attempts, out) == SubBatchSearch(c, items, shares, max)
  {
    var s := ForEachShareCombination(|shares|, c.T, Search(0, None), Visitor(Attempt(c, items, shares), max));
    out, attempts := s.out, s.attempts;
  }

  // ----- admission -----

  datatype CombineOptions = CombineOptions(maxAttempts: int, limits: Option<seq<int>>) {
    function LimitOf(k: nat): int
      requires limits.Some? ==> k < |limits.value|
    {
      if limits.Some? then limits.value[k] else maxAttempts
    }
  }

  predicate OptionsFit(plan: BatchPlan, options: CombineOptions) {
    options.maxAttempts >= 1 && (options.limits.Some? ==> |options.limits.value| == |plan.subBatches|)
  }

  predicate ShareFits(c: ClusterBTE, plan: BatchPlan, d: DecryptionShare) {
    && d.batchID == plan.batchID
    && 0 <= d.subBatch < |plan.subBatches|
    && 0 <= d.operator < c.operators
    && d.share.Some? && d.share.value.I == d.operator
  }

  /** Every share belongs to the plan, and no operator gives two for a sub-batch. */
  predicate Admitted(c: ClusterBTE, plan: BatchPlan, shares: seq<DecryptionShare>) {
    && (forall i :: 0 <= i < |shares| ==> ShareFits(c, plan, shares[i]))
    && (forall i, j :: 0 <= i < j < |shares| ==>
          shares[i].subBatch != shares[j].subBatch || shares[i].operator != shares[j].operator)
  }

  /** The shares for sub-batch k as they came. */
  function SharesFor(shares: seq<DecryptionShare>, k: int): seq<EG.PubShare> {
    if shares == [] then []
    else
      var last := shares[|shares| - 1];
      SharesFor(shares[..|shares| - 1], k) + if last.subBatch == k && last.share.Some? then [last.share.value] else []
  }

  function InsertByIndex(s: seq<EG.PubShare>, d: EG.PubShare): seq<EG.PubShare> {
    if s == [] || s[|s| - 1].I <= d.I then s + [d] else InsertByIndex(s[..|s| - 1], d) + [s[|s| - 1]]
  }

  /** Sorted by operator; the operators differ, so there is one order. */
  function ByIndex(s: seq<EG.PubShare>): seq<EG.PubShare> {
    if s == [] then [] else InsertByIndex(ByIndex(s[..|s| - 1]), s[|s| - 1])
  }

  function SubShares(shares: seq<DecryptionShare>, k: int): seq<EG.PubShare> {
    ByIndex(SharesFor(shares, k))
  }

  predicate Seen(shares: seq<DecryptionShare>, k: int, o: int) {
    exists j :: 0 <= j < |shares| && shares[j].subBatch == k && shares[j].operator == o
  }

  ghost predicate AllSeen(seen: set<(int, int)>, shares: seq<DecryptionShare>) {
    forall k, o :: (k, o) in seen <==> Seen(shares, k, o)
  }

  function Group(grouped: map<int, seq<EG.PubShare>>, k: int): seq<EG.PubShare> {
    if k in grouped then grouped[k] else []
  }

  ghost predicate Grouped(grouped: map<int, seq<EG.PubShare>>, shares: seq<DecryptionShare>) {
    forall k :: Group(grouped, k) == SharesFor(shares, k)
  }

  /** Groups the admissible shares by sub-batch, unless one is inadmissible. */
  method Admit(c: ClusterBTE, plan: BatchPlan, shares: seq<DecryptionShare>)
    returns (r: Option<map<int, seq<EG.PubShare>>>)
    ensures r.Some? <==> Admitted(c, plan, shares)
    ensures r.Some? ==> Grouped(r.value, shares)
  {
    hide Admitted, Seen, AllSeen, Grouped, SharesFor, Group;
    var bySubBatch: map<int, seq<EG.PubShare>> := map[];
    var seenOperators: set<(int, int)> := {};
    NoShares(c, plan);
    assert shares[..0] == [];
    for i := 0 to |shares|
      invariant Admitted(c, plan, shares[..i])
      invariant Grouped(bySubBatch, shares[..i])
      invariant AllSeen(seenOperators, shares[..i])
    {
      var d := shares[i];
      if !ShareFits(c, plan, d) {
        NotAdmitted(c, plan, shares, i);
        return None;
      }
      OneMoreSeen(seenOperators, shares, i);
      if (d.subBatch, d.operator) in seenOperators {
        NotAdmitted(c, plan, shares, i);
        return None;
      }
      OneMoreAdmitted(c, plan, shares, i);
      OneMoreGrouped(bySubBatch, shares, i);
      seenOperators := seenOperators + {(d.subBatch, d.operator)};
      bySubBatch := bySubBatch[d.subBatch := Group(bySubBatch, d.subBatch) + [d.share.value]];
    }
    assert shares[..|shares|] == shares;
    r := Some(bySubBatch);
  }

  lemma NoShares(c: ClusterBTE, plan: BatchPlan)
    ensures Admitted(c, plan, []) && Grouped(map[], []) && AllSeen({}, [])
  {
  }

  lemma NotAdmitted(c: ClusterBTE, plan: BatchPlan, shares: seq<DecryptionShare>, i: nat)
    requires i < |shares|
    requires !ShareFits(c, plan, shares[i]) || Seen(shares[..i], shares[i].subBatch, shares[i].operator)
    ensures !Admitted(c, plan, shares)
  {
    if Seen(shares[..i], shares[i].subBatch, shares[i].operator) {
      var j :| 0 <= j < i && shares[..i][j].subBatch == shares[i].subBatch
               && shares[..i][j].operator == shares[i].operator;
      assert shares[j] == shares[..i][j];
    }
  }

  lemma OneMoreSeen(seen: set<(int, int)>, shares: seq<DecryptionShare>, i: nat)
    requires i < |shares| && AllSeen(seen, shares[..i])
    ensures var d := shares[i];
            && ((d.subBatch, d.operator) in seen <==> Seen(shares[..i], d.subBatch, d.operator))
            && AllSeen(seen + {(d.subBatch, d.operator)}, shares[..i + 1])
  {
    var s, t, d := shares[..i], shares[..i + 1], shares[i];
    assert t == s + [d];
    forall k, o ensures Seen(t, k, o) <==> Seen(s, k, o) || (k == d.subBatch && o == d.operator) {
      if Seen(s, k, o) {
        var j :| 0 <= j < i && s[j].subBatch == k && s[j].operator == o;
        assert t[j] == s[j];
      }
      assert t[i] == d;
    }
  }

  lemma OneMoreAdmitted(c: ClusterBTE, plan: BatchPlan, shares: seq<DecryptionShare>, i: nat)
    requires i < |shares| && Admitted(c, plan, shares[..i]) && ShareFits(c, plan, shares[i])
    requires !Seen(shares[..i], shares[i].subBatch, shares[i].operator)
    ensures Admitted(c, plan, shares[..i + 1])
  {
    hide ShareFits;
    assert forall j :: 0 <= j < i ==> shares[..i + 1][j] == shares[..i][j];
  }

  lemma OneMoreGrouped(grouped: map<int, seq<EG.PubShare>>, shares: seq<DecryptionShare>, i: nat)
    requires i < |shares| && Grouped(grouped, shares[..i]) && shares[i].share.Some?
    ensures var d := shares[i];
            Grouped(grouped[d.subBatch := Group(grouped, d.subBatch) + [d.share.value]], shares[..i + 1])
  {
    var d := shares[i];
    var after := grouped[d.subBatch := Group(grouped, d.subBatch) + [d.share.value]];
    assert shares[..i + 1][..i] == shares[..i];
    forall k ensures Group(after, k) == SharesFor(shares[..i + 1], k) {
      assert Group(grouped, k) == SharesFor(shares[..i], k);
    }
  }

  // ----- all sub-batches -----

  /** The size of the result list: one more than the largest position. */
  function PlanSize(subs: seq<seq<BatchItem>>): nat {
    if subs == [] then 0 else Max(PlanSize(subs[..|subs| - 1]), SizeOf(subs[|subs| - 1]))
  }

  function SizeOf(s: seq<BatchItem>): nat {
    if s == [] then 0 else Max(SizeOf(s[..|s| - 1]), s[|s| - 1].position + 1)
  }

  /** Results by position; a position no sub-batch has stays empty. */
  function Store(results: seq<Option<Bytes>>, got: seq<(nat, Bytes)>): (r: seq<Option<Bytes>>)
    ensures |r| == |results|
  {
    if got == [] then results
    else
      var front := Store(results, got[..|got| - 1]);
      var (p, raw) := got[|got| - 1];
      if p < |front| then front[p := Some(raw)] else front
  }

  datatype Combined = Combined(results: Option<seq<Option<Bytes>>>, attempts: seq<nat>)

  /** The sub-batches from k on, one after the other. */
  function CombineFrom(c: ClusterBTE, plan: BatchPlan, shares: seq<DecryptionShare>, options: CombineOptions,
                       k: nat, results: seq<Option<Bytes>>, attempts: seq<nat>): Combined
    requires c.Sized() && Shamir.IsField() && OptionsFit(plan, options)
    requires k <= |plan.subBatches| == |attempts|
    decreases |plan.subBatches| - k
  {
    if k == |plan.subBatches| then Combined(Some(results), attempts)
    else
      var sub := SubShares(shares, k);
      if |sub| < c.T || options.LimitOf(k) < 1 then Combined(None, attempts)
      else
        var s := SubBatchSearch(c, plan.subBatches[k], sub, options.LimitOf(k));
        if s.out.None? then Combined(None, attempts[k := s.attempts])
        else CombineFrom(c, plan, shares, options, k + 1, Store(results, s.out.value), attempts[k := s.attempts])
  }

  function Zeros(n: nat): seq<nat> {
    seq(n, _ => 0)
  }

  function Blank(n: nat): seq<Option<Bytes>> {
    seq(n, _ => None)
  }

  function CombineBounded(c: ClusterBTE, plan: BatchPlan, shares: seq<DecryptionShare>, options: CombineOptions)
    : Combined
    requires c.Sized() && Shamir.IsField()
  {
    if !OptionsFit(plan, options) || !Admitted(c, plan, shares) then Combined(None, Zeros(|plan.subBatches|))
    else CombineFrom(c, plan, shares, options, 0, Blank(PlanSize(plan.subBatches)), Zeros(|plan.subBatches|))
  }

  method CombineSharesBounded(c: ClusterBTE, plan: BatchPlan, shares: seq<DecryptionShare>, options: CombineOptions)
    returns (results: Option<seq<Option<Bytes>>>, attempts: seq<nat>)
    requires c.Sized() && Shamir.IsField()
    ensures Combined(results, attempts) == CombineBounded(c, plan, shares, options)
  {
    hide SubBatchSearch, PlanSize, SharesFor, Admitted, Blank;
    attempts := Zeros(|plan.subBatches|);
    if options.maxAttempts < 1 {
      return None, attempts;
    }
    if options.limits.Some? && |options.limits.value| != |plan.subBatches| {
      return None, attempts;
    }
    var bySubBatch := Admit(c, plan, shares);
    if bySubBatch.None? {
      return None, attempts;
    }
    var out := Blank(PlanSize(plan.subBatches));
    for k := 0 to |plan.subBatches|
      invariant |attempts| == |plan.subBatches|
      invariant CombineBounded(c, plan, shares, options) == CombineFrom(c, plan, shares, options, k, out, attempts)
    {
      assert Group(bySubBatch.value, k) == SharesFor(shares, k);
      var subShares := Group(bySubBatch.value, k);
      SortKeeps(subShares);
      if |subShares| < c.T {
        return None, attempts;
      }
      subShares := ByIndex(subShares);
      var limit := options.LimitOf(k);
      if limit < 1 {
        return None, attempts;
      }
      var got, tried := CombineSubBatch(c, plan.subBatches[k], subShares, limit);
      attempts := attempts[k := tried];
      if got.None? {
        return None, attempts;
      }
      out := StoreAll(out, got.value);
    }
    results := Some(out);
  }

  method StoreAll(results: seq<Option<Bytes>>, got: seq<(nat, Bytes)>) returns (r: seq<Option<Bytes>>)
    ensures r == Store(results, got)
  {
    r := results;
    for i := 0 to |got|
      invariant r == Store(results, got[..i])
    {
      assert got[..i + 1][..i] == got[..i];
      var (p, raw) := got[i];
      if p < |r| {
        r := r[p := Some(raw)];
      }
    }
    assert got[..|got|] == got;
  }

  lemma {:induction false} InsertKeeps(s: seq<EG.PubShare>, d: EG.PubShare)
    ensures |InsertByIndex(s, d)| == |s| + 1 && multiset(InsertByIndex(s, d)) == multiset(s) + multiset{d}
  {
    if s != [] && s[|s| - 1].I > d.I {
      InsertKeeps(s[..|s| - 1], d);
      assert s == s[..|s| - 1] + [s[|s| - 1]];
    }
  }

  lemma {:induction false} SortKeeps(s: seq<EG.PubShare>)
    ensures |ByIndex(s)| == |s| && multiset(ByIndex(s)) == multiset(s)
  {
    if s != [] {
      SortKeeps(s[..|s| - 1]);
      InsertKeeps(ByIndex(s[..|s| - 1]), s[|s| - 1]);
      assert s == s[..|s| - 1] + [s[|s| - 1]];
    }
  }

  predicate Ascends(s: seq<EG.PubShare>) {
    forall i, j :: 0 <= i < j < |s| ==> s[i].I <= s[j].I
  }

  lemma {:induction false} InsertAscends(s: seq<EG.PubShare>, d: EG.PubShare)
    requires Ascends(s)
    ensures Ascends(InsertByIndex(s, d))
    ensures forall x :: x in InsertByIndex(s, d) ==> x in s || x == d
  {
    if s != [] && s[|s| - 1].I > d.I {
      var front, last := s[..|s| - 1], s[|s| - 1];
      InsertAscends(front, d);
      var t := InsertByIndex(front, d);
      forall i | 0 <= i < |t| ensures t[i].I <= last.I {
        assert t[i] in t;
      }
    }
  }

  /** The sort puts the shares in the order of their operators. */
  lemma {:induction false} SortAscends(s: seq<EG.PubShare>)
    ensures Ascends(ByIndex(s))
  {
    if s != [] {
      SortAscends(s[..|s| - 1]);
      InsertAscends(ByIndex(s[..|s| - 1]), s[|s| - 1]);
    }
  }

  lemma PositionOf(s: seq<EG.PubShare>, x: EG.PubShare) returns (i: nat)
    requires multiset(s)[x] > 0
    ensures i < |s| && s[i] == x
  {
    assert x in s;
    i :| 0 <= i < |s| && s[i] == x;
  }

  lemma SameLast(s: seq<EG.PubShare>, t: seq<EG.PubShare>)
    requires s != [] && t != [] && Ascends(s) && Ascends(t) && multiset(s) == multiset(t)
    requires forall i, j :: 0 <= i < j < |s| ==> s[i].I != s[j].I
    ensures s[|s| - 1] == t[|t| - 1]
  {
    assert s[|s| - 1] in s && t[|t| - 1] in t;
    var i := PositionOf(s, t[|t| - 1]);
    var j := PositionOf(t, s[|s| - 1]);
  }

  lemma FrontAscends(s: seq<EG.PubShare>)
    requires s != [] && Ascends(s)
    ensures Ascends(s[..|s| - 1]) && s == s[..|s| - 1] + [s[|s| - 1]]
    ensures multiset(s) == multiset(s[..|s| - 1]) + multiset{s[|s| - 1]}
  {
    assert s == s[..|s| - 1] + [s[|s| - 1]];
  }

  /** There is one such order: shares of different operators that ascend are the sorted list. */
  lemma {:induction false} OneOrder(s: seq<EG.PubShare>, t: seq<EG.PubShare>)
    requires |s| == |t| && Ascends(s) && Ascends(t) && multiset(s) == multiset(t)
    requires forall i, j :: 0 <= i < j < |s| ==> s[i].I != s[j].I
    ensures s == t
  {
    hide Ascends;
    if s != [] {
      SameLast(s, t);
      FrontAscends(s);
      FrontAscends(t);
      SameWithout(multiset(s[..|s| - 1]), multiset(t[..|t| - 1]), s[|s| - 1]);
      OneOrder(s[..|s| - 1], t[..|t| - 1]);
    }
  }

  lemma SameWithout(a: multiset<EG.PubShare>, b: multiset<EG.PubShare>, x: EG.PubShare)
    requires a + multiset{x} == b + multiset{x}
    ensures a == b
  {
    assert a == (a + multiset{x}) - multiset{x};
    assert b == (b + multiset{x}) - multiset{x};
  }

  // ----- work -----

  lemma {:induction false} FromIsBounded(c: ClusterBTE, plan: BatchPlan, shares: seq<DecryptionShare>,
                                         options: CombineOptions, k: nat, results: seq<Option<Bytes>>,
                                         attempts: seq<nat>, i: nat)
    requires c.Sized() && Shamir.IsField() && OptionsFit(plan, options) && i < |attempts|
    requires k <= |plan.subBatches| == |attempts|
    requires attempts[i] == 0 || attempts[i] <= options.LimitOf(i)
    ensures var r := CombineFrom(c, plan, shares, options, k, results, attempts).attempts;
            |r| == |attempts| && (r[i] == 0 || r[i] <= options.LimitOf(i))
    decreases |plan.subBatches| - k
  {
    hide SubShares;
    if k < |plan.subBatches| && |SubShares(shares, k)| >= c.T && options.LimitOf(k) >= 1 {
      var sub := SubShares(shares, k);
      SearchIsBounded(Attempt(c, plan.subBatches[k], sub), options.LimitOf(k), Visited(|sub|, c.T), 0);
      var s := SubBatchSearch(c, plan.subBatches[k], sub, options.LimitOf(k));
      if s.out.Some? {
        FromIsBounded(c, plan, shares, options, k + 1, Store(results, s.out.value), attempts[k := s.attempts], i);
      }
    }
  }

  /** No sub-batch is given more attempts than its limit, whether or not the combination succeeds. */
  lemma WorkIsBounded(c: ClusterBTE, plan: BatchPlan, shares: seq<DecryptionShare>, options: CombineOptions, i: nat)
    requires c.Sized() && Shamir.IsField() && OptionsFit(plan, options) && i < |plan.subBatches|
    ensures var r := CombineBounded(c, plan, shares, options).attempts;
            |r| == |plan.subBatches| && (r[i] == 0 || r[i] <= options.LimitOf(i))
  {
    hide CombineFrom, Admitted, PlanSize;
    FromIsBounded(c, plan, shares, options, 0, Blank(PlanSize(plan.subBatches)), Zeros(|plan.subBatches|), i);
  }
}
