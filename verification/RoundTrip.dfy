/** From transactions to ciphertexts to a plan to shares and back: every transaction comes out at its place. */
module RoundTrip {
  import opened Options
  import opened Bytes
  import opened Zq
  import opened Groups
  import EG = ElGamal
  import Prf
  import Shamir
  import opened Btd
  import opened BtdDecryption
  import opened Wire
  import opened Arrange
  import opened Planner
  import opened Subsets
  import opened Cluster
  import opened Combine

  datatype Tx = Tx(raw: Bytes, index: int, draw: Draw)

  /** A cluster over a reference string and a key shared among its operators, and the transactions given to it. */
  datatype World = World(c: ClusterBTE, d: Prf.Trapdoor, key: EG.Sharing, txs: seq<Tx>) {
    ghost predicate Sound() {
      && Shamir.IsField() && c.Sized() && c.btd.Sound(d) && c.lib.Lawful()
      && key.Sound(c.T) && key.n == c.operators && c.btd.PK == key.PublicKey()
      && 0 < |txs| <= c.bMax
      && forall i :: 0 <= i < |txs| ==> 0 <= txs[i].index < c.btd.B && |txs[i].draw.nonce| == AEAD_NONCE_SIZE
    }
  }

  // ----- encryption -----

  lemma Encrypts(w: World, i: nat)
    requires w.Sound() && i < |w.txs|
    ensures EncryptTx(w.c, w.txs[i].raw, w.txs[i].index, w.txs[i].draw).Some?
    ensures var t := w.txs[i];
            var ct := EncryptTx(w.c, t.raw, t.index, t.draw).value;
            && ValidShape(w.c.domain, ct)
            && VerifyCT(w.c.btd, ct.capsule) == Some(true)
            && Hides(w.c.btd, ct.capsule, t.draw.coins.k, t.draw.coins.u, t.draw.secret)
  {
    hide VerifyCT, Hides, Enc;
    var t := w.txs[i];
    EncVerifies(w.c.btd, t.index, t.draw.secret, t.draw.coins);
  }

  function CiphertextOf(w: World, i: nat): Ciphertext
    requires w.c.Sized() && i < |w.txs|
  {
    var ct := EncryptTx(w.c, w.txs[i].raw, w.txs[i].index, w.txs[i].draw);
    if ct.Some? then ct.value else Ciphertext(CT(0, GT(0), G1(0), EG.NullCT, Proof(G1(0), G1(0), G1(0), 0, 0)), [])
  }

  function Ciphertexts(w: World): (r: seq<Ciphertext>)
    requires w.c.Sized()
    ensures |r| == |w.txs| && forall i :: 0 <= i < |r| ==> r[i] == CiphertextOf(w, i)
  {
    seq(|w.txs|, i requires 0 <= i < |w.txs| => CiphertextOf(w, i))
  }

  /** The secret with which a transaction was sealed opens it. */
  lemma OpensToRaw(w: World, i: nat)
    requires w.Sound() && i < |w.txs|
    ensures DecryptTx(w.c, w.txs[i].draw.secret, CiphertextOf(w, i)) == Some(w.txs[i].raw)
  {
    hide Enc;
    Encrypts(w, i);
    var t := w.txs[i];
    var ct := CiphertextOf(w, i);
    var sealed := w.c.lib.seal(t.draw.secret, Digest(w.c, ct.capsule), t.draw.nonce, t.raw);
    assert ct.encryptedTx[..AEAD_NONCE_SIZE] == t.draw.nonce && ct.encryptedTx[AEAD_NONCE_SIZE..] == sealed;
  }

  // ----- the plan -----

  /** Items that carry the ciphertexts under their positions, few enough and without a repeated index. */
  ghost predicate Faithful(w: World, items: seq<BatchItem>)
    requires w.c.Sized()
  {
    && |items| <= |w.txs| && DistinctIn(items)
    && forall j :: 0 <= j < |items| ==> items[j].position < |w.txs| && items[j].ct == CiphertextOf(w, items[j].position)
  }

  lemma {:induction false} PartOfTotal(subs: seq<seq<BatchItem>>, k: nat, j: nat)
    requires k < |subs| && j < |subs[k]|
    ensures subs[k][j] in Total(subs) && |subs[k]| <= |Total(subs)|
  {
    if k < |subs| - 1 { PartOfTotal(subs[..|subs| - 1], k, j); }
  }

  lemma {:induction false} FindInTotal(subs: seq<seq<BatchItem>>, it: BatchItem) returns (k: nat)
    requires it in Total(subs)
    ensures k < |subs| && it in subs[k]
  {
    k := |subs| - 1;
    if it !in subs[k] { k := FindInTotal(subs[..k], it); }
  }

  lemma ItemFaithful(w: World, subs: seq<seq<BatchItem>>, k: nat, j: nat)
    requires w.Sound() && Total(subs) == multiset(ItemsOf(Ciphertexts(w))) && k < |subs| && j < |subs[k]|
    ensures |subs[k]| <= |w.txs|
    ensures subs[k][j].position < |w.txs| && subs[k][j].ct == CiphertextOf(w, subs[k][j].position)
  {
    hide CiphertextOf, Total;
    var all := ItemsOf(Ciphertexts(w));
    PartOfTotal(subs, k, j);
    assert |multiset(all)| == |all|;
    var i :| 0 <= i < |all| && all[i] == subs[k][j];
  }

  lemma SubBatchFaithful(w: World, subs: seq<seq<BatchItem>>, k: nat)
    requires w.Sound() && Total(subs) == multiset(ItemsOf(Ciphertexts(w))) && AllDistinct(subs)
    requires k < |subs|
    ensures Faithful(w, subs[k])
  {
    hide CiphertextOf, Total, DistinctIn;
    if subs[k] != [] {
      ItemFaithful(w, subs, k, 0);
    }
    forall j | 0 <= j < |subs[k]|
      ensures subs[k][j].position < |w.txs| && subs[k][j].ct == CiphertextOf(w, subs[k][j].position)
    {
      ItemFaithful(w, subs, k, j);
    }
  }

  lemma Positions(w: World, items: seq<BatchItem>)
    requires w.c.Sized() && Faithful(w, items)
    ensures forall j :: 0 <= j < |items| ==> items[j].position < |w.txs|
  {
  }

  // ----- one sub-batch -----

  function OpeningsOf(w: World, items: seq<BatchItem>): seq<Opening>
    requires forall j :: 0 <= j < |items| ==> items[j].position < |w.txs|
  {
    seq(|items|, j requires 0 <= j < |items| =>
      var draw := w.txs[items[j].position].draw; Opening(draw.coins.k, draw.coins.u, draw.secret))
  }

  /** What the sub-batch has to give. */
  function Expected(w: World, items: seq<BatchItem>): seq<(nat, Bytes)>
    requires forall j :: 0 <= j < |items| ==> items[j].position < |w.txs|
  {
    seq(|items|, j requires 0 <= j < |items| => (items[j].position, w.txs[items[j].position].raw))
  }

  lemma CapsulesAdmissible(w: World, items: seq<BatchItem>)
    requires w.Sound() && Faithful(w, items)
    ensures Admissible(w.c.btd, Capsules(items), true)
    ensures Opens(w.c.btd, Capsules(items), OpeningsOf(w, items))
  {
    hide VerifyCT, Hides, CiphertextOf;
    forall j | 0 <= j < |items|
      ensures VerifyCT(w.c.btd, Capsules(items)[j]) == Some(true)
      ensures var o := OpeningsOf(w, items)[j]; Hides(w.c.btd, Capsules(items)[j], o.k, o.u, o.m)
    {
      EncryptedAt(w, items[j].position);
    }
    assert forall j :: 0 <= j < |items| ==> Indices(Capsules(items))[j] == Idx(items[j]);
  }

  lemma EncryptedAt(w: World, i: nat)
    requires w.Sound() && i < |w.txs|
    ensures var draw := w.txs[i].draw;
            && ValidShape(w.c.domain, CiphertextOf(w, i))
            && VerifyCT(w.c.btd, CiphertextOf(w, i).capsule) == Some(true)
            && Hides(w.c.btd, CiphertextOf(w, i).capsule, draw.coins.k, draw.coins.u, draw.secret)
  {
    hide VerifyCT, Hides, EncryptTx;
    Encrypts(w, i);
  }

  ghost predicate Right(w: World, items: seq<BatchItem>, s: EG.PubShare) {
    s.I < w.key.n && s == EG.PDecWithShare(SumOf(Capsules(items)), w.key.ShareOf(s.I))
  }

  /** What operator o makes for a sub-batch that carries the transactions is the one share that is right of it. */
  lemma SharesAreRight(w: World, plan: BatchPlan, k: nat, o: nat)
    requires w.Sound() && k < |plan.subBatches| && Faithful(w, plan.subBatches[k]) && o < w.key.n
    ensures var d := ShareOf(w.c, SecretShare(o, w.key.ShareOf(o)), plan, k);
            && d.Some? && d.value.share.Some? && Right(w, plan.subBatches[k], d.value.share.value)
            && d.value == DecryptionShare(o, plan.batchID, k, d.value.share) && d.value.share.value.I == o
            && forall s :: Right(w, plan.subBatches[k], s) && s.I == o ==> s == d.value.share.value
  {
    hide Faithful, Capsules;
    CapsulesAdmissible(w, plan.subBatches[k]);
  }

  /** Opening succeeds with the right secret only, for the secrets in question: the idealization of
      authenticated encryption on which the search for good shares rests. */
  ghost predicate OnlyRightOpens(w: World, items: seq<BatchItem>, msgs: seq<GT>) {
    |items| == |msgs| && forall j :: 0 <= j < |items| ==>
      items[j].position < |w.txs| &&
      (DecryptTx(w.c, msgs[j], items[j].ct).Some? ==> msgs[j] == w.txs[items[j].position].draw.secret)
  }

  /** The same for the secrets one subset of the shares leads to. */
  ghost predicate Unforged(w: World, items: seq<BatchItem>, shares: seq<EG.PubShare>, indices: seq<nat>)
    requires w.c.Sized() && Shamir.IsField()
  {
    var candidate := Pick(shares, indices);
    candidate.Some? ==>
      var msgs := BatchCombine(w.c.btd, Capsules(items), candidate.value, true);
      msgs.Some? && |msgs.value| == |items| ==> OnlyRightOpens(w, items, msgs.value)
  }

  lemma {:induction false} DecryptsToExpected(w: World, items: seq<BatchItem>, msgs: seq<GT>, n: nat)
    requires w.Sound() && Faithful(w, items) && n <= |items| == |msgs| && OnlyRightOpens(w, items, msgs)
    ensures var r := DecryptAll(w.c, items, msgs, n);
            r.Some? ==> r == Some(Expected(w, items)[..n])
    ensures (forall j :: 0 <= j < n ==> msgs[j] == OpeningsOf(w, items)[j].m) ==> DecryptAll(w.c, items, msgs, n).Some?
  {
    hide DecryptTx, CiphertextOf;
    if n > 0 {
      DecryptsToExpected(w, items, msgs, n - 1);
      OpensToRaw(w, items[n - 1].position);
      assert Expected(w, items)[..n] == Expected(w, items)[..n - 1] + [Expected(w, items)[n - 1]];
    }
  }

  /** Whatever subset succeeds, good shares or bad, gives what is expected. */
  lemma SuccessIsRight(w: World, items: seq<BatchItem>, shares: seq<EG.PubShare>, indices: seq<nat>)
    requires w.Sound() && Faithful(w, items) && Unforged(w, items, shares, indices)
    ensures var r := Try(w.c, items, shares, indices);
            r.Some? ==> r == Some(Expected(w, items))
  {
    hide BatchCombine, DecryptAll, Faithful, Pick, OnlyRightOpens;
    Positions(w, items);
    var candidate := Pick(shares, indices);
    if candidate.Some? {
      var msgs := BatchCombine(w.c.btd, Capsules(items), candidate.value, true);
      if msgs.Some? && |msgs.value| == |items| {
        DecryptsToExpected(w, items, msgs.value, |items|);
        assert Expected(w, items)[..|items|] == Expected(w, items);
      }
    }
  }

  lemma SecretsAreRight(w: World, items: seq<BatchItem>)
    requires w.c.Sized() && Faithful(w, items)
    ensures OnlyRightOpens(w, items, Messages(OpeningsOf(w, items)))
  {
    hide DecryptTx, CiphertextOf;
  }

  /** A threshold of right shares of distinct operators succeeds. */
  lemma RightSucceeds(w: World, items: seq<BatchItem>, shares: seq<EG.PubShare>, indices: seq<nat>)
    requires w.Sound() && Faithful(w, items)
    requires |indices| == w.c.T && Increasing(indices, 0, |shares|)
    requires forall j :: 0 <= j < |indices| ==> Right(w, items, shares[indices[j]])
    requires forall i, j :: 0 <= i < j < |shares| ==> shares[i].I != shares[j].I
    ensures Try(w.c, items, shares, indices) == Some(Expected(w, items))
  {
    hide BatchCombine, DecryptAll, Faithful, Opens, Admissible, SumOf, OnlyRightOpens;
    Positions(w, items);
    var candidate := Pick(shares, indices).value;
    CapsulesAdmissible(w, items);
    assert EG.Correct(w.key, SumOf(Capsules(items)), candidate);
    BatchDecrypts(w.c.btd, w.d, w.key, w.c.T, Capsules(items), OpeningsOf(w, items), candidate);
    SecretsAreRight(w, items);
    DecryptsToExpected(w, items, Messages(OpeningsOf(w, items)), |items|);
    assert Expected(w, items)[..|items|] == Expected(w, items);
  }

  // ----- enough right shares -----

  ghost function CountRight(w: World, items: seq<BatchItem>, shares: seq<EG.PubShare>): nat {
    if shares == [] then 0
    else CountRight(w, items, shares[..|shares| - 1]) + if Right(w, items, shares[|shares| - 1]) then 1 else 0
  }

  lemma {:induction false} InsertCounts(w: World, items: seq<BatchItem>, s: seq<EG.PubShare>, d: EG.PubShare)
    ensures CountRight(w, items, InsertByIndex(s, d)) == CountRight(w, items, s) + if Right(w, items, d) then 1 else 0
  {
    hide Right;
    if s == [] || s[|s| - 1].I <= d.I {
      assert (s + [d])[..|s|] == s;
    } else {
      var r := s[..|s| - 1];
      InsertCounts(w, items, r, d);
      assert InsertByIndex(s, d)[..|InsertByIndex(r, d)|] == InsertByIndex(r, d);
    }
  }

  lemma {:induction false} SortCounts(w: World, items: seq<BatchItem>, s: seq<EG.PubShare>)
    ensures CountRight(w, items, ByIndex(s)) == CountRight(w, items, s)
  {
    hide Right, InsertByIndex;
    if s != [] {
      SortCounts(w, items, s[..|s| - 1]);
      InsertCounts(w, items, ByIndex(s[..|s| - 1]), s[|s| - 1]);
    }
  }

  /** Positions of t right shares, in order. */
  lemma {:induction false} ChooseRight(w: World, items: seq<BatchItem>, s: seq<EG.PubShare>, t: nat)
    returns (c: seq<nat>)
    requires CountRight(w, items, s) >= t
    ensures |c| == t && Increasing(c, 0, |s|) && forall j :: 0 <= j < t ==> Right(w, items, s[c[j]])
    decreases |s|
  {
    hide Right;
    var n := |s| - 1;
    if t == 0 {
      c := [];
    } else if Right(w, items, s[n]) {
      c := ChooseRight(w, items, s[..n], t - 1);
      assert forall j :: 0 <= j < t - 1 ==> s[..n][c[j]] == s[c[j]];
      c := c + [n];
    } else {
      c := ChooseRight(w, items, s[..n], t);
      assert forall j :: 0 <= j < t ==> s[..n][c[j]] == s[c[j]];
    }
  }

  ghost predicate DistinctShares(s: seq<EG.PubShare>) {
    forall i, j :: 0 <= i < j < |s| ==> s[i].I != s[j].I
  }

  lemma {:induction false} InsertDistinct(s: seq<EG.PubShare>, d: EG.PubShare)
    requires DistinctShares(s) && forall i :: 0 <= i < |s| ==> s[i].I != d.I
    ensures DistinctShares(InsertByIndex(s, d))
    ensures forall x :: x in InsertByIndex(s, d) ==> x in s || x == d
  {
    if s != [] && s[|s| - 1].I > d.I {
      var r := s[..|s| - 1];
      InsertDistinct(r, d);
      var t := InsertByIndex(r, d);
      forall i | 0 <= i < |t| ensures t[i].I != s[|s| - 1].I {
        assert t[i] in t;
        if t[i] != d {
          var j :| 0 <= j < |r| && r[j] == t[i];
        }
      }
    }
  }

  lemma {:induction false} SortDistinct(s: seq<EG.PubShare>)
    requires DistinctShares(s)
    ensures DistinctShares(ByIndex(s)) && forall x :: x in ByIndex(s) ==> x in s
  {
    hide InsertByIndex;
    if s != [] {
      var r, last := s[..|s| - 1], s[|s| - 1];
      SortDistinct(r);
      forall i | 0 <= i < |ByIndex(r)| ensures ByIndex(r)[i].I != last.I {
        assert ByIndex(r)[i] in r;
        var j :| 0 <= j < |r| && r[j] == ByIndex(r)[i];
        assert s[j] == r[j];
      }
      InsertDistinct(ByIndex(r), last);
    }
  }

  /** Admission leaves one share per operator and sub-batch. */
  lemma {:induction false} AdmittedDistinct(c: ClusterBTE, plan: BatchPlan, shares: seq<DecryptionShare>, k: int)
    requires Admitted(c, plan, shares)
    ensures DistinctShares(SharesFor(shares, k))
    ensures forall x :: x in SharesFor(shares, k) ==>
              exists i :: 0 <= i < |shares| && shares[i].subBatch == k && shares[i].share == Some(x)
  {
    if shares != [] {
      var n := |shares| - 1;
      AdmittedDistinct(c, plan, shares[..n], k);
      var front := SharesFor(shares[..n], k);
      forall x | x in front
        ensures exists i :: 0 <= i < n && shares[i].subBatch == k && shares[i].share == Some(x)
      {
        var i :| 0 <= i < n && shares[..n][i].subBatch == k && shares[..n][i].share == Some(x);
        assert shares[i] == shares[..n][i];
      }
      forall i | 0 <= i < |front| && shares[n].subBatch == k ensures front[i].I != shares[n].operator {
        assert front[i] in front;
        var j :| 0 <= j < n && shares[j].subBatch == k && shares[j].share == Some(front[i]);
      }
    }
  }

  // ----- the search succeeds -----

  lemma SearchDelivers(w: World, items: seq<BatchItem>, sub: seq<EG.PubShare>, limit: int)
    requires w.Sound() && Faithful(w, items) && DistinctShares(sub)
    requires CountRight(w, items, sub) >= w.c.T && limit >= Binomial(|sub|, w.c.T)
    requires forall indices :: |indices| == w.c.T && Increasing(indices, 0, |sub|) ==> Unforged(w, items, sub, indices)
    ensures |sub| >= w.c.T && limit >= 1
    ensures SubBatchSearch(w.c, items, sub, limit).out == Some(Expected(w, items))
  {
    hide Faithful, Right, Try, Binomial, CountRight, Unforged, Increasing;
    var t := w.c.T;
    Positions(w, items);
    var c := ChooseRight(w, items, sub, t);
    RightSucceeds(w, items, sub, c);
    ChoiceFits(c, |sub|);
    var at := CombinationsComplete(0, |sub|, c);
    CombinationsCount(0, |sub|, t);
    var cs := Combinations(0, |sub|, t);
    var attempt := Attempt(w.c, items, sub);
    assert attempt(cs[at]).Some?;
    var i := SomeFirst(attempt, cs, at);
    SearchFindsFirst(attempt, limit, cs, 0, i);
    CombinationsSound(0, |sub|, t, i);
    SuccessIsRight(w, items, sub, cs[i]);
  }

  lemma {:induction false} ChoiceFits(c: seq<nat>, n: nat)
    requires Increasing(c, 0, n)
    ensures |c| <= n
  {
    if c != [] { Ceiling(c, n, 0); }
  }

  // ----- the results -----

  /** What is stored is right. */
  ghost predicate Honest(w: World, results: seq<Option<Bytes>>) {
    |results| == |w.txs| && forall p :: 0 <= p < |results| ==> results[p].None? || results[p] == Some(w.txs[p].raw)
  }

  lemma {:induction false} StoreDelivers(w: World, results: seq<Option<Bytes>>, items: seq<BatchItem>, n: nat)
    requires Honest(w, results) && n <= |items| && forall j :: 0 <= j < |items| ==> items[j].position < |w.txs|
    ensures var r := Store(results, Expected(w, items)[..n]);
            && Honest(w, r)
            && (forall j :: 0 <= j < n ==> r[items[j].position].Some?)
            && (forall p :: 0 <= p < |results| && results[p].Some? ==> r[p].Some?)
  {
    if n > 0 {
      StoreDelivers(w, results, items, n - 1);
      assert Expected(w, items)[..n][..n - 1] == Expected(w, items)[..n - 1];
    }
  }

  ghost predicate Delivered(results: seq<Option<Bytes>>, items: seq<BatchItem>) {
    forall j :: 0 <= j < |items| ==> items[j].position < |results| && results[items[j].position].Some?
  }

  /** Enough right shares and room in the budget, for every sub-batch; other shares may be anything admissible
      from which no secret results that opens a payload it did not seal. */
  ghost predicate Enough(w: World, plan: BatchPlan, shares: seq<DecryptionShare>, options: CombineOptions)
    requires w.c.Sized() && Shamir.IsField()
  {
    && Admitted(w.c, plan, shares) && OptionsFit(plan, options)
    && forall k :: 0 <= k < |plan.subBatches| ==>
         && CountRight(w, plan.subBatches[k], SharesFor(shares, k)) >= w.c.T
         && options.LimitOf(k) >= Binomial(|SharesFor(shares, k)|, w.c.T)
         && forall indices :: |indices| == w.c.T && Increasing(indices, 0, |SubShares(shares, k)|) ==>
              Unforged(w, plan.subBatches[k], SubShares(shares, k), indices)
  }

  lemma OneSubBatch(w: World, plan: BatchPlan, shares: seq<DecryptionShare>, options: CombineOptions, k: nat)
    requires w.Sound() && Enough(w, plan, shares, options) && k < |plan.subBatches|
    requires Faithful(w, plan.subBatches[k])
    ensures |SubShares(shares, k)| >= w.c.T && options.LimitOf(k) >= 1
    ensures SubBatchSearch(w.c, plan.subBatches[k], SubShares(shares, k), options.LimitOf(k)).out ==
              Some(Expected(w, plan.subBatches[k]))
  {
    hide Faithful, Admitted, Right, Binomial, CountRight, SubBatchSearch, Unforged, Increasing;
    Positions(w, plan.subBatches[k]);
    var sub := SharesFor(shares, k);
    AdmittedDistinct(w.c, plan, shares, k);
    SortDistinct(sub);
    SortKeeps(sub);
    SortCounts(w, plan.subBatches[k], sub);
    SearchDelivers(w, plan.subBatches[k], ByIndex(sub), options.LimitOf(k));
  }

  lemma {:induction false} FromDelivers(w: World, plan: BatchPlan, shares: seq<DecryptionShare>,
                                        options: CombineOptions, k: nat, results: seq<Option<Bytes>>,
                                        attempts: seq<nat>)
    requires w.Sound() && Enough(w, plan, shares, options) && k <= |plan.subBatches| == |attempts|
    requires forall i :: 0 <= i < |plan.subBatches| ==> Faithful(w, plan.subBatches[i])
    requires Honest(w, results) && forall i :: 0 <= i < k ==> Delivered(results, plan.subBatches[i])
    ensures var r := CombineFrom(w.c, plan, shares, options, k, results, attempts).results;
            && r.Some? && Honest(w, r.value)
            && forall i :: 0 <= i < |plan.subBatches| ==> Delivered(r.value, plan.subBatches[i])
    decreases |plan.subBatches| - k
  {
    hide Faithful, Admitted, CountRight, Binomial, SubBatchSearch, SharesFor, SubShares, Unforged, Increasing;
    if k < |plan.subBatches| {
      var items := plan.subBatches[k];
      OneSubBatch(w, plan, shares, options, k);
      Positions(w, items);
      StoreDelivers(w, results, items, |items|);
      assert Expected(w, items)[..|items|] == Expected(w, items);
      var s := SubBatchSearch(w.c, items, SubShares(shares, k), options.LimitOf(k));
      FromDelivers(w, plan, shares, options, k + 1, Store(results, Expected(w, items)), attempts[k := s.attempts]);
    }
  }

  /** As many operators whose shares are among them and right, so many right shares are counted. */
  lemma {:induction false} OperatorsCount(w: World, items: seq<BatchItem>, s: seq<EG.PubShare>, honest: set<nat>)
    requires forall o :: o in honest ==> exists i :: 0 <= i < |s| && s[i].I == o && Right(w, items, s[i])
    ensures |honest| <= CountRight(w, items, s)
    decreases |s|
  {
    hide Right;
    if s == [] {
      assert honest == {};
    } else {
      var n := |s| - 1;
      var rest := if Right(w, items, s[n]) then honest - {s[n].I} else honest;
      forall o | o in rest ensures exists i :: 0 <= i < n && s[..n][i].I == o && Right(w, items, s[..n][i]) {
        var i :| 0 <= i < |s| && s[i].I == o && Right(w, items, s[i]);
        assert s[..n][i] == s[i];
      }
      OperatorsCount(w, items, s[..n], rest);
    }
  }

  /** The share made by operator o for sub-batch k is among them. */
  ghost predicate Contributes(w: World, plan: BatchPlan, shares: seq<DecryptionShare>, k: nat, o: nat)
    requires w.c.Sized()
  {
    var d := ShareOf(w.c, SecretShare(o, w.key.ShareOf(o)), plan, k);
    o < w.key.n && d.Some? && d.value in shares
  }

  lemma {:induction false} InSharesFor(shares: seq<DecryptionShare>, d: DecryptionShare)
    requires d in shares && d.share.Some?
    ensures d.share.value in SharesFor(shares, d.subBatch)
  {
    var n := |shares| - 1;
    if d in shares[..n] {
      InSharesFor(shares[..n], d);
    } else {
      assert d == shares[n];
    }
  }

  /** Sub-batches to which t operators have contributed have enough right shares. */
  lemma OperatorsSuffice(w: World, plan: BatchPlan, shares: seq<DecryptionShare>, k: nat, honest: set<nat>)
    requires w.Sound() && k < |plan.subBatches| && Faithful(w, plan.subBatches[k])
    requires |honest| >= w.c.T && forall o :: o in honest ==> Contributes(w, plan, shares, k, o)
    ensures CountRight(w, plan.subBatches[k], SharesFor(shares, k)) >= w.c.T
  {
    hide Faithful, CountRight, SharesFor, Right, Cluster.ShareOf;
    var items := plan.subBatches[k];
    forall o | o in honest
      ensures exists i :: 0 <= i < |SharesFor(shares, k)| && SharesFor(shares, k)[i].I == o
                && Right(w, items, SharesFor(shares, k)[i])
    {
      assert Contributes(w, plan, shares, k, o);
      SharesAreRight(w, plan, k, o);
      var d := Cluster.ShareOf(w.c, SecretShare(o, w.key.ShareOf(o)), plan, k).value;
      InSharesFor(shares, d);
      var i :| 0 <= i < |SharesFor(shares, k)| && SharesFor(shares, k)[i] == d.share.value;
    }
    OperatorsCount(w, items, SharesFor(shares, k), honest);
  }

  // ----- the whole way -----

  lemma {:induction false} SizeBound(s: seq<BatchItem>, n: nat)
    requires forall j :: 0 <= j < |s| ==> s[j].position < n
    ensures SizeOf(s) <= n
  {
    if s != [] { SizeBound(s[..|s| - 1], n); }
  }

  lemma {:induction false} SizeReaches(s: seq<BatchItem>, j: nat)
    requires j < |s|
    ensures SizeOf(s) > s[j].position
  {
    if j < |s| - 1 { SizeReaches(s[..|s| - 1], j); }
  }

  lemma {:induction false} PlanSizeBound(subs: seq<seq<BatchItem>>, n: nat)
    requires forall k, j :: 0 <= k < |subs| && 0 <= j < |subs[k]| ==> subs[k][j].position < n
    ensures PlanSize(subs) <= n
  {
    if subs != [] {
      PlanSizeBound(subs[..|subs| - 1], n);
      SizeBound(subs[|subs| - 1], n);
    }
  }

  lemma {:induction false} PlanSizeReaches(subs: seq<seq<BatchItem>>, k: nat, j: nat)
    requires k < |subs| && j < |subs[k]|
    ensures PlanSize(subs) > subs[k][j].position
  {
    if k < |subs| - 1 {
      PlanSizeReaches(subs[..|subs| - 1], k, j);
    } else {
      SizeReaches(subs[k], j);
    }
  }

  /** Where the plan has the ciphertext of position p. */
  lemma PlanHas(w: World, subs: seq<seq<BatchItem>>, p: nat) returns (k: nat, j: nat)
    requires w.Sound() && Total(subs) == multiset(ItemsOf(Ciphertexts(w))) && p < |w.txs|
    ensures k < |subs| && j < |subs[k]| && subs[k][j].position == p
  {
    hide CiphertextOf, Total;
    var all := ItemsOf(Ciphertexts(w));
    assert all[p] in multiset(all);
    k := FindInTotal(subs, all[p]);
    j :| 0 <= j < |subs[k]| && subs[k][j] == all[p];
  }

  lemma PlanSizeIs(w: World, subs: seq<seq<BatchItem>>)
    requires w.Sound() && Total(subs) == multiset(ItemsOf(Ciphertexts(w)))
    requires forall k :: 0 <= k < |subs| ==> Faithful(w, subs[k])
    ensures PlanSize(subs) == |w.txs|
  {
    hide PlanSize, Total, CiphertextOf, Faithful;
    forall k, j | 0 <= k < |subs| && 0 <= j < |subs[k]| ensures subs[k][j].position < |w.txs| {
      Positions(w, subs[k]);
    }
    PlanSizeBound(subs, |w.txs|);
    var k, j := PlanHas(w, subs, |w.txs| - 1);
    PlanSizeReaches(subs, k, j);
  }

  function PlanFor(w: World): Option<BatchPlan>
    requires w.c.Sized()
  {
    PlanOf(w.c, Ciphertexts(w), BatchID(w.c, MarshalAll(w.c.lib.codec, Ciphertexts(w))))
  }

  /** The encrypted transactions can be planned, and every sub-batch carries them faithfully. */
  lemma PlanIsFaithful(w: World)
    requires w.Sound()
    ensures PlanFor(w).Some?
    ensures var subs := PlanFor(w).value.subBatches;
            && Total(subs) == multiset(ItemsOf(Ciphertexts(w)))
            && forall k :: 0 <= k < |subs| ==> Faithful(w, subs[k])
  {
    hide Arranged, Alpha, CiphertextOf, ValidShape, Total, Faithful;
    var cts := Ciphertexts(w);
    forall i | 0 <= i < |cts| ensures ValidShape(w.c.domain, cts[i]) {
      EncryptedAt(w, i);
    }
    PlanSucceeds(w.c.bMax, w.c.domain, cts);
    ArrangedIsPartition(cts);
    var subs := PlanFor(w).value.subBatches;
    forall k | 0 <= k < |subs| ensures Faithful(w, subs[k]) {
      SubBatchFaithful(w, subs, k);
    }
  }

  /** For any batch of encrypted transactions, with enough right shares for every sub-batch, any further
      admissible shares and room for all subsets in the budget, the combination succeeds and result i is
      transaction i. */
  lemma EndToEnd(w: World, shares: seq<DecryptionShare>, options: CombineOptions)
    requires w.Sound() && PlanFor(w).Some? && Enough(w, PlanFor(w).value, shares, options)
    ensures CombineBounded(w.c, PlanFor(w).value, shares, options).results ==
              Some(seq(|w.txs|, i requires 0 <= i < |w.txs| => Some(w.txs[i].raw)))
  {
    hide CombineFrom, Total, Faithful, PlanSize, PlanFor, CountRight, SharesFor, Binomial, CiphertextOf, Admitted;
    PlanIsFaithful(w);
    var plan := PlanFor(w).value;
    PlanSizeIs(w, plan.subBatches);
    var blank, zeros := Blank(|w.txs|), Zeros(|plan.subBatches|);
    assert Honest(w, blank);
    FromDelivers(w, plan, shares, options, 0, blank, zeros);
    var r := CombineFrom(w.c, plan, shares, options, 0, blank, zeros).results.value;
    forall p | 0 <= p < |w.txs| ensures r[p] == Some(w.txs[p].raw) {
      var k, j := PlanHas(w, plan.subBatches, p);
      assert Delivered(r, plan.subBatches[k]);
    }
    assert r == seq(|w.txs|, i requires 0 <= i < |w.txs| => Some(w.txs[i].raw));
  }
}
