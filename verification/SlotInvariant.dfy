/** What every step under the slot's lock keeps. */
module SlotInvariant {
  import opened Options
  import opened Bytes
  import Membership
  import EG = ElGamal
  import opened Arrange
  import opened Cluster
  import opened Combine
  import opened SlotSpec

  /** One operator's shares are its own, filed by sub-batch, and for one batch. */
  ghost predicate Entry(g: Setting, o: int, own: Candidates) {
    && 0 <= o < g.c.operators
    && forall k :: k in own.shares ==>
         var d := own.shares[k];
         && 0 <= k < g.c.bMax && d.operator == o && d.subBatch == k
         && d.share.Some? && d.share.value.I == o && own.batchID == Some(d.batchID)
  }

  ghost predicate Filed(g: Setting, candidates: map<int, Candidates>) {
    forall o :: o in candidates ==> Entry(g, o, candidates[o])
  }

  /** All that is retained is for this plan. */
  ghost predicate ForPlan(candidates: map<int, Candidates>, plan: BatchPlan) {
    forall o :: o in candidates ==> forall k :: k in candidates[o].shares ==>
      0 <= k < |plan.subBatches| && candidates[o].shares[k].batchID == plan.batchID
  }

  /** A batch to decrypt has been planned. */
  predicate Armed(s: Slot) {
    s.planned && s.plan.subBatches != []
  }

  ghost predicate Ended(s: Slot) {
    && (s.phase == Completed <==> s.result.Some?)
    && (s.phase == Failed <==> s.failure.Some?)
    && (s.planned && !Armed(s) ==> s.result.Some?)
    && (s.result.Some? ==> s.planned)
    && (!s.planned ==> s.plan.subBatches == [])
  }

  ghost predicate Planned(g: Setting, s: Slot) {
    && (Armed(s) ==>
          && |s.plan.subBatches| <= g.c.bMax
          && ForPlan(s.candidates, s.plan)
          && |s.attemptsLeft| == |s.plan.subBatches|
          && forall k :: 0 <= k < |s.attemptsLeft| ==> 0 <= s.attemptsLeft[k] <= g.maxAttempts)
    && (s.shareGenerationDone ==> Armed(s))
    && (s.combineInFlight ==> s.shareGenerationDone)
  }

  ghost predicate Inv(g: Setting, s: Slot) {
    g.Sound() && Filed(g, s.candidates) && Ended(s) && Planned(g, s)
  }

  lemma FreshIsInv(g: Setting)
    requires g.Sound()
    ensures Inv(g, Fresh())
  {
  }

  // ----- the list of retained shares -----

  /** Every share of this list is the operator's one for its sub-batch, and the sub-batches ascend below n. */
  ghost predicate Lists(o: int, shares: map<int, DecryptionShare>, n: nat, s: seq<DecryptionShare>) {
    && (forall i :: 0 <= i < |s| ==>
          s[i].operator == o && s[i].subBatch < n && s[i].subBatch in shares && shares[s[i].subBatch] == s[i])
    && (forall i, j :: 0 <= i < j < |s| ==> s[i].subBatch < s[j].subBatch)
  }

  lemma ListsMore(o: int, shares: map<int, DecryptionShare>, n: nat, s: seq<DecryptionShare>)
    requires Lists(o, shares, n, s)
    ensures Lists(o, shares, n + 1, s)
    ensures n in shares && shares[n].operator == o && shares[n].subBatch == n ==>
              Lists(o, shares, n + 1, s + [shares[n]])
  {
  }

  lemma {:induction false} SharesBelowList(g: Setting, o: int, own: Candidates, n: nat)
    requires Entry(g, o, own)
    ensures Lists(o, own.shares, n, SharesBelow(own.shares, n))
  {
    if n > 0 {
      hide Lists;
      SharesBelowList(g, o, own, n - 1);
      var front := SharesBelow(own.shares, n - 1);
      ListsMore(o, own.shares, n - 1, front);
      assert front + [] == front;
    } else {
      assert SharesBelow(own.shares, 0) == [];
    }
  }

  lemma {:induction false} SharesBelowHave(shares: map<int, DecryptionShare>, n: nat, k: nat)
    requires k < n && k in shares
    ensures shares[k] in SharesBelow(shares, n)
  {
    if k < n - 1 {
      SharesBelowHave(shares, n - 1, k);
    }
  }

  lemma SharesBelowAre(g: Setting, o: int, own: Candidates, n: nat)
    requires Entry(g, o, own)
    ensures Lists(o, own.shares, n, SharesBelow(own.shares, n))
    ensures forall k :: 0 <= k < n && k in own.shares ==> own.shares[k] in SharesBelow(own.shares, n)
  {
    SharesBelowList(g, o, own, n);
    forall k | 0 <= k < n && k in own.shares ensures own.shares[k] in SharesBelow(own.shares, n) {
      SharesBelowHave(own.shares, n, k);
    }
  }

  ghost predicate Kept(candidates: map<int, Candidates>, o: int, k: int, d: DecryptionShare) {
    o in candidates && k in candidates[o].shares && candidates[o].shares[k] == d
  }

  ghost predicate Apart(s: seq<DecryptionShare>) {
    forall i, j :: 0 <= i < j < |s| ==> s[i].subBatch != s[j].subBatch || s[i].operator != s[j].operator
  }

  ghost predicate AllKept(candidates: map<int, Candidates>, n: nat, s: seq<DecryptionShare>) {
    forall i :: 0 <= i < |s| ==> s[i].operator < n && Kept(candidates, s[i].operator, s[i].subBatch, s[i])
  }

  lemma ListIsKept(candidates: map<int, Candidates>, n: nat, s: seq<DecryptionShare>)
    requires n in candidates && exists m: nat :: Lists(n, candidates[n].shares, m, s)
    ensures AllKept(candidates, n + 1, s) && Apart(s)
  {
  }

  lemma AppendKept(candidates: map<int, Candidates>, n: nat, front: seq<DecryptionShare>, last: seq<DecryptionShare>)
    requires AllKept(candidates, n, front) && Apart(front) && AllKept(candidates, n + 1, last) && Apart(last)
    requires forall i :: 0 <= i < |last| ==> last[i].operator == n
    ensures AllKept(candidates, n + 1, front + last) && Apart(front + last)
  {
    hide Kept;
  }

  lemma {:induction false} RetainedBelowIs(g: Setting, candidates: map<int, Candidates>, n: nat)
    requires Filed(g, candidates)
    ensures AllKept(candidates, n, RetainedBelow(g, candidates, n)) && Apart(RetainedBelow(g, candidates, n))
    ensures forall o, k :: 0 <= o < n && o in candidates && k in candidates[o].shares ==>
              candidates[o].shares[k] in RetainedBelow(g, candidates, n)
  {
    hide AllKept, Apart, SharesBelow;
    if n == 0 {
      NothingKept(candidates);
    } else {
      RetainedBelowIs(g, candidates, n - 1);
      var front := RetainedBelow(g, candidates, n - 1);
      if n - 1 in candidates {
        assert Entry(g, n - 1, candidates[n - 1]);
        SharesBelowAre(g, n - 1, candidates[n - 1], g.c.bMax);
        var last := SharesBelow(candidates[n - 1].shares, g.c.bMax);
        ListIsKept(candidates, n - 1, last);
        AppendKept(candidates, n - 1, front, last);
      } else {
        OneMoreOperator(candidates, n - 1, front);
      }
    }
  }

  lemma NothingKept(candidates: map<int, Candidates>)
    ensures AllKept(candidates, 0, []) && Apart([])
  {
  }

  lemma OneMoreOperator(candidates: map<int, Candidates>, n: nat, s: seq<DecryptionShare>)
    requires AllKept(candidates, n, s)
    ensures AllKept(candidates, n + 1, s) && s + [] == s
  {
    hide Kept;
  }

  /** The list has exactly what is kept, once. */
  lemma RetainedIs(g: Setting, s: Slot, d: DecryptionShare)
    requires Filed(g, s.candidates)
    ensures d in Retained(g, s) <==> Kept(s.candidates, d.operator, d.subBatch, d)
    ensures Apart(Retained(g, s))
  {
    RetainedBelowIs(g, s.candidates, g.c.operators);
    if d.operator in s.candidates {
      assert Entry(g, d.operator, s.candidates[d.operator]);
    }
  }

  // ----- adding -----

  lemma {:induction false} KeysBelow(keys: set<int>, n: nat)
    requires forall k :: k in keys ==> 0 <= k < n
    ensures |keys| <= n
  {
    if n > 0 {
      KeysBelow(keys - {n - 1}, n - 1);
    } else if |keys| > 0 {
      var k := Membership.HasCorrect(keys, {});
    }
  }

  lemma OneMoreRow(n: nat, b: nat)
    ensures n * b == (n - 1) * b + b
  {
  }

  lemma {:induction false} CountBound(g: Setting, candidates: map<int, Candidates>, n: nat)
    requires Filed(g, candidates)
    ensures CountIn(candidates, n) <= n * g.c.bMax
  {
    if n > 0 {
      CountBound(g, candidates, n - 1);
      if n - 1 in candidates {
        assert Entry(g, n - 1, candidates[n - 1]);
        KeysBelow(candidates[n - 1].shares.Keys, g.c.bMax);
        }
      OneMoreRow(n, g.c.bMax);
    }
  }

  /** A share that passed the checks before the store is consulted. */
  ghost predicate Checked(g: Setting, s: Slot, d: DecryptionShare) {
    && 0 <= d.operator < g.c.operators && d.share.Some? && d.share.value.I == d.operator && 0 <= d.subBatch < g.c.bMax
    && (s.planned ==> d.batchID == s.plan.batchID && d.subBatch < |s.plan.subBatches|)
  }

  lemma RetainShape(g: Setting, s: Slot, d: DecryptionShare)
    requires Inv(g, s) && Checked(g, s, d)
    ensures var (t, v) := Retain(g, s, d);
            && v != Rejected("capacity")
            && t == s.(candidates := t.candidates, shareVersion := t.shareVersion)
            && t.shareVersion == s.shareVersion + (if v == Accepted then 1 else 0)
            && t.candidates.Keys == s.candidates.Keys + {d.operator}
            && (forall o :: o in s.candidates && o != d.operator ==> t.candidates[o] == s.candidates[o])
            && t.candidates[d.operator] ==
                 if v == Accepted
                 then Candidates(Some(d.batchID), CandidatesOf(s, d.operator).shares[d.subBatch := d])
                 else CandidatesOf(s, d.operator)
  {
    var own := CandidatesOf(s, d.operator);
    if (own.batchID.None? || own.batchID.value == d.batchID) && d.subBatch !in own.shares {
      var more := s.candidates[d.operator := Candidates(Some(d.batchID), own.shares[d.subBatch := d])];
      MoreIsFiled(g, s, d);
      CountBound(g, more, g.c.operators);
    }
  }

  lemma MoreIsFiled(g: Setting, s: Slot, d: DecryptionShare)
    requires Inv(g, s) && Checked(g, s, d)
    requires var own := CandidatesOf(s, d.operator); own.batchID.None? || own.batchID.value == d.batchID
    ensures Filed(g, s.candidates[d.operator :=
              Candidates(Some(d.batchID), CandidatesOf(s, d.operator).shares[d.subBatch := d])])
  {
    hide Planned, Ended;
    if d.operator in s.candidates {
      assert Entry(g, d.operator, s.candidates[d.operator]);
    }
  }

  lemma RetainKeeps(g: Setting, s: Slot, d: DecryptionShare)
    requires Inv(g, s) && Checked(g, s, d)
    ensures Inv(g, Retain(g, s, d).0)
    ensures forall o, k, e :: Kept(s.candidates, o, k, e) ==> Kept(Retain(g, s, d).0.candidates, o, k, e)
    ensures var (t, v) := Retain(g, s, d);
            && (v == Accepted || v == Duplicate ==> Kept(t.candidates, d.operator, d.subBatch, d))
            && (v != Accepted ==> forall o, k, e :: Kept(t.candidates, o, k, e) ==> Kept(s.candidates, o, k, e))
  {
    hide Retain;
    RetainShape(g, s, d);
    RetainVerdict(g, s, d);
    var (t, v) := Retain(g, s, d);
    var own := CandidatesOf(s, d.operator);
    assert Entry(g, d.operator, own) by {
      if d.operator in s.candidates { assert Entry(g, d.operator, s.candidates[d.operator]); }
    }
    assert Entry(g, d.operator, t.candidates[d.operator]);
    forall o | o in t.candidates ensures Entry(g, o, t.candidates[o]) {
      if o != d.operator { assert Entry(g, o, s.candidates[o]); }
    }
  }

  /** When a share is taken, and what a duplicate is. */
  lemma RetainVerdict(g: Setting, s: Slot, d: DecryptionShare)
    requires Inv(g, s) && Checked(g, s, d)
    ensures var v := Retain(g, s, d).1;
            var own := CandidatesOf(s, d.operator);
            && (v == Accepted ==> d.subBatch !in own.shares && (own.batchID.None? || own.batchID.value == d.batchID))
            && (v == Duplicate ==> d.subBatch in own.shares && own.shares[d.subBatch] == d)
  {
    hide CountIn;
    if d.operator in s.candidates {
      assert Entry(g, d.operator, s.candidates[d.operator]);
    }
  }

  /** Adding keeps the slot in order, loses nothing, and never runs out of room; what was taken or was
      there already is then retained. */
  lemma AddShareKeeps(g: Setting, s: Slot, d: DecryptionShare)
    requires Inv(g, s)
    ensures var (t, v) := AddShare(g, s, d);
            && Inv(g, t) && v != Rejected("capacity")
            && t == s.(candidates := t.candidates, shareVersion := t.shareVersion)
            && t.shareVersion == s.shareVersion + (if v == Accepted then 1 else 0)
            && (forall o, k, e :: Kept(s.candidates, o, k, e) ==> Kept(t.candidates, o, k, e))
            && (v == Accepted || v == Duplicate ==> Kept(t.candidates, d.operator, d.subBatch, d))
            && (v != Accepted ==> forall o, k, e :: Kept(t.candidates, o, k, e) ==> Kept(s.candidates, o, k, e))
  {
    hide Retain, Inv;
    if Checked(g, s, d) {
      RetainShape(g, s, d);
      RetainKeeps(g, s, d);
    }
  }

  // ----- planning -----

  lemma PruneKeeps(g: Setting, candidates: map<int, Candidates>, plan: BatchPlan)
    requires Filed(g, candidates)
    ensures Filed(g, Prune(candidates, plan)) && ForPlan(Prune(candidates, plan), plan)
    ensures forall o, k, d :: Kept(Prune(candidates, plan), o, k, d) <==>
              Kept(candidates, o, k, d) && d.batchID == plan.batchID && 0 <= k < |plan.subBatches|
  {
    var after := Prune(candidates, plan);
    forall o | o in after ensures Entry(g, o, after[o]) {
      assert Entry(g, o, candidates[o]);
    }
    forall o, k, d | Kept(candidates, o, k, d) ensures candidates[o].batchID == Some(d.batchID) {
      assert Entry(g, o, candidates[o]);
    }
  }

  /** A plan arms the slot with the full budget, and drops exactly the shares that are not for it. */
  lemma PlanReadyKeeps(g: Setting, s: Slot, plan: BatchPlan)
    requires Inv(g, s) && 0 < |plan.subBatches| <= g.c.bMax
    ensures Inv(g, PlanReady(g, s, plan))
  {
    hide Prune, Filed, ForPlan;
    PruneKeeps(g, s.candidates, plan);
  }

  lemma QuietStepsKeep(g: Setting, s: Slot, reason: string)
    requires Inv(g, s)
    ensures Inv(g, Start(s)) && Inv(g, PlanEmpty(s)) && Inv(g, Fail(s, reason))
    ensures Armed(s) ==> Inv(g, SharesDone(s))
  {
    hide Filed, ForPlan;
  }

  lemma ReleaseKeeps(g: Setting, s: Slot, version: nat, results: seq<Option<Bytes>>)
    requires Inv(g, s) && s.combineInFlight
    ensures Inv(g, FinishFailed(s, version).0) && Inv(g, FinishCombined(s, results))
  {
    hide Filed, ForPlan;
  }

  /** Booking attempts takes them off what is left, exactly unless more were made than were left. */
  lemma RecordKeeps(g: Setting, s: Slot, attempts: seq<nat>)
    requires Inv(g, s)
    ensures Inv(g, RecordStats(s, attempts))
    ensures forall k :: 0 <= k < |attempts| && k < |s.attemptsLeft| && attempts[k] <= s.attemptsLeft[k] ==>
              RecordStats(s, attempts).attemptsLeft[k] == s.attemptsLeft[k] - attempts[k]
  {
    hide Filed, ForPlan;
  }

  // ----- claiming -----

  lemma {:induction false} OperatorsAtMost(shares: seq<DecryptionShare>, k: int)
    requires forall i :: 0 <= i < |shares| ==> shares[i].share.Some?
    ensures |OperatorsFor(shares, k)| <= |SharesFor(shares, k)|
  {
    if shares == [] {
      assert OperatorsFor(shares, k) == {};
    } else {
      var n := |shares| - 1;
      var front, last := shares[..n], shares[n];
      OperatorsAtMost(front, k);
      assert OperatorsFor(shares, k) == OperatorsFor(front, k) + if last.subBatch == k then {last.operator} else {} by {
        forall o ensures o in OperatorsFor(shares, k) <==>
                           o in OperatorsFor(front, k) || (last.subBatch == k && o == last.operator) {
          if o in OperatorsFor(shares, k) {
            var i :| 0 <= i < |shares| && shares[i].subBatch == k && shares[i].operator == o;
            assert i < n ==> front[i] == shares[i];
          }
          if o in OperatorsFor(front, k) {
            var i :| 0 <= i < n && front[i].subBatch == k && front[i].operator == o;
            assert shares[i] == front[i];
          }
        }
      }
    }
  }

  function OptionsOf(g: Setting, limits: seq<int>): CombineOptions {
    CombineOptions(g.maxAttempts, Some(limits))
  }

  /** What a claim hands to the combination passes all its checks. */
  ghost predicate Sufficient(g: Setting, claim: Claim) {
    && OptionsFit(claim.plan, OptionsOf(g, claim.limits))
    && Admitted(g.c, claim.plan, claim.shares)
    && forall k :: 0 <= k < |claim.plan.subBatches| ==>
         |SubShares(claim.shares, k)| >= g.c.T && 1 <= claim.limits[k] <= g.maxAttempts
  }

  lemma RetainedFits(g: Setting, s: Slot)
    requires Inv(g, s) && Armed(s)
    ensures Admitted(g.c, s.plan, Retained(g, s))
  {
    hide RetainedBelow, Planned, Ended;
    RetainedBelowIs(g, s.candidates, g.c.operators);
    var list := Retained(g, s);
    ForThePlan(g, s);
    forall i | 0 <= i < |list| ensures ShareFits(g.c, s.plan, list[i]) {
      assert Kept(s.candidates, list[i].operator, list[i].subBatch, list[i]);
      assert Entry(g, list[i].operator, s.candidates[list[i].operator]);
    }
  }

  lemma ForThePlan(g: Setting, s: Slot)
    requires Inv(g, s) && Armed(s)
    ensures ForPlan(s.candidates, s.plan)
  {
    hide Filed, Ended;
  }

  /** A claim keeps the slot in order, and takes all that is retained. */
  lemma ClaimKeeps(g: Setting, s: Slot)
    requires Inv(g, s) && CanClaim(g, s)
    ensures Inv(g, ClaimCombine(g, s).0) && ClaimCombine(g, s).1.Some?
    ensures var claim := ClaimCombine(g, s).1.value;
            && Sufficient(g, claim) && claim.plan == s.plan && claim.shares == Retained(g, s)
            && claim.shareVersion == s.shareVersion && claim.limits == s.attemptsLeft
  {
    hide Admitted, Filed, ForPlan, RetainedBelow, SharesFor, OperatorsFor, ByIndex;
    RetainedFits(g, s);
    var list := Retained(g, s);
    AllPresent(g.c, s.plan, list);
    forall k | 0 <= k < |s.plan.subBatches| ensures |SubShares(list, k)| >= g.c.T {
      OperatorsAtMost(list, k);
      SortKeeps(SharesFor(list, k));
    }
  }

  lemma AllPresent(c: ClusterBTE, plan: BatchPlan, shares: seq<DecryptionShare>)
    requires Admitted(c, plan, shares)
    ensures forall i :: 0 <= i < |shares| ==> shares[i].share.Some?
  {
  }
}
