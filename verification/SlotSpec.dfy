/** The state of one slot that its lock protects, and what each step under the lock does to it. */
module SlotSpec {
  import opened Options
  import opened Bytes
  import EG = ElGamal
  import opened Arrange
  import opened Cluster
  import opened Combine

  /** The operators are numbered from 0; the cluster knows their number and the threshold. */
  datatype Setting = Setting(c: ClusterBTE, maxAttempts: int) {
    predicate Sound() {
      c.T >= 1 && maxAttempts >= 1
    }
  }

  datatype Phase = Prepared | Running | Completed | Failed

  /** What is retained of one operator: the batch its shares are for, and its shares by sub-batch. */
  datatype Candidates = Candidates(batchID: Option<Bytes>, shares: map<int, DecryptionShare>)

  datatype Slot = Slot(
    phase: Phase,
    planned: bool,
    plan: BatchPlan,
    shareGenerationDone: bool,
    combineInFlight: bool,
    shareVersion: nat,
    candidates: map<int, Candidates>,
    attemptsLeft: seq<int>,
    result: Option<seq<Option<Bytes>>>,
    failure: Option<string>)

  /** The plan before there is one: the batch id is 32 zero bytes. */
  function NoPlan(): BatchPlan {
    BatchPlan(seq(32, _ => 0), 0, [])
  }

  function Fresh(): Slot {
    Slot(Prepared, false, NoPlan(), false, false, 0, map[], [], None, None)
  }

  // ----- the share store -----

  datatype Verdict = Accepted | Duplicate | Rejected(reason: string)

  function CandidatesOf(s: Slot, operator: int): Candidates {
    if operator in s.candidates then s.candidates[operator] else Candidates(None, map[])
  }

  function CountIn(candidates: map<int, Candidates>, n: nat): nat {
    if n == 0 then 0
    else CountIn(candidates, n - 1) + if n - 1 in candidates then |candidates[n - 1].shares.Keys| else 0
  }

  function Retain(g: Setting, s: Slot, d: DecryptionShare): (Slot, Verdict) {
    var own := CandidatesOf(s, d.operator);
    var kept := s.(candidates := s.candidates[d.operator := own]);
    if own.batchID.Some? && own.batchID.value != d.batchID then (kept, Rejected("batch"))
    else if d.subBatch in own.shares then
      if own.shares[d.subBatch].share == d.share then (kept, Duplicate) else (kept, Rejected("conflict"))
    else
      var more := s.candidates[d.operator := Candidates(Some(d.batchID), own.shares[d.subBatch := d])];
      if CountIn(more, g.c.operators) > g.c.operators * g.c.bMax
      then (s.(candidates := s.candidates[d.operator := Candidates(Some(d.batchID), own.shares)]), Rejected("capacity"))
      else (s.(candidates := more, shareVersion := s.shareVersion + 1), Accepted)
  }

  function AddShare(g: Setting, s: Slot, d: DecryptionShare): (Slot, Verdict) {
    if !(0 <= d.operator < g.c.operators) then (s, Rejected("membership"))
    else if d.share.None? then (s, Rejected("encoding"))
    else if d.share.value.I != d.operator then (s, Rejected("membership"))
    else if !(0 <= d.subBatch < g.c.bMax) then (s, Rejected("sub_batch"))
    else if s.planned && d.batchID != s.plan.batchID then (s, Rejected("batch"))
    else if s.planned && d.subBatch >= |s.plan.subBatches| then (s, Rejected("sub_batch"))
    else Retain(g, s, d)
  }

  /** Keeps the operators whose shares are for the planned batch, and of those the sub-batches it has. */
  function Prune(candidates: map<int, Candidates>, plan: BatchPlan): map<int, Candidates> {
    map o | o in candidates && candidates[o].batchID == Some(plan.batchID)
      :: candidates[o].(shares :=
           map k | k in candidates[o].shares && 0 <= k < |plan.subBatches| :: candidates[o].shares[k])
  }

  /** One operator's shares in order of their sub-batches, below n. */
  function SharesBelow(shares: map<int, DecryptionShare>, n: nat): seq<DecryptionShare> {
    if n == 0 then [] else SharesBelow(shares, n - 1) + if n - 1 in shares then [shares[n - 1]] else []
  }

  function RetainedBelow(g: Setting, candidates: map<int, Candidates>, n: nat): seq<DecryptionShare> {
    if n == 0 then []
    else RetainedBelow(g, candidates, n - 1)
           + if n - 1 in candidates then SharesBelow(candidates[n - 1].shares, g.c.bMax) else []
  }

  /** The retained shares by operator and sub-batch. */
  function Retained(g: Setting, s: Slot): seq<DecryptionShare> {
    RetainedBelow(g, s.candidates, g.c.operators)
  }

  function OperatorsFor(shares: seq<DecryptionShare>, k: int): set<int> {
    set i | 0 <= i < |shares| && shares[i].subBatch == k :: shares[i].operator
  }

  predicate HasThreshold(shares: seq<DecryptionShare>, plan: BatchPlan, t: nat) {
    forall k :: 0 <= k < |plan.subBatches| ==> |OperatorsFor(shares, k)| >= t
  }

  // ----- the steps of the slot -----

  predicate Terminal(s: Slot) {
    s.result.Some? || s.failure.Some?
  }

  function Start(s: Slot): Slot {
    if Terminal(s) then s else s.(phase := Running)
  }

  function PlanReady(g: Setting, s: Slot, plan: BatchPlan): Slot {
    if s.planned || s.failure.Some? then s
    else s.(plan := plan, planned := true, candidates := Prune(s.candidates, plan),
            attemptsLeft := seq(|plan.subBatches|, _ => g.maxAttempts))
  }

  /** An empty batch completes the slot at once. */
  function PlanEmpty(s: Slot): Slot {
    if Terminal(s) || s.planned then s else s.(planned := true, result := Some([]), phase := Completed)
  }

  function SharesDone(s: Slot): Slot {
    s.(shareGenerationDone := true)
  }

  datatype Claim = Claim(plan: BatchPlan, shares: seq<DecryptionShare>, shareVersion: nat, limits: seq<int>)

  predicate CanClaim(g: Setting, s: Slot) {
    && !Terminal(s) && s.planned && s.shareGenerationDone && !s.combineInFlight
    && HasThreshold(Retained(g, s), s.plan, g.c.T)
    && |s.attemptsLeft| >= |s.plan.subBatches|
    && (forall k :: 0 <= k < |s.plan.subBatches| ==> s.attemptsLeft[k] > 0)
    && Retained(g, s) != []
  }

  function ClaimCombine(g: Setting, s: Slot): (Slot, Option<Claim>) {
    if CanClaim(g, s)
    then (s.(combineInFlight := true), Some(Claim(s.plan, Retained(g, s), s.shareVersion, s.attemptsLeft)))
    else (s, None)
  }

  function Spend(left: seq<int>, attempts: seq<nat>): seq<int> {
    seq(|left|, k requires 0 <= k < |left| =>
      if k >= |attempts| then left[k] else if left[k] - attempts[k] < 0 then 0 else left[k] - attempts[k])
  }

  function RecordStats(s: Slot, attempts: seq<nat>): Slot {
    s.(attemptsLeft := Spend(s.attemptsLeft, attempts))
  }

  /** Releases the claim; a newer share set calls for another try. */
  function FinishFailed(s: Slot, version: nat): (Slot, bool) {
    (s.(combineInFlight := false), !Terminal(s) && s.shareVersion > version)
  }

  function FinishCombined(s: Slot, results: seq<Option<Bytes>>): Slot {
    var released := s.(combineInFlight := false);
    if Terminal(s) then released else released.(result := Some(results), phase := Completed)
  }

  function Fail(s: Slot, reason: string): Slot {
    if Terminal(s) then s else s.(failure := Some(reason), phase := Failed)
  }
}
