/** The slot as the node holds it: fields changed in place by the steps taken under its lock. */
module SlotStore {
  import opened Options
  import Sets
  import opened Bytes
  import opened Arrange
  import opened Cluster
  import opened Combine
  import opened SlotSpec
  import opened SlotInvariant

  class SlotState {
    const g: Setting
    var phase: Phase
    var planned: bool
    var plan: BatchPlan
    var shareGenerationDone: bool
    var combineInFlight: bool
    var shareVersion: nat
    var shareCandidates: map<int, Candidates>
    var combineAttemptsLeft: seq<int>
    var result: Option<seq<Option<Bytes>>>
    var failure: Option<string>

    function State(): Slot
      reads this
    {
      Slot(phase, planned, plan, shareGenerationDone, combineInFlight, shareVersion, shareCandidates,
           combineAttemptsLeft, result, failure)
    }

    ghost predicate Valid()
      reads this
    {
      Inv(g, State())
    }

    constructor (g: Setting)
      requires g.Sound()
      ensures this.g == g && Valid() && State() == Fresh()
    {
      this.g := g;
      phase, planned, plan := Prepared, false, NoPlan();
      shareGenerationDone, combineInFlight, shareVersion := false, false, 0;
      shareCandidates, combineAttemptsLeft, result, failure := map[], [], None, None;
      new;
      FreshIsInv(g);
    }

    method StartSlot()
      requires Valid()
      modifies this`phase
      ensures Valid() && State() == Start(old(State()))
    {
      QuietStepsKeep(g, State(), "");
      if failure.Some? || result.Some? {
        return;
      }
      phase := Running;
    }

    /** Files a share of a member for a sub-batch of the planned batch, once. */
    method AddShare(d: DecryptionShare) returns (v: Verdict)
      requires Valid()
      modifies this`shareCandidates, this`shareVersion
      ensures Valid() && (State(), v) == SlotSpec.AddShare(g, old(State()), d)
      ensures v != Rejected("capacity")
    {
      hide Retain, Filed, ForPlan, Ended, Planned;
      AddShareKeeps(g, State(), d);
      if !(0 <= d.operator < g.c.operators) {
        return Rejected("membership");
      }
      if d.share.None? {
        return Rejected("encoding");
      }
      if d.share.value.I != d.operator {
        return Rejected("membership");
      }
      if d.subBatch < 0 || d.subBatch >= g.c.bMax {
        return Rejected("sub_batch");
      }
      if planned && d.batchID != plan.batchID {
        return Rejected("batch");
      }
      if planned && d.subBatch >= |plan.subBatches| {
        return Rejected("sub_batch");
      }
      v := RetainShare(d);
    }

    method RetainShare(d: DecryptionShare) returns (v: Verdict)
      modifies this`shareCandidates, this`shareVersion
      ensures (State(), v) == Retain(g, old(State()), d)
    {
      hide CountIn;
      ghost var s := State();
      if d.operator !in shareCandidates {
        shareCandidates := shareCandidates[d.operator := Candidates(None, map[])];
      }
      var own := shareCandidates[d.operator];
      assert shareCandidates == s.candidates[d.operator := own];
      if own.batchID.Some? && own.batchID.value != d.batchID {
        return Rejected("batch");
      }
      if d.subBatch in own.shares {
        return if own.shares[d.subBatch].share == d.share then Duplicate else Rejected("conflict");
      }
      var more := Candidates(Some(d.batchID), own.shares[d.subBatch := d]);
      shareCandidates := shareCandidates[d.operator := more];
      assert shareCandidates == s.candidates[d.operator := more];
      var count := RetainedShareCount();
      if count > g.c.operators * g.c.bMax {
        shareCandidates := shareCandidates[d.operator := Candidates(Some(d.batchID), own.shares)];
        assert shareCandidates == s.candidates[d.operator := Candidates(Some(d.batchID), own.shares)];
        return Rejected("capacity");
      }
      shareVersion := shareVersion + 1;
      v := Accepted;
    }

    method RetainedShareCount() returns (total: nat)
      ensures total == CountIn(shareCandidates, g.c.operators)
    {
      total := 0;
      for o := 0 to g.c.operators
        invariant total == CountIn(shareCandidates, o)
      {
        if o in shareCandidates {
          total := total + |shareCandidates[o].shares.Keys|;
        }
      }
    }

    method RetainedShares() returns (out: seq<DecryptionShare>)
      ensures out == Retained(g, State())
    {
      out := [];
      for o := 0 to g.c.operators
        invariant out == RetainedBelow(g, shareCandidates, o)
      {
        if o !in shareCandidates {
          continue;
        }
        var shares := shareCandidates[o].shares;
        ghost var before := out;
        for k := 0 to g.c.bMax
          invariant out == before + SharesBelow(shares, k)
        {
          if k in shares {
            out := out + [shares[k]];
          }
        }
      }
    }

    method PruneShareCandidates(plan: BatchPlan)
      modifies this`shareCandidates
      ensures shareCandidates == Prune(old(shareCandidates), plan)
    {
      var before := shareCandidates;
      var kept: map<int, Candidates> := map[];
      var todo := before.Keys;
      while todo != {}
        invariant todo <= before.Keys
        invariant kept == map o | o in Prune(before, plan) && o !in todo :: Prune(before, plan)[o]
        decreases todo
      {
        var o := Sets.Any(todo);
        todo := todo - {o};
        var own := before[o];
        if own.batchID == Some(plan.batchID) {
          kept := kept[o := own.(shares := map k | k in own.shares && 0 <= k < |plan.subBatches| :: own.shares[k])];
        }
      }
      shareCandidates := kept;
      assert kept == Prune(before, plan);
    }

    /** A plan arrives: what was retained for other batches goes, and the full budget is there. */
    method BatchPlanned(p: BatchPlan)
      requires Valid() && 0 < |p.subBatches| <= g.c.bMax
      modifies this
      ensures Valid() && State() == PlanReady(g, old(State()), p)
    {
      hide Prune, Filed, ForPlan, Ended, Planned;
      PlanReadyKeeps(g, State(), p);
      if planned || failure.Some? {
        return;
      }
      plan := p;
      PruneShareCandidates(p);
      combineAttemptsLeft := seq(|p.subBatches|, _ => g.maxAttempts);
      planned := true;
    }

    method FinishEmpty()
      requires Valid()
      modifies this
      ensures Valid() && State() == PlanEmpty(old(State()))
    {
      QuietStepsKeep(g, State(), "");
      if result.Some? || failure.Some? || planned {
        return;
      }
      planned, result, phase := true, Some([]), Completed;
    }

    method OwnSharesDone()
      requires Valid() && Armed(State())
      modifies this`shareGenerationDone
      ensures Valid() && State() == SharesDone(old(State()))
    {
      QuietStepsKeep(g, State(), "");
      shareGenerationDone := true;
    }

    /** Admits one reconstruction at a time, and only one that has what it needs. */
    method ClaimCombine() returns (claim: Option<Claim>)
      requires Valid()
      modifies this`combineInFlight
      ensures Valid() && (State(), claim) == SlotSpec.ClaimCombine(g, old(State()))
      ensures claim.Some? ==> Sufficient(g, claim.value)
    {
      hide Filed, ForPlan, Ended, Planned, HasThreshold, Sufficient, Retained;
      ghost var s := State();
      if CanClaim(g, s) {
        ClaimKeeps(g, s);
      }
      if result.Some? || failure.Some? || !planned || !shareGenerationDone || combineInFlight {
        return None;
      }
      var shares := RetainedShares();
      var enough := HasThresholdPerSubBatch(shares, plan, g.c.T);
      if !enough {
        return None;
      }
      for k := 0 to |plan.subBatches|
        invariant k <= |combineAttemptsLeft| && forall i :: 0 <= i < k ==> combineAttemptsLeft[i] > 0
      {
        if k >= |combineAttemptsLeft| || combineAttemptsLeft[k] <= 0 {
          return None;
        }
      }
      if |shares| == 0 {
        return None;
      }
      assert CanClaim(g, s);
      combineInFlight := true;
      claim := Some(Claim(plan, shares, shareVersion, combineAttemptsLeft));
    }

    method RecordCombineStats(attempts: seq<nat>)
      requires Valid()
      modifies this`combineAttemptsLeft
      ensures Valid() && State() == RecordStats(old(State()), attempts)
    {
      RecordKeeps(g, State(), attempts);
      var before := combineAttemptsLeft;
      var left := new int[|before|](k requires 0 <= k < |before| => before[k]);
      for k := 0 to |attempts|
        invariant forall i :: 0 <= i < left.Length ==>
                    left[i] == if i < k then Spend(before, attempts)[i] else before[i]
      {
        if k < left.Length {
          left[k] := left[k] - attempts[k];
          if left[k] < 0 {
            left[k] := 0;
          }
        }
      }
      combineAttemptsLeft := left[..];
      assert combineAttemptsLeft == Spend(before, attempts);
    }

    /** Releases the claim, and says whether newer shares call for another try. */
    method FinishFailedCombine(attemptVersion: nat) returns (again: bool)
      requires Valid() && combineInFlight
      modifies this`combineInFlight
      ensures Valid() && (State(), again) == FinishFailed(old(State()), attemptVersion)
    {
      ReleaseKeeps(g, State(), attemptVersion, []);
      combineInFlight := false;
      again := result.None? && failure.None? && shareVersion > attemptVersion;
    }

    method FinishCombine(results: seq<Option<Bytes>>)
      requires Valid() && combineInFlight
      modifies this
      ensures Valid() && State() == FinishCombined(old(State()), results)
    {
      ReleaseKeeps(g, State(), 0, results);
      combineInFlight := false;
      if result.None? && failure.None? {
        result, phase := Some(results), Completed;
      }
    }

    method MarkSlotFailed(reason: string)
      requires Valid()
      modifies this`failure, this`phase
      ensures Valid() && State() == Fail(old(State()), reason)
    {
      QuietStepsKeep(g, State(), reason);
      if result.Some? || failure.Some? {
        return;
      }
      failure, phase := Some(reason), Failed;
    }
  }

  /** Whether every sub-batch has shares of t operators. */
  method HasThresholdPerSubBatch(shares: seq<DecryptionShare>, plan: BatchPlan, t: nat) returns (enough: bool)
    ensures enough <==> HasThreshold(shares, plan, t)
  {
    var counts: map<int, set<int>> := map[];
    for i := 0 to |shares|
      invariant forall k :: (if k in counts then counts[k] else {}) == OperatorsFor(shares[..i], k)
    {
      var d := shares[i];
      OneMoreOperator(shares, i);
      counts := counts[d.subBatch := (if d.subBatch in counts then counts[d.subBatch] else {}) + {d.operator}];
    }
    assert shares[..|shares|] == shares;
    for k := 0 to |plan.subBatches|
      invariant forall i :: 0 <= i < k ==> |OperatorsFor(shares, i)| >= t
    {
      var seen := if k in counts then counts[k] else {};
      assert seen == OperatorsFor(shares, k);
      if |seen| < t {
        return false;
      }
    }
    enough := true;
  }

  lemma OneMoreOperator(shares: seq<DecryptionShare>, i: nat)
    requires i < |shares|
    ensures forall k :: OperatorsFor(shares[..i + 1], k) ==
              OperatorsFor(shares[..i], k) + if shares[i].subBatch == k then {shares[i].operator} else {}
  {
    var s, t := shares[..i], shares[..i + 1];
    forall k, o
      ensures o in OperatorsFor(t, k) <==>
                o in OperatorsFor(s, k) || (shares[i].subBatch == k && o == shares[i].operator)
    {
      if o in OperatorsFor(s, k) {
        var j :| 0 <= j < i && s[j].subBatch == k && s[j].operator == o;
        assert t[j] == s[j];
      }
      if o in OperatorsFor(t, k) {
        var j :| 0 <= j < i + 1 && t[j].subBatch == k && t[j].operator == o;
        assert j < i ==> s[j] == t[j];
      }
      assert t[i] == shares[i];
    }
  }
}
