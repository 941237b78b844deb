/** From the shares a slot holds to the transactions it ends with: the driver's runs over the cluster's round trip. */
module DriverDelivery {
  import opened Options
  import opened Bytes
  import Membership
  import EG = ElGamal
  import opened Arrange
  import opened Subsets
  import opened Cluster
  import opened Combine
  import opened SlotSpec
  import opened SlotInvariant
  import opened Driver
  import opened DriverClaims
  import RT = RoundTrip

  // ----- what a worker reports is what the combination of its claim gave -----

  ghost predicate Reports(g: Setting, w: Worker)
    requires Ready(g)
  {
    match w
    case Claimed(_) => true
    case Tried(claim, outcome) => outcome == Outcome(g, claim)
    case Recorded(claim, results) => results == Outcome(g, claim).results
  }

  ghost predicate AllReport(g: Setting, ws: seq<Worker>)
    requires Ready(g)
  {
    forall i :: 0 <= i < |ws| ==> Reports(g, ws[i])
  }

  lemma StepReports(g: Setting, y: Node, e: Step)
    requires Ready(g) && Enabled(g, y, e) && AllReport(g, y.workers)
    ensures AllReport(g, After(g, y, e).workers)
  {
    hide CombineBounded, AddShare, CanClaim, Prune;
  }

  lemma {:induction false} RunReports(g: Setting, nodes: seq<Node>, steps: seq<Step>, i: nat)
    requires IsRun(g, nodes, steps) && i < |nodes|
    ensures AllReport(g, nodes[i].workers)
  {
    hide After, Enabled, Reports;
    if i > 0 {
      RunReports(g, nodes, steps, i - 1);
      StepReports(g, nodes[i - 1], steps[i - 1]);
    }
  }

  // ----- a plan is for good -----

  lemma {:induction false} RunKeepsPlan(g: Setting, nodes: seq<Node>, steps: seq<Step>, i: nat, j: nat)
    requires IsRun(g, nodes, steps) && i <= j < |nodes| && nodes[i].slot.planned
    ensures nodes[j].slot.planned && nodes[j].slot.plan == nodes[i].slot.plan
    decreases j
  {
    hide AddShare, CanClaim, Outcome, Enabled;
    if i < j {
      RunKeepsPlan(g, nodes, steps, i, j - 1);
      StepKeepsPlan(g, nodes[j - 1], steps[j - 1]);
    }
  }

  lemma StepKeepsPlan(g: Setting, y: Node, e: Step)
    requires Ready(g) && Enabled(g, y, e) && y.slot.planned
    ensures After(g, y, e).slot.planned && After(g, y, e).slot.plan == y.slot.plan
  {
    hide CanClaim, Outcome, Prune;
  }

  // ----- enough right shares in the store -----

  /** For every sub-batch the store has the shares that t operators made for it. */
  ghost predicate Backed(w: RT.World, s: Slot, helpers: seq<set<nat>>)
    requires w.c.Sized()
  {
    && |helpers| == |s.plan.subBatches|
    && forall k :: 0 <= k < |helpers| ==>
         |helpers[k]| >= w.c.T && forall o :: o in helpers[k] ==> HasMade(w, s, k, o)
  }

  ghost predicate HasMade(w: RT.World, s: Slot, k: nat, o: nat)
    requires w.c.Sized()
  {
    var d := Cluster.ShareOf(w.c, SecretShare(o, w.key.ShareOf(o)), s.plan, k);
    o < w.key.n && d.Some? && Kept(s.candidates, o, k, d.value)
  }

  /** What is left of the budget covers every subset of the retained shares, and none of them leads to a secret that
      opens a payload it did not seal. */
  ghost predicate Affordable(g: Setting, w: RT.World, s: Slot)
    requires Ready(g) && w.c.Sized()
  {
    && |s.attemptsLeft| == |s.plan.subBatches|
    && forall k :: 0 <= k < |s.plan.subBatches| ==>
         && s.attemptsLeft[k] >= Binomial(|SharesFor(Retained(g, s), k)|, w.c.T)
         && forall indices :: |indices| == w.c.T && Increasing(indices, 0, |SubShares(Retained(g, s), k)|) ==>
              RT.Unforged(w, s.plan.subBatches[k], SubShares(Retained(g, s), k), indices)
  }

  ghost predicate Serves(g: Setting, w: RT.World, s: Slot) {
    Ready(g) && w.Sound() && w.c == g.c && Inv(g, s) && s.planned && RT.PlanFor(w) == Some(s.plan)
  }

  lemma MadeIsListed(g: Setting, w: RT.World, s: Slot, k: nat, o: nat)
    requires Serves(g, w, s) && HasMade(w, s, k, o)
    ensures RT.Contributes(w, s.plan, Retained(g, s), k, o)
    ensures o in OperatorsFor(Retained(g, s), k)
  {
    hide Inv, RetainedBelow, RT.PlanFor;
    var d := Cluster.ShareOf(w.c, SecretShare(o, w.key.ShareOf(o)), s.plan, k).value;
    KeptIsListed(g, s, o, k, d);
    var i :| 0 <= i < |Retained(g, s)| && Retained(g, s)[i] == d;
  }

  lemma PlanIsArmed(g: Setting, w: RT.World, s: Slot)
    requires Serves(g, w, s)
    ensures Armed(s) && forall k :: 0 <= k < |s.plan.subBatches| ==> RT.Faithful(w, s.plan.subBatches[k])
  {
    hide Inv, RT.PlanFor, RT.Faithful, Total;
    RT.PlanIsFaithful(w);
    var k, j := RT.PlanHas(w, s.plan.subBatches, 0);
  }

  lemma BackedCounts(g: Setting, w: RT.World, s: Slot, helpers: seq<set<nat>>, k: nat)
    requires Serves(g, w, s) && Backed(w, s, helpers) && k < |helpers|
    ensures RT.CountRight(w, s.plan.subBatches[k], SharesFor(Retained(g, s), k)) >= w.c.T
    ensures |OperatorsFor(Retained(g, s), k)| >= g.c.T
  {
    hide Inv, RT.PlanFor, RT.Faithful, HasMade, RetainedBelow, OperatorsFor, SharesFor, RT.CountRight;
    PlanIsArmed(g, w, s);
    forall o | o in helpers[k]
      ensures RT.Contributes(w, s.plan, Retained(g, s), k, o) && o in OperatorsFor(Retained(g, s), k)
    {
      MadeIsListed(g, w, s, k, o);
    }
    RT.OperatorsSuffice(w, s.plan, Retained(g, s), k, helpers[k]);
    Membership.SubsetSize(helpers[k], OperatorsFor(Retained(g, s), k));
  }

  function Transactions(w: RT.World): seq<Option<Bytes>> {
    seq(|w.txs|, i requires 0 <= i < |w.txs| => Some(w.txs[i].raw))
  }

  /** The claim that such a store allows has enough right shares. */
  lemma BackedIsEnough(g: Setting, w: RT.World, s: Slot, helpers: seq<set<nat>>)
    requires Serves(g, w, s) && Backed(w, s, helpers) && Affordable(g, w, s)
    ensures RT.Enough(w, s.plan, Retained(g, s), OptionsOf(g, s.attemptsLeft))
    ensures HasThreshold(Retained(g, s), s.plan, g.c.T)
    ensures Retained(g, s) != []
    ensures forall k :: 0 <= k < |s.plan.subBatches| ==> s.attemptsLeft[k] >= 1
  {
    hide Inv, RT.PlanFor, RT.Faithful, HasMade, RetainedBelow, SharesFor, RT.CountRight, Admitted, RT.Unforged;
    hide Increasing, Binomial, SubShares, SubBatchSearch;
    PlanIsArmed(g, w, s);
    RetainedFits(g, s);
    forall k | 0 <= k < |s.plan.subBatches|
      ensures RT.CountRight(w, s.plan.subBatches[k], SharesFor(Retained(g, s), k)) >= w.c.T
      ensures |OperatorsFor(Retained(g, s), k)| >= g.c.T
    {
      BackedCounts(g, w, s, helpers, k);
    }
    var options := OptionsOf(g, s.attemptsLeft);
    forall k | 0 <= k < |s.plan.subBatches| ensures s.attemptsLeft[k] >= 1 {
      RT.OneSubBatch(w, s.plan, Retained(g, s), options, k);
      assert options.LimitOf(k) == s.attemptsLeft[k];
    }
    assert OperatorsFor([], 0) == {};
  }

  /** With such a store the slot can be claimed unless it is being or has been decided, and the claim's search gives the
      transactions that were encrypted, in their order. */
  lemma BackedClaimDelivers(g: Setting, w: RT.World, s: Slot, helpers: seq<set<nat>>)
    requires Serves(g, w, s) && Backed(w, s, helpers) && Affordable(g, w, s)
    requires !Terminal(s) && s.shareGenerationDone && !s.combineInFlight
    ensures CanClaim(g, s) && ClaimCombine(g, s).1.Some?
    ensures Outcome(g, ClaimCombine(g, s).1.value).results == Some(Transactions(w))
  {
    hide Inv, RT.PlanFor, RT.Enough, RetainedBelow, HasThreshold, Backed, CombineBounded;
    BackedIsEnough(g, w, s, helpers);
    RT.EndToEnd(w, Retained(g, s), OptionsOf(g, s.attemptsLeft));
  }

  lemma {:induction false} RunKeepsBacked(g: Setting, nodes: seq<Node>, steps: seq<Step>, i: nat, j: nat,
                                          w: RT.World, helpers: seq<set<nat>>)
    requires IsRun(g, nodes, steps) && i <= j < |nodes| && nodes[i].slot.planned
    requires w.c.Sized() && Backed(w, nodes[i].slot, helpers)
    ensures Backed(w, nodes[j].slot, helpers)
  {
    hide IsRun, Kept;
    RunKeepsPlan(g, nodes, steps, i, j);
    forall k, o | 0 <= k < |helpers| && o in helpers[k] ensures HasMade(w, nodes[j].slot, k, o) {
      assert HasMade(w, nodes[i].slot, k, o);
      var d := Cluster.ShareOf(w.c, SecretShare(o, w.key.ShareOf(o)), nodes[i].slot.plan, k).value;
      RunKeepsShares(g, nodes, steps, i, j, o, k, d);
    }
  }

  /** Once a run has planned the encrypted transactions and holds, for every sub-batch, the shares t operators made
      for it, whatever else it holds or receives: the next thread that asks while nothing is in flight gets a claim, if
      what is left of the budget covers the subsets of what is then retained, and when the search of that claim is
      finished the slot has the transactions, in their order, unless it was ended before. */
  lemma RunDelivers(g: Setting, nodes: seq<Node>, steps: seq<Step>, i: nat, j: nat, m: nat,
                    w: RT.World, helpers: seq<set<nat>>)
    requires IsRun(g, nodes, steps) && i <= j < m < |steps|
    requires w.Sound() && w.c == g.c && nodes[i].slot.planned && RT.PlanFor(w) == Some(nodes[i].slot.plan)
    requires Backed(w, nodes[i].slot, helpers)
    requires steps[j].Wake? && Affordable(g, w, nodes[j].slot)
    requires nodes[j].slot.shareGenerationDone && !nodes[j].slot.combineInFlight && !Terminal(nodes[j].slot)
    ensures nodes[j + 1].last.Some? && nodes[j + 1].workers == [Claimed(nodes[j + 1].last.value)]
    ensures Outcome(g, nodes[j + 1].last.value).results == Some(Transactions(w))
    ensures steps[m].Finish? && nodes[m].last == nodes[j + 1].last && !Terminal(nodes[m].slot) ==>
              nodes[m + 1].slot.result == Some(Transactions(w))
  {
    hide NodeInv, Inv, RT.PlanFor, Backed, CanClaim, RetainedBelow, CombineBounded, Affordable;
    RunKeepsPlan(g, nodes, steps, i, j);
    RunKeepsBacked(g, nodes, steps, i, j, w, helpers);
    RunKeeps(g, nodes, steps, j);
    SlotOrderly(g, nodes[j]);
    NoWorkers(g, nodes[j]);
    BackedClaimDelivers(g, w, nodes[j].slot, helpers);
    if steps[m].Finish? && nodes[m].last == nodes[j + 1].last {
      RunFinishes(g, nodes, steps, m);
    }
  }

  lemma NoWorkers(g: Setting, y: Node)
    requires NodeInv(g, y) && !y.slot.combineInFlight
    ensures y.workers == []
  {
    hide Inv, Snapshot, Balanced, Awake, Sufficient;
  }

  /** A search that is finished ends the slot with what the combination of the latest claim gave. */
  lemma RunFinishes(g: Setting, nodes: seq<Node>, steps: seq<Step>, m: nat)
    requires IsRun(g, nodes, steps) && m < |steps| && steps[m].Finish?
    ensures nodes[m].last.Some?
    ensures Outcome(g, nodes[m].last.value).results.Some? && !Terminal(nodes[m].slot) ==>
              nodes[m + 1].slot.result == Outcome(g, nodes[m].last.value).results
  {
    hide Inv, Snapshot, Balanced, Awake, Sufficient, CombineBounded;
    RunKeeps(g, nodes, steps, m);
    RunReports(g, nodes, steps, m);
    assert Reports(g, nodes[m].workers[steps[m].worker]);
  }
}
