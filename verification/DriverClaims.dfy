/** What the claims of a run are worth: when one repeats the last, and when one brings back the transactions. */
module DriverClaims {
  import opened Options
  import opened Bytes
  import opened Arrange
  import opened Subsets
  import opened Cluster
  import opened Combine
  import opened SlotSpec
  import opened SlotInvariant
  import opened Driver
  import Membership
  import EG = ElGamal
  import Btd
  import Shamir
  import RT = RoundTrip

  // ----- which claims repeat -----

  /** The latest claim took what is retained now, or something was accepted since. */
  ghost predicate Since(g: Setting, s: Slot, last: Option<Claim>) {
    last.Some? ==>
      && s.planned && last.value.shareVersion <= s.shareVersion
      && (forall d :: d in last.value.shares ==> Kept(s.candidates, d.operator, d.subBatch, d))
      && (last.value.shareVersion == s.shareVersion ==> Retained(g, s) == last.value.shares)
      && (last.value.shareVersion < s.shareVersion ==>
            exists o, k, d :: Kept(s.candidates, o, k, d) && d !in last.value.shares)
  }

  /** An accepted share is the first of its operator for its sub-batch. */
  lemma AcceptedIsFirst(g: Setting, s: Slot, d: DecryptionShare, e: DecryptionShare)
    requires Inv(g, s) && AddShare(g, s, d).1 == Accepted
    ensures !Kept(s.candidates, d.operator, d.subBatch, e)
  {
    hide Inv, CountIn;
    assert Checked(g, s, d);
    RetainVerdict(g, s, d);
  }

  lemma SinceAdded(g: Setting, s: Slot, d: DecryptionShare, last: Option<Claim>)
    requires Inv(g, s) && Since(g, s, last)
    ensures Since(g, AddShare(g, s, d).0, last)
  {
    hide Inv, AddShare, RetainedBelow;
    AddShareKeeps(g, s, d);
    var (t, v) := AddShare(g, s, d);
    if v != Accepted {
      SameRetained(g, s.candidates, t.candidates, g.c.operators);
    } else if last.Some? && d in last.value.shares {
      AcceptedIsFirst(g, s, d, d);
      assert false;
    }
  }

  lemma SinceClaimed(g: Setting, s: Slot)
    requires Inv(g, s) && CanClaim(g, s)
    ensures Since(g, ClaimCombine(g, s).0, ClaimCombine(g, s).1)
  {
    hide Inv, RetainedBelow, HasThreshold;
    forall d | d in Retained(g, s) ensures Kept(s.candidates, d.operator, d.subBatch, d) {
      ListedIsKept(g, s, d);
    }
  }

  lemma ListedIsKept(g: Setting, s: Slot, d: DecryptionShare)
    requires Inv(g, s)
    ensures d in Retained(g, s) <==> Kept(s.candidates, d.operator, d.subBatch, d)
  {
    hide SlotInvariant.Planned, Ended, RetainedBelow, Entry;
    RetainedIs(g, s, d);
  }

  lemma StepSince(g: Setting, y: Node, e: Step)
    requires Ready(g) && NodeInv(g, y) && Enabled(g, y, e) && Since(g, y.slot, y.last)
    ensures Since(g, After(g, y, e).slot, After(g, y, e).last)
  {
    hide Inv, AddShare, CanClaim, RetainedBelow, Kept, SingleFlight, Balanced, Snapshot, Awake, Outcome;
    match e {
      case Receive(d) => SinceAdded(g, y.slot, d, y.last);
      case AddOwn(d) => SinceAdded(g, y.slot, d, y.last);
      case Wake => if CanClaim(g, y.slot) { SinceClaimed(g, y.slot); }
      case _ =>
    }
  }

  lemma {:induction false} RunSince(g: Setting, nodes: seq<Node>, steps: seq<Step>, i: nat)
    requires IsRun(g, nodes, steps) && i < |nodes|
    ensures Since(g, nodes[i].slot, nodes[i].last)
  {
    hide NodeInv, After, Enabled, Since;
    if i == 0 {
      assert Since(g, nodes[0].slot, nodes[0].last) by { NothingClaimed(g); }
    } else {
      RunSince(g, nodes, steps, i - 1);
      RunKeeps(g, nodes, steps, i - 1);
      StepSince(g, nodes[i - 1], steps[i - 1]);
    }
  }

  lemma NothingClaimed(g: Setting)
    ensures Since(g, FreshNode().slot, FreshNode().last)
  {
  }

  /** A claim takes again exactly what the latest one had if and only if no share was accepted in between; what the
      threads were woken for makes no difference. */
  lemma RunRepeats(g: Setting, nodes: seq<Node>, steps: seq<Step>, i: nat)
    requires IsRun(g, nodes, steps) && i < |steps| && steps[i].Wake? && CanClaim(g, nodes[i].slot)
    requires nodes[i].last.Some?
    ensures nodes[i + 1].last.Some?
    ensures nodes[i + 1].last.value.shares == nodes[i].last.value.shares <==>
              nodes[i].slot.shareVersion == nodes[i].last.value.shareVersion
  {
    hide NodeInv, HasThreshold, RetainedBelow, Kept;
    var s, last := nodes[i].slot, nodes[i].last.value;
    RunKeeps(g, nodes, steps, i);
    SlotOrderly(g, nodes[i]);
    RunSince(g, nodes, steps, i);
    if last.shareVersion < s.shareVersion {
      var o, k, d :| Kept(s.candidates, o, k, d) && d !in last.shares;
      KeptIsListed(g, s, o, k, d);
    }
  }

  // ----- a run in which nothing comes twice, and yet two claims in a row have the same shares -----

  lemma Extend(g: Setting, nodes: seq<Node>, steps: seq<Step>, e: Step) returns (longer: seq<Node>)
    requires IsRun(g, nodes, steps) && Enabled(g, nodes[|steps|], e)
    ensures IsRun(g, longer, steps + [e]) && longer == nodes + [After(g, nodes[|steps|], e)]
  {
    hide Enabled, After;
    longer := nodes + [After(g, nodes[|steps|], e)];
  }

  /** Two shares alone, tried on a sub-batch. */
  function Pair(g: Setting, items: seq<BatchItem>, x: EG.PubShare, y: EG.PubShare): Option<seq<(nat, Bytes)>>
    requires g.c.Sized() && Shamir.IsField()
  {
    Try(g.c, items, [x, y], [0, 1])
  }

  /** The share that operator o makes for the first sub-batch. */
  function Own(w: RT.World, plan: BatchPlan, o: nat): Option<DecryptionShare>
    requires w.c.Sized()
  {
    Cluster.ShareOf(w.c, SecretShare(o, w.key.ShareOf(o)), plan, 0)
  }

  /** The encrypted transactions in one sub-batch, a threshold of two, the share of operator o for it, and two shares of
      others; no two of the three open anything. */
  ghost predicate Unopened(g: Setting, w: RT.World, plan: BatchPlan, o: nat, a: DecryptionShare, b: DecryptionShare) {
    && Ready(g) && g.c.T == 2 && g.maxAttempts >= 4
    && w.Sound() && w.c == g.c && RT.PlanFor(w) == Some(plan) && |plan.subBatches| == 1 && g.c.bMax >= 1
    && o < w.key.n && Own(w, plan, o).Some?
    && ShareFits(g.c, plan, a) && ShareFits(g.c, plan, b)
    && a.operator != b.operator && a.operator != o && b.operator != o
    && var three := {Own(w, plan, o).value.share, a.share, b.share};
       forall x, y :: Some(x) in three && Some(y) in three && x != y ==> Pair(g, plan.subBatches[0], x, y).None?
  }

  /** The operator's own share is made and admissible: the batch passes all checks. */
  lemma OwnFits(g: Setting, w: RT.World, plan: BatchPlan, o: nat, a: DecryptionShare, b: DecryptionShare)
    requires Unopened(g, w, plan, o, a, b)
    ensures ShareFits(g.c, plan, Own(w, plan, o).value) && Own(w, plan, o).value.operator == o
  {
    hide RT.PlanFor, RT.Faithful, RT.Right, Cluster.ShareOf, Total;
    RT.PlanIsFaithful(w);
    RT.SharesAreRight(w, plan, 0, o);
  }

  lemma TryIsPair(g: Setting, items: seq<BatchItem>, s: seq<EG.PubShare>, indices: seq<nat>)
    requires g.c.Sized() && Shamir.IsField() && |indices| == 2 && Increasing(indices, 0, |s|)
    ensures Try(g.c, items, s, indices) == Pair(g, items, s[indices[0]], s[indices[1]])
  {
    hide Btd.BatchCombine, DecryptAll, Pick;
    PickTwo(s, indices);
    PickTwo([s[indices[0]], s[indices[1]]], [0, 1]);
  }

  lemma PickTwo(s: seq<EG.PubShare>, indices: seq<nat>)
    requires |indices| == 2 && indices[0] < |s| && indices[1] < |s|
    ensures Pick(s, indices) == Some([s[indices[0]], s[indices[1]]])
  {
    var r := Pick(s, indices);
    assert r.Some?;
    assert r.value == [s[indices[0]], s[indices[1]]];
  }

  lemma {:induction false} SharesForAtMost(list: seq<DecryptionShare>, k: int)
    ensures |SharesFor(list, k)| <= |list|
    ensures forall x :: x in SharesFor(list, k) ==> exists i :: 0 <= i < |list| && list[i].share == Some(x)
  {
    if list != [] {
      var front := list[..|list| - 1];
      SharesForAtMost(front, k);
      forall x | x in SharesFor(front, k) ensures exists i :: 0 <= i < |list| && list[i].share == Some(x) {
        var i :| 0 <= i < |front| && front[i].share == Some(x);
        assert list[i] == front[i];
      }
    }
  }

  lemma PairsOfThree(n: nat)
    requires n <= 3
    ensures |Visited(n, 2)| <= 3
  {
    if n >= 2 {
      CombinationsCount(0, n, 2);
      assert Binomial(1, 1) == 1 && Binomial(1, 2) == 0;
      assert Binomial(2, 1) == 2 && Binomial(2, 2) == 1;
      assert Binomial(3, 2) == Binomial(2, 1) + Binomial(2, 2);
    }
  }

  /** The search makes three attempts at most, which fail. */
  lemma UnopenedSearch(g: Setting, w: RT.World, plan: BatchPlan, o: nat, a: DecryptionShare, b: DecryptionShare,
                       sub: seq<EG.PubShare>, max: nat)
    requires Unopened(g, w, plan, o, a, b) && |sub| <= 3 && forall i, j :: 0 <= i < j < |sub| ==> sub[i] != sub[j]
    requires forall x :: x in sub ==> Some(x) in {Own(w, plan, o).value.share, a.share, b.share}
    ensures var s := SubBatchSearch(g.c, plan.subBatches[0], sub, max);
            s.out.None? && s.attempts <= 3
  {
    hide Try, RT.PlanFor, Own;
    var attempt, cs := Attempt(g.c, plan.subBatches[0], sub), Visited(|sub|, 2);
    PairsOfThree(|sub|);
    forall i | 0 <= i < |cs| ensures attempt(cs[i]).None? {
      CombinationsSound(0, |sub|, 2, i);
      TryIsPair(g, plan.subBatches[0], sub, cs[i]);
      assert sub[cs[i][0]] in sub && sub[cs[i][1]] in sub;
    }
    SearchFindsNothing(attempt, max, cs, 0);
  }

  lemma UnopenedOutcome(g: Setting, w: RT.World, plan: BatchPlan, o: nat, a: DecryptionShare, b: DecryptionShare,
                        claim: Claim)
    requires Unopened(g, w, plan, o, a, b) && claim.plan == plan && Sufficient(g, claim) && |claim.shares| <= 3
    requires forall d :: d in claim.shares ==> d == Own(w, plan, o).value || d == a || d == b
    ensures var r := Outcome(g, claim);
            r.results.None? && |r.attempts| == 1 && r.attempts[0] <= 3
  {
    hide Admitted, SubBatchSearch, PlanSize, ByIndex, SharesFor, Own, RT.PlanFor;
    var list := SharesFor(claim.shares, 0);
    SharesForAtMost(claim.shares, 0);
    SortKeeps(list);
    RT.AdmittedDistinct(g.c, plan, claim.shares, 0);
    RT.SortDistinct(list);
    var sub := SubShares(claim.shares, 0);
    forall x | x in sub ensures Some(x) in {Own(w, plan, o).value.share, a.share, b.share} {
      var i :| 0 <= i < |claim.shares| && claim.shares[i].share == Some(x);
      assert claim.shares[i] in claim.shares;
    }
    UnopenedSearch(g, w, plan, o, a, b, sub, claim.limits[0]);
  }

  lemma FirstAccepted(g: Setting, s: Slot, d: DecryptionShare)
    requires Inv(g, s) && Checked(g, s, d) && d.operator !in s.candidates
    ensures AddShare(g, s, d).1 == Accepted
    ensures var t := AddShare(g, s, d).0;
            && t == s.(candidates := t.candidates, shareVersion := s.shareVersion + 1)
            && t.candidates.Keys == s.candidates.Keys + {d.operator}
            && forall o, k, e :: Kept(t.candidates, o, k, e) <==>
                 Kept(s.candidates, o, k, e) || (o == d.operator && k == d.subBatch && e == d)
  {
    hide Inv, CountIn;
    RetainShape(g, s, d);
  }

  /** What is retained in the run: these shares, which are enough for a claim. */
  ghost predicate Holding(g: Setting, s: Slot, shares: set<DecryptionShare>) {
    && Inv(g, s)
    && forall o, k, d :: Kept(s.candidates, o, k, d) <==> d in shares && o == d.operator && k == d.subBatch
  }

  lemma HoldingListed(g: Setting, s: Slot, d0: DecryptionShare, a: DecryptionShare, b: DecryptionShare)
    requires Holding(g, s, {d0, a, b})
    ensures forall d :: d in Retained(g, s) <==> d == d0 || d == a || d == b
    ensures |Retained(g, s)| <= 3
  {
    hide Inv, RetainedBelow, Apart;
    var list := Retained(g, s);
    forall d ensures d in list <==> d == d0 || d == a || d == b {
      ListedIsKept(g, s, d);
    }
    forall i | 0 <= i < |list| ensures list[i] == d0 || list[i] == a || list[i] == b {
      assert list[i] in list;
    }
    ListedApart(g, s);
    AtMostThree(list, d0, a, b);
  }

  lemma AtMostThree(list: seq<DecryptionShare>, d0: DecryptionShare, a: DecryptionShare, b: DecryptionShare)
    requires Apart(list) && forall i :: 0 <= i < |list| ==> list[i] == d0 || list[i] == a || list[i] == b
    ensures |list| <= 3
  {
    hide Apart;
    if |list| > 3 {
      TwoApart(list, 0, 1);
      TwoApart(list, 0, 2);
      TwoApart(list, 0, 3);
      TwoApart(list, 1, 2);
      TwoApart(list, 1, 3);
      TwoApart(list, 2, 3);
    }
  }

  lemma TwoApart(list: seq<DecryptionShare>, i: nat, j: nat)
    requires Apart(list) && i < j < |list|
    ensures list[i] != list[j]
  {
  }

  lemma ListedApart(g: Setting, s: Slot)
    requires Inv(g, s)
    ensures Apart(Retained(g, s))
  {
    hide SlotInvariant.Planned, Ended, RetainedBelow, Entry;
    RetainedIs(g, s, DecryptionShare(0, [], 0, None));
  }

  /** Planned and not claimed yet; whether all own shares are made is told apart. */
  ghost predicate Open(g: Setting, plan: BatchPlan, y: Node, done: bool) {
    && y.workers == [] && y.last.None?
    && y.slot.plan == plan && y.slot.planned && y.slot.shareGenerationDone == done && !y.slot.combineInFlight
    && !Terminal(y.slot) && y.slot.attemptsLeft == [g.maxAttempts]
  }

  lemma HoldingClaim(g: Setting, plan: BatchPlan, s: Slot, d0: DecryptionShare, a: DecryptionShare, b: DecryptionShare)
    requires g.Sound() && g.c.T == 2 && |plan.subBatches| == 1 && Holding(g, s, {d0, a, b})
    requires a.subBatch == 0 && b.subBatch == 0 && a.operator != b.operator
    requires s.plan == plan && s.planned && s.shareGenerationDone
    requires !Terminal(s) && !s.combineInFlight && |s.attemptsLeft| == 1 && s.attemptsLeft[0] > 0
    ensures CanClaim(g, s)
  {
    hide Inv, RetainedBelow;
    HoldingListed(g, s, d0, a, b);
    var list := Retained(g, s);
    assert a in list && b in list;
    var i :| 0 <= i < |list| && list[i] == a;
    var j :| 0 <= j < |list| && list[j] == b;
    assert {a.operator, b.operator} <= OperatorsFor(list, 0);
    Membership.SubsetSize({a.operator, b.operator}, OperatorsFor(list, 0));
  }

  lemma Started(g: Setting)
    requires Ready(g)
    ensures IsRun(g, [FreshNode()], [])
  {
  }

  lemma Opened(g: Setting, plan: BatchPlan)
    requires Ready(g) && |plan.subBatches| == 1 && g.c.bMax >= 1
    ensures Enabled(g, FreshNode(), Driver.Planned(plan))
    ensures var y := After(g, FreshNode(), Driver.Planned(plan));
            && Open(g, plan, y, false) && y.wakeups == 0 && y.slot.candidates == map[]
            && forall o, k, d :: !Kept(y.slot.candidates, o, k, d)
  {
    assert Prune(map[], plan) == map[];
    assert seq(1, _ => g.maxAttempts) == [g.maxAttempts];
  }

  /** A first share of an operator is accepted: the own one, or one received. */
  lemma Gained(g: Setting, plan: BatchPlan, y: Node, d: DecryptionShare, done: bool)
    requires Ready(g) && NodeInv(g, y) && Open(g, plan, y, done) && ShareFits(g.c, plan, d)
    requires |plan.subBatches| <= g.c.bMax && d.operator !in y.slot.candidates
    ensures AddShare(g, y.slot, d).1 == Accepted
    ensures var z := y.(slot := AddShare(g, y.slot, d).0);
            && Open(g, plan, z, done)
            && z.slot.candidates.Keys == y.slot.candidates.Keys + {d.operator}
            && forall o, k, e :: Kept(z.slot.candidates, o, k, e) <==>
                 Kept(y.slot.candidates, o, k, e) || (o == d.operator && k == d.subBatch && e == d)
  {
    hide NodeInv, AddShare, Inv;
    SlotOrderly(g, y);
    FirstAccepted(g, y.slot, d);
  }

  function TwiceSteps(w: RT.World, plan: BatchPlan, o: nat, a: DecryptionShare, b: DecryptionShare): seq<Step>
    requires w.c.Sized() && Own(w, plan, o).Some?
  {
    [Driver.Planned(plan), AddOwn(Own(w, plan, o).value), AllShared, Receive(a), Receive(b),
     Wake, Explore(0), Book(0), Finish(0), Wake]
  }

  /** Planned, and the own share made. */
  lemma OwnHeld(g: Setting, w: RT.World, plan: BatchPlan, o: nat, a: DecryptionShare, b: DecryptionShare)
    returns (nodes: seq<Node>)
    requires Unopened(g, w, plan, o, a, b)
    ensures IsRun(g, nodes, TwiceSteps(w, plan, o, a, b)[..3])
    ensures var d0 := Own(w, plan, o).value;
            && d0.operator == o && AddShare(g, nodes[1].slot, d0).1 == Accepted
            && nodes[3].slot.candidates.Keys == {o}
            && forall p, k, d :: Kept(nodes[3].slot.candidates, p, k, d) <==>
                 d == d0 && p == d.operator && k == d.subBatch
    ensures Open(g, plan, nodes[3], true) && nodes[3].wakeups == 1 && |nodes| == 4
  {
    hide IsRun, NodeInv, AddShare, Inv, Own, RT.PlanFor, Pair;
    var steps, d0 := TwiceSteps(w, plan, o, a, b), Own(w, plan, o).value;
    OwnFits(g, w, plan, o, a, b);
    Opened(g, plan);
    Started(g);
    var n1 := Extend(g, [FreshNode()], [], steps[0]);
    assert [] + [steps[0]] == steps[..1];
    RunKeeps(g, n1, steps[..1], 1);
    Gained(g, plan, n1[1], d0, false);
    var n2 := Extend(g, n1, steps[..1], steps[1]);
    assert steps[..1] + [steps[1]] == steps[..2];
    nodes := Extend(g, n2, steps[..2], AllShared);
    assert steps[..2] + [AllShared] == steps[..3];
  }

  /** And both others received: each was accepted, and woke a thread. */
  lemma ThreeHeld(g: Setting, w: RT.World, plan: BatchPlan, o: nat, a: DecryptionShare, b: DecryptionShare)
    returns (nodes: seq<Node>)
    requires Unopened(g, w, plan, o, a, b)
    ensures IsRun(g, nodes, TwiceSteps(w, plan, o, a, b)[..5])
    ensures AddShare(g, nodes[1].slot, Own(w, plan, o).value).1 == Accepted
    ensures AddShare(g, nodes[3].slot, a).1 == Accepted && AddShare(g, nodes[4].slot, b).1 == Accepted
    ensures Open(g, plan, nodes[5], true) && nodes[5].wakeups == 3 && NodeInv(g, nodes[5])
    ensures Holding(g, nodes[5].slot, {Own(w, plan, o).value, a, b})
  {
    hide IsRun, NodeInv, AddShare, Inv, Own, RT.PlanFor, Pair, RT.World.Sound;
    var steps := TwiceSteps(w, plan, o, a, b);
    var n3 := OwnHeld(g, w, plan, o, a, b);
    RunKeeps(g, n3, steps[..3], 3);
    Gained(g, plan, n3[3], a, true);
    var n4 := Extend(g, n3, steps[..3], steps[3]);
    assert steps[..3] + [steps[3]] == steps[..4];
    RunKeeps(g, n4, steps[..4], 4);
    Gained(g, plan, n4[4], b, true);
    nodes := Extend(g, n4, steps[..4], steps[4]);
    assert steps[..4] + [steps[4]] == steps[..5];
    RunKeeps(g, nodes, steps[..5], 5);
    SlotOrderly(g, nodes[5]);
  }

  /** A claim that fails with attempts left, while another thread is about to ask: the next one has the same shares. */
  lemma FailsAgain(g: Setting, w: RT.World, plan: BatchPlan, o: nat, a: DecryptionShare, b: DecryptionShare, y: Node)
    requires Unopened(g, w, plan, o, a, b) && NodeInv(g, y) && Open(g, plan, y, true) && y.wakeups >= 2
    requires Holding(g, y.slot, {Own(w, plan, o).value, a, b})
    ensures Enabled(g, y, Wake) && CanClaim(g, y.slot)
    ensures var y1 := After(g, y, Wake);
            && Enabled(g, y1, Explore(0)) && y1.last.Some?
            && var y2 := After(g, y1, Explore(0));
            && Enabled(g, y2, Book(0))
            && var y3 := After(g, y2, Book(0));
            && Enabled(g, y3, Finish(0))
            && var y4 := After(g, y3, Finish(0));
            && y4.slot.shareVersion == y1.last.value.shareVersion && y4.last == y1.last
            && Enabled(g, y4, Wake) && CanClaim(g, y4.slot)
  {
    hide NodeInv, Inv, CombineBounded, RetainedBelow, HasThreshold, Own, RT.PlanFor, Pair;
    var d0 := Own(w, plan, o).value;
    HoldingClaim(g, plan, y.slot, d0, a, b);
    ClaimKeeps(g, y.slot);
    var y1 := After(g, y, Wake);
    HoldingListed(g, y.slot, d0, a, b);
    UnopenedOutcome(g, w, plan, o, a, b, y1.last.value);
    var y2 := After(g, y1, Explore(0));
    var y3 := After(g, y2, Book(0));
    var y4 := After(g, y3, Finish(0));
    assert y4.slot.candidates == y.slot.candidates;
    StepKeeps(g, y, Wake);
    StepKeeps(g, y1, Explore(0));
    StepKeeps(g, y2, Book(0));
    StepKeeps(g, y3, Finish(0));
    SlotOrderly(g, y4);
    HoldingClaim(g, plan, y4.slot, d0, a, b);
  }

  lemma ClaimFails(g: Setting, w: RT.World, plan: BatchPlan, o: nat, a: DecryptionShare, b: DecryptionShare)
    returns (nodes: seq<Node>)
    requires Unopened(g, w, plan, o, a, b)
    ensures IsRun(g, nodes, TwiceSteps(w, plan, o, a, b)[..9])
    ensures AddShare(g, nodes[1].slot, Own(w, plan, o).value).1 == Accepted
    ensures AddShare(g, nodes[3].slot, a).1 == Accepted && AddShare(g, nodes[4].slot, b).1 == Accepted
    ensures nodes[6].last.Some? && nodes[9].last == nodes[6].last
    ensures Enabled(g, nodes[9], Wake) && CanClaim(g, nodes[9].slot)
    ensures nodes[9].slot.shareVersion == nodes[9].last.value.shareVersion
  {
    hide IsRun, NodeInv, AddShare, RT.PlanFor, Pair, Inv, After, Enabled, Open, Holding, CanClaim, Own;
    var steps := TwiceSteps(w, plan, o, a, b);
    var n5 := ThreeHeld(g, w, plan, o, a, b);
    RunLength(g, n5, steps[..5]);
    FailsAgain(g, w, plan, o, a, b, n5[5]);
    var n6 := Extend(g, n5, steps[..5], steps[5]);
    assert steps[..5] + [steps[5]] == steps[..6];
    var n7 := Extend(g, n6, steps[..6], steps[6]);
    assert steps[..6] + [steps[6]] == steps[..7];
    var n8 := Extend(g, n7, steps[..7], steps[7]);
    assert steps[..7] + [steps[7]] == steps[..8];
    nodes := Extend(g, n8, steps[..8], steps[8]);
    assert steps[..8] + [steps[8]] == steps[..9];
  }

  lemma RunLength(g: Setting, nodes: seq<Node>, steps: seq<Step>)
    requires IsRun(g, nodes, steps)
    ensures |nodes| == |steps| + 1
  {
  }

  /** A run on a batch that verifies, in which the own share is made and nothing is received twice, and yet the driver
      makes the same attempt twice: each acceptance woke a thread, and the first claim had all three shares. */
  lemma TwiceWithTheSameShares(g: Setting, w: RT.World, plan: BatchPlan, o: nat, a: DecryptionShare, b: DecryptionShare)
    returns (nodes: seq<Node>)
    requires Unopened(g, w, plan, o, a, b)
    ensures IsRun(g, nodes, TwiceSteps(w, plan, o, a, b))
    ensures AddShare(g, nodes[1].slot, Own(w, plan, o).value).1 == Accepted
    ensures AddShare(g, nodes[3].slot, a).1 == Accepted && AddShare(g, nodes[4].slot, b).1 == Accepted
    ensures CanClaim(g, nodes[9].slot) && nodes[6].last.Some? && nodes[10].last.Some?
    ensures nodes[10].last.value.shares == nodes[6].last.value.shares
  {
    hide IsRun, AddShare, RT.PlanFor, Pair, After, Enabled, CanClaim, Own;
    var steps := TwiceSteps(w, plan, o, a, b);
    var n9 := ClaimFails(g, w, plan, o, a, b);
    RunLength(g, n9, steps[..9]);
    nodes := Extend(g, n9, steps[..9], steps[9]);
    assert steps[..9] + [steps[9]] == steps;
    RunRepeats(g, nodes, steps, 9);
  }
}
