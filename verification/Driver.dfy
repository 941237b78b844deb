/** Threads that receive shares, plan, and reconstruct, interleaved at the slot's lock: one reconstruction at
    a time, within the budget, and no accepted share left behind. */
module Driver {
  import opened Options
  import opened Bytes
  import Shamir
  import opened Arrange
  import opened Cluster
  import opened Combine
  import opened SlotSpec
  import opened SlotInvariant

  /** A thread inside a reconstruction: after its claim, after the search, after it has booked the attempts. */
  datatype Worker =
    | Claimed(claim: Claim)
    | Tried(claim: Claim, outcome: Combined)
    | Recorded(claim: Claim, results: Option<seq<Option<Bytes>>>)

  /** The slot, the threads inside a reconstruction, how many are about to ask for one; then history: the
      attempts made so far per sub-batch, and the latest claim. */
  datatype Node = Node(slot: Slot, workers: seq<Worker>, wakeups: nat, spent: seq<nat>, last: Option<Claim>)

  /** AllShared asks for no own share, since a node can be set to withhold them. */
  datatype Step =
    | Begin
    | Receive(share: DecryptionShare)
    | AddOwn(share: DecryptionShare)
    | Planned(plan: BatchPlan)
    | PlannedEmpty
    | AllShared
    | Wake
    | Explore(worker: nat)
    | Book(worker: nat)
    | Finish(worker: nat)
    | GiveUp(reason: string)

  ghost predicate Ready(g: Setting) {
    g.Sound() && g.c.Sized() && Shamir.IsField()
  }

  ghost predicate Enabled(g: Setting, y: Node, e: Step) {
    match e
    case AddOwn(_) => !y.slot.shareGenerationDone
    case Planned(plan) => 0 < |plan.subBatches| <= g.c.bMax
    case AllShared => Armed(y.slot)
    case Wake => y.wakeups > 0
    case Explore(i) => i < |y.workers| && y.workers[i].Claimed?
    case Book(i) => i < |y.workers| && y.workers[i].Tried?
    case Finish(i) => i < |y.workers| && y.workers[i].Recorded?
    case _ => true
  }

  function Plus(a: seq<nat>, b: seq<nat>): seq<nat> {
    seq(|a|, k requires 0 <= k < |a| => if k < |b| then a[k] + b[k] else a[k])
  }

  function Without(ws: seq<Worker>, i: nat): seq<Worker>
    requires i < |ws|
  {
    ws[..i] + ws[i + 1..]
  }

  function Outcome(g: Setting, claim: Claim): Combined
    requires g.c.Sized() && Shamir.IsField()
  {
    CombineBounded(g.c, claim.plan, claim.shares, OptionsOf(g, claim.limits))
  }

  ghost function After(g: Setting, y: Node, e: Step): Node
    requires Ready(g) && Enabled(g, y, e)
  {
    match e
    case Begin => y.(slot := Start(y.slot))
    case Receive(d) =>
      var (t, v) := AddShare(g, y.slot, d);
      y.(slot := t, wakeups := y.wakeups + if v.Rejected? then 0 else 1)
    case AddOwn(d) => y.(slot := AddShare(g, y.slot, d).0)
    case Planned(plan) =>
      if y.slot.planned || y.slot.failure.Some? then y
      else y.(slot := PlanReady(g, y.slot, plan), spent := Zeros(|plan.subBatches|))
    case PlannedEmpty => y.(slot := PlanEmpty(y.slot))
    case AllShared => y.(slot := SharesDone(y.slot), wakeups := y.wakeups + 1)
    case Wake =>
      var (t, claim) := ClaimCombine(g, y.slot);
      if claim.None? then y.(wakeups := y.wakeups - 1)
      else y.(slot := t, wakeups := y.wakeups - 1, workers := y.workers + [Claimed(claim.value)], last := claim)
    case Explore(i) =>
      var claim := y.workers[i].claim;
      y.(workers := y.workers[i := Tried(claim, Outcome(g, claim))], spent := Plus(y.spent, Outcome(g, claim).attempts))
    case Book(i) =>
      var w := y.workers[i];
      y.(slot := RecordStats(y.slot, w.outcome.attempts),
         workers := y.workers[i := Recorded(w.claim, w.outcome.results)])
    case Finish(i) =>
      var w := y.workers[i];
      var rest := y.(workers := Without(y.workers, i));
      if w.results.Some? then rest.(slot := FinishCombined(y.slot, w.results.value))
      else
        var (t, again) := FinishFailed(y.slot, w.claim.shareVersion);
        rest.(slot := t, wakeups := y.wakeups + if again then 1 else 0)
    case GiveUp(reason) => y.(slot := Fail(y.slot, reason))
  }

  function FreshNode(): Node {
    Node(Fresh(), [], 0, [], None)
  }

  ghost predicate IsRun(g: Setting, nodes: seq<Node>, steps: seq<Step>) {
    && Ready(g)
    && |nodes| == |steps| + 1
    && nodes[0] == FreshNode()
    && forall i :: 0 <= i < |steps| ==> Enabled(g, nodes[i], steps[i]) && nodes[i + 1] == After(g, nodes[i], steps[i])
  }

  // ----- the invariant of a run -----

  /** The attempts made by the current search that are not booked yet. */
  function Unbooked(ws: seq<Worker>, k: nat): nat {
    if |ws| == 1 && ws[0].Tried? && k < |ws[0].outcome.attempts| then ws[0].outcome.attempts[k] else 0
  }

  /** One reconstruction at a time, on a claim that passes all checks and whose limits are what is left. */
  ghost predicate SingleFlight(g: Setting, s: Slot, ws: seq<Worker>, last: Option<Claim>) {
    && |ws| <= 1 && (s.combineInFlight <==> |ws| == 1)
    && (|ws| == 1 ==>
          var claim := ws[0].claim;
          && last == Some(claim) && claim.plan == s.plan && Sufficient(g, claim)
          && (!ws[0].Recorded? ==> claim.limits == s.attemptsLeft)
          && (ws[0].Tried? ==>
                && |ws[0].outcome.attempts| == |s.attemptsLeft|
                && forall k :: 0 <= k < |s.attemptsLeft| ==> ws[0].outcome.attempts[k] <= s.attemptsLeft[k]))
  }

  /** The latest claim took all that was retained at its version. */
  ghost predicate Snapshot(s: Slot, last: Option<Claim>) {
    last.Some? ==>
      && Armed(s) && last.value.shareVersion <= s.shareVersion
      && (last.value.shareVersion == s.shareVersion ==>
            forall o, k, d :: Kept(s.candidates, o, k, d) ==> d in last.value.shares)
  }

  ghost predicate Balanced(g: Setting, s: Slot, ws: seq<Worker>, spent: seq<nat>) {
    Armed(s) ==>
      && |spent| == |s.attemptsLeft|
      && forall k :: 0 <= k < |spent| ==> spent[k] + s.attemptsLeft[k] == g.maxAttempts + Unbooked(ws, k)
  }

  /** While a reconstruction could start with shares no earlier one had, someone is about to ask for it. */
  ghost predicate Awake(g: Setting, s: Slot, wakeups: nat, last: Option<Claim>) {
    CanClaim(g, s) && (last.None? || last.value.shareVersion < s.shareVersion) ==> wakeups > 0
  }

  ghost predicate NodeInv(g: Setting, y: Node) {
    && Inv(g, y.slot)
    && SingleFlight(g, y.slot, y.workers, y.last)
    && Snapshot(y.slot, y.last)
    && Balanced(g, y.slot, y.workers, y.spent)
    && Awake(g, y.slot, y.wakeups, y.last)
  }

  lemma FreshIsInv(g: Setting)
    requires Ready(g)
    ensures NodeInv(g, FreshNode())
  {
    SlotInvariant.FreshIsInv(g);
  }

  // ----- the steps -----

  lemma SharesOfNothing(n: nat)
    ensures SharesBelow(map[], n) == []
  {
    if n > 0 { SharesOfNothing(n - 1); }
  }

  /** What is kept determines the list of retained shares. */
  lemma {:induction false} SameRetained(g: Setting, a: map<int, Candidates>, b: map<int, Candidates>, n: nat)
    requires forall o, k, d :: Kept(a, o, k, d) <==> Kept(b, o, k, d)
    ensures RetainedBelow(g, a, n) == RetainedBelow(g, b, n)
  {
    if n > 0 {
      SameRetained(g, a, b, n - 1);
      SameFile(g, a, b, n - 1);
    }
  }

  lemma SameFile(g: Setting, a: map<int, Candidates>, b: map<int, Candidates>, o: int)
    requires forall k, d :: Kept(a, o, k, d) <==> Kept(b, o, k, d)
    ensures (if o in a then SharesBelow(a[o].shares, g.c.bMax) else []) ==
              (if o in b then SharesBelow(b[o].shares, g.c.bMax) else [])
  {
    var x := if o in a then a[o].shares else map[];
    var y := if o in b then b[o].shares else map[];
    SharesOfNothing(g.c.bMax);
    forall k | k in x ensures k in y && y[k] == x[k] {
      assert Kept(a, o, k, x[k]);
    }
    forall k | k in y ensures k in x && x[k] == y[k] {
      assert Kept(b, o, k, y[k]);
    }
    assert x == y;
  }

  lemma AddChangesNothing(g: Setting, s: Slot, d: DecryptionShare)
    requires Inv(g, s) && AddShare(g, s, d).1 != Accepted
    ensures CanClaim(g, AddShare(g, s, d).0) <==> CanClaim(g, s)
  {
    hide AddShare, Inv, HasThreshold, RetainedBelow;
    AddShareKeeps(g, s, d);
    SameRetained(g, s.candidates, AddShare(g, s, d).0.candidates, g.c.operators);
  }

  lemma AddedSnapshot(g: Setting, s: Slot, d: DecryptionShare, last: Option<Claim>)
    requires Inv(g, s) && Snapshot(s, last)
    ensures Snapshot(AddShare(g, s, d).0, last)
  {
    hide AddShare, Inv;
    AddShareKeeps(g, s, d);
  }

  lemma ShareAdded(g: Setting, y: Node, d: DecryptionShare, wakeups: nat)
    requires Ready(g) && NodeInv(g, y) && wakeups >= y.wakeups
    requires wakeups > 0 || !y.slot.shareGenerationDone || AddShare(g, y.slot, d).1 != Accepted
    ensures NodeInv(g, y.(slot := AddShare(g, y.slot, d).0, wakeups := wakeups))
  {
    hide AddShare, Inv, Sufficient, HasThreshold, RetainedBelow, Snapshot;
    AddShareKeeps(g, y.slot, d);
    AddedSnapshot(g, y.slot, d, y.last);
    if AddShare(g, y.slot, d).1 != Accepted {
      AddChangesNothing(g, y.slot, d);
    }
  }

  lemma QuietStep(g: Setting, y: Node, reason: string)
    requires Ready(g) && NodeInv(g, y)
    ensures NodeInv(g, y.(slot := Start(y.slot))) && NodeInv(g, y.(slot := Fail(y.slot, reason)))
    ensures NodeInv(g, y.(slot := PlanEmpty(y.slot)))
    ensures Armed(y.slot) ==> NodeInv(g, y.(slot := SharesDone(y.slot), wakeups := y.wakeups + 1))
  {
    hide Filed, SlotInvariant.Planned, Sufficient, HasThreshold, RetainedBelow, Kept;
    QuietStepsKeep(g, y.slot, reason);
    NothingYet(g, y.slot);
  }

  /** Before there is a batch to decrypt, nothing can be claimed. */
  lemma NothingYet(g: Setting, s: Slot)
    requires Inv(g, s)
    ensures !Armed(s) ==> !s.shareGenerationDone && !s.combineInFlight
    ensures !s.planned ==> !Armed(s)
  {
    hide Filed, ForPlan;
  }

  lemma PlannedStep(g: Setting, y: Node, plan: BatchPlan)
    requires Ready(g) && NodeInv(g, y) && 0 < |plan.subBatches| <= g.c.bMax
    requires !y.slot.planned && y.slot.failure.None?
    ensures NodeInv(g, y.(slot := PlanReady(g, y.slot, plan), spent := Zeros(|plan.subBatches|)))
  {
    hide Filed, SlotInvariant.Planned, Sufficient, HasThreshold, RetainedBelow, Kept, Prune;
    PlanReadyKeeps(g, y.slot, plan);
    NothingYet(g, y.slot);
  }

  lemma WakeStep(g: Setting, y: Node)
    requires Ready(g) && NodeInv(g, y) && y.wakeups > 0
    ensures NodeInv(g, After(g, y, Wake))
  {
    hide Filed, ForPlan, Sufficient, HasThreshold, RetainedBelow, Kept, Ended;
    if CanClaim(g, y.slot) {
      ClaimKeeps(g, y.slot);
      forall o, k, d | Kept(y.slot.candidates, o, k, d) ensures d in Retained(g, y.slot) {
        KeptIsListed(g, y.slot, o, k, d);
      }
    }
  }

  lemma KeptIsListed(g: Setting, s: Slot, o: int, k: int, d: DecryptionShare)
    requires Inv(g, s) && Kept(s.candidates, o, k, d)
    ensures d in Retained(g, s)
  {
    hide SlotInvariant.Planned, Ended, RetainedBelow;
    assert Entry(g, o, s.candidates[o]);
    RetainedIs(g, s, d);
  }

  /** A search makes no more attempts than are left for any sub-batch. */
  lemma SearchWithinLimits(g: Setting, claim: Claim)
    requires Ready(g) && Sufficient(g, claim)
    ensures var a := Outcome(g, claim).attempts;
            |a| == |claim.plan.subBatches| && forall k :: 0 <= k < |a| ==> a[k] <= claim.limits[k]
  {
    hide CombineBounded, Admitted, SubShares;
    NoWorkWithoutSubBatches(g, claim);
    forall k | 0 <= k < |claim.plan.subBatches| ensures Outcome(g, claim).attempts[k] <= claim.limits[k] {
      WorkIsBounded(g.c, claim.plan, claim.shares, OptionsOf(g, claim.limits), k);
    }
  }

  lemma NoWorkWithoutSubBatches(g: Setting, claim: Claim)
    requires Ready(g) && Sufficient(g, claim)
    ensures |Outcome(g, claim).attempts| == |claim.plan.subBatches|
  {
    hide SubShares, Admitted, PlanSize;
    if claim.plan.subBatches != [] {
      WorkIsBounded(g.c, claim.plan, claim.shares, OptionsOf(g, claim.limits), 0);
    }
  }

  lemma SearchStep(g: Setting, y: Node, i: nat)
    requires Ready(g) && NodeInv(g, y) && Enabled(g, y, Explore(i))
    ensures NodeInv(g, After(g, y, Explore(i)))
  {
    hide Inv, Sufficient, HasThreshold, RetainedBelow, Kept, CombineBounded, CanClaim;
    SearchWithinLimits(g, y.workers[i].claim);
    LimitsFit(g, y);
  }

  lemma LimitsFit(g: Setting, y: Node)
    requires NodeInv(g, y) && |y.workers| == 1
    ensures Armed(y.slot) && |y.slot.attemptsLeft| == |y.slot.plan.subBatches|
    ensures y.workers[0].claim.plan == y.slot.plan && !CanClaim(g, y.slot)
  {
    hide Filed, ForPlan, Sufficient, HasThreshold, RetainedBelow, Kept;
  }

  lemma BookStep(g: Setting, y: Node, i: nat)
    requires Ready(g) && NodeInv(g, y) && Enabled(g, y, Book(i))
    ensures NodeInv(g, After(g, y, Book(i)))
  {
    hide Inv, Sufficient, HasThreshold, RetainedBelow, Kept;
    LimitsFit(g, y);
    RecordKeeps(g, y.slot, y.workers[i].outcome.attempts);
  }

  lemma FinishStep(g: Setting, y: Node, i: nat)
    requires Ready(g) && NodeInv(g, y) && Enabled(g, y, Finish(i))
    ensures NodeInv(g, After(g, y, Finish(i)))
  {
    hide Inv, Sufficient, HasThreshold, RetainedBelow, Kept;
    LimitsFit(g, y);
    var w := y.workers[i];
    ReleaseKeeps(g, y.slot, w.claim.shareVersion, if w.results.Some? then w.results.value else []);
    assert Without(y.workers, i) == [];
  }

  /** Every step keeps the invariant. */
  lemma StepKeeps(g: Setting, y: Node, e: Step)
    requires Ready(g) && NodeInv(g, y) && Enabled(g, y, e)
    ensures NodeInv(g, After(g, y, e))
  {
    hide NodeInv, AddShare, PlanReady, ClaimCombine;
    match e {
      case Begin => QuietStep(g, y, "");
      case Receive(d) => ShareAdded(g, y, d, y.wakeups + if AddShare(g, y.slot, d).1.Rejected? then 0 else 1);
      case AddOwn(d) => ShareAdded(g, y, d, y.wakeups);
      case Planned(plan) =>
        if !(y.slot.planned || y.slot.failure.Some?) { PlannedStep(g, y, plan); }
      case PlannedEmpty => QuietStep(g, y, "");
      case AllShared => QuietStep(g, y, "");
      case Wake => WakeStep(g, y);
      case Explore(i) => SearchStep(g, y, i);
      case Book(i) => BookStep(g, y, i);
      case Finish(i) => FinishStep(g, y, i);
      case GiveUp(reason) => QuietStep(g, y, reason);
    }
  }

  lemma {:induction false} RunKeeps(g: Setting, nodes: seq<Node>, steps: seq<Step>, i: nat)
    requires IsRun(g, nodes, steps) && i < |nodes|
    ensures NodeInv(g, nodes[i])
  {
    hide NodeInv, After, Enabled;
    if i == 0 {
      FreshIsInv(g);
    } else {
      RunKeeps(g, nodes, steps, i - 1);
      StepKeeps(g, nodes[i - 1], steps[i - 1]);
    }
  }

  // ----- what every run guarantees -----

  /** One reconstruction is in flight at most, and the attempts made for a sub-batch, over all of them,
      stay within the limit. */
  lemma RunIsFrugal(g: Setting, nodes: seq<Node>, steps: seq<Step>, i: nat)
    requires IsRun(g, nodes, steps) && i < |nodes|
    ensures |nodes[i].workers| <= 1
    ensures Armed(nodes[i].slot) ==>
              && |nodes[i].spent| == |nodes[i].slot.plan.subBatches|
              && forall k :: 0 <= k < |nodes[i].spent| ==> nodes[i].spent[k] <= g.maxAttempts
  {
    hide IsRun, Inv, Snapshot, Awake, Sufficient;
    RunKeeps(g, nodes, steps, i);
    var y := nodes[i];
    PlanFits(g, y.slot);
    if |y.workers| == 1 { LimitsFit(g, y); }
  }

  lemma PlanFits(g: Setting, s: Slot)
    requires Inv(g, s)
    ensures Armed(s) ==>
              && |s.attemptsLeft| == |s.plan.subBatches|
              && forall k :: 0 <= k < |s.attemptsLeft| ==> s.attemptsLeft[k] >= 0
  {
    hide Filed, ForPlan;
  }

  /** Booking a search takes exactly the attempts made off what is left: the cut at zero is never used. */
  lemma RunBooksExactly(g: Setting, nodes: seq<Node>, steps: seq<Step>, i: nat, k: nat)
    requires IsRun(g, nodes, steps) && i < |steps| && steps[i].Book?
    requires k < |nodes[i].slot.attemptsLeft|
    ensures steps[i].worker < |nodes[i].workers| && nodes[i].workers[steps[i].worker].Tried?
    ensures var attempts := nodes[i].workers[steps[i].worker].outcome.attempts;
            && k < |attempts| && k < |nodes[i + 1].slot.attemptsLeft|
            && nodes[i + 1].slot.attemptsLeft[k] == nodes[i].slot.attemptsLeft[k] - attempts[k] >= 0
  {
    hide Inv, Snapshot, Awake, Sufficient, Balanced, CombineBounded;
    RunKeeps(g, nodes, steps, i);
  }

  /** The store never has to turn a share away for lack of room. */
  lemma RunHasRoom(g: Setting, nodes: seq<Node>, steps: seq<Step>, i: nat, d: DecryptionShare)
    requires IsRun(g, nodes, steps) && i < |nodes|
    ensures AddShare(g, nodes[i].slot, d).1 != Rejected("capacity")
  {
    hide IsRun, SingleFlight, Snapshot, Awake, Balanced, Inv, AddShare;
    RunKeeps(g, nodes, steps, i);
    AddShareKeeps(g, nodes[i].slot, d);
  }

  /** What a claim hands over passes every check of the combination but the search itself. */
  lemma RunClaimsSuffice(g: Setting, nodes: seq<Node>, steps: seq<Step>, i: nat, j: nat)
    requires IsRun(g, nodes, steps) && i < |nodes| && j < |nodes[i].workers|
    ensures var claim := nodes[i].workers[j].claim;
            && OptionsFit(claim.plan, OptionsOf(g, claim.limits)) && Admitted(g.c, claim.plan, claim.shares)
            && forall k :: 0 <= k < |claim.plan.subBatches| ==>
                 |SubShares(claim.shares, k)| >= g.c.T && claim.limits[k] >= 1
  {
    hide IsRun, Snapshot, Awake, Balanced, Inv, Admitted, SubShares;
    RunKeeps(g, nodes, steps, i);
  }

  /** A retained share that the latest claim did not have is not stranded: if a reconstruction can start,
      a thread is about to ask for one, and the claim it then gets has the share. */
  lemma RunStrandsNothing(g: Setting, nodes: seq<Node>, steps: seq<Step>, i: nat, o: int, k: int, d: DecryptionShare)
    requires IsRun(g, nodes, steps) && i < |nodes|
    requires Kept(nodes[i].slot.candidates, o, k, d) && CanClaim(g, nodes[i].slot)
    requires nodes[i].last.None? || d !in nodes[i].last.value.shares
    ensures nodes[i].wakeups > 0
    ensures var claim := ClaimCombine(g, nodes[i].slot).1;
            claim.Some? && d in claim.value.shares
  {
    hide IsRun, SingleFlight, Balanced, Inv, HasThreshold, RetainedBelow;
    RunKeeps(g, nodes, steps, i);
    KeptIsListed(g, nodes[i].slot, o, k, d);
  }

  /** What is kept after planning is kept for good. */
  lemma StepKeepsShares(g: Setting, y: Node, e: Step, o: int, k: int, d: DecryptionShare)
    requires Ready(g) && NodeInv(g, y) && Enabled(g, y, e) && y.slot.planned && Kept(y.slot.candidates, o, k, d)
    ensures After(g, y, e).slot.planned && Kept(After(g, y, e).slot.candidates, o, k, d)
  {
    hide AddShare, Inv, SingleFlight, Snapshot, Balanced, Awake, CanClaim, Outcome;
    if e.Receive? || e.AddOwn? {
      AddShareKeeps(g, y.slot, e.share);
    }
  }

  lemma {:induction false} RunKeepsShares(g: Setting, nodes: seq<Node>, steps: seq<Step>, i: nat, j: nat,
                                          o: int, k: int, d: DecryptionShare)
    requires IsRun(g, nodes, steps) && i <= j < |nodes|
    requires nodes[i].slot.planned && Kept(nodes[i].slot.candidates, o, k, d)
    ensures nodes[j].slot.planned && Kept(nodes[j].slot.candidates, o, k, d)
    decreases j
  {
    hide NodeInv, After, Enabled, Kept;
    if i < j {
      RunKeepsShares(g, nodes, steps, i, j - 1, o, k, d);
      RunKeeps(g, nodes, steps, j - 1);
      StepKeepsShares(g, nodes[j - 1], steps[j - 1], o, k, d);
    }
  }

  /** A share accepted in a run, after planning, is in every claim taken from then on. */
  lemma RunClaimsAccepted(g: Setting, nodes: seq<Node>, steps: seq<Step>, i: nat, j: nat)
    requires IsRun(g, nodes, steps) && i < j < |steps| && nodes[i].slot.planned
    requires steps[i].Receive? && AddShare(g, nodes[i].slot, steps[i].share).1 == Accepted
    requires steps[j].Wake? && CanClaim(g, nodes[j].slot)
    ensures nodes[j + 1].last.Some? && steps[i].share in nodes[j + 1].last.value.shares
  {
    hide NodeInv, AddShare, HasThreshold, RetainedBelow;
    var d := steps[i].share;
    RunKeeps(g, nodes, steps, i);
    RunKeeps(g, nodes, steps, j);
    SlotOrderly(g, nodes[i]);
    SlotOrderly(g, nodes[j]);
    AddShareKeeps(g, nodes[i].slot, d);
    RunKeepsShares(g, nodes, steps, i + 1, j, d.operator, d.subBatch, d);
    KeptIsListed(g, nodes[j].slot, d.operator, d.subBatch, d);
  }

  lemma SlotOrderly(g: Setting, y: Node)
    requires NodeInv(g, y)
    ensures Inv(g, y.slot)
  {
    hide Inv;
  }
}
