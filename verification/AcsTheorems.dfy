/** What every run of the common subset protocol guarantees, at any of its points. */
module AcsTheorems {
  import opened Options
  import opened Membership
  import opened Bytes
  import B = BbaSpec
  import BI = BbaInvariant
  import BS = BbaSafety
  import R = RbcSpec
  import RI = RbcInvariant
  import RS = RbcSafety
  import opened AcsSpec
  import opened AcsInvariant
  import opened AcsSafety
  import AcsCompletion
  import RbcTrace

  // ----- agreement -----

  lemma MembersStay(w: World, nets: seq<Net>, events: seq<Event>, i: nat)
    requires IsRun(w, nets, events) && i < |nets|
    ensures nets[i].Keys == w.k.all - w.k.bad
  {
    hide Consistent;
    RunIsConsistent(w, nets, events, i);
    KeysOf(w, nets[i]);
  }

  lemma KeysOf(w: World, net: Net)
    requires Consistent(w, net)
    ensures net.Keys == w.k.all - w.k.bad
  {
    hide Valid, BS.Consistent, RS.Consistent;
  }

  lemma ProgressOn(s: Node, t: Node, u: Node)
    requires Progress(s, t) && Progress(t, u)
    ensures Progress(s, u)
  {
    forall j | j in s.bbas ensures BI.Grows(s.bbas[j], u.bbas[j]) {
      assert BI.Grows(s.bbas[j], t.bbas[j]) && BI.Grows(t.bbas[j], u.bbas[j]);
    }
    forall j | j in s.rbcs ensures RI.Grows(s.rbcs[j], u.rbcs[j]) {
      assert RI.Grows(s.rbcs[j], t.rbcs[j]) && RI.Grows(t.rbcs[j], u.rbcs[j]);
    }
  }

  lemma NoProgress(s: Node)
    ensures Progress(s, s)
  {
  }

  /** Over a run a member only moves forward. */
  lemma {:induction false} RunProgresses(w: World, nets: seq<Net>, events: seq<Event>, i: nat, j: nat, p: nat)
    requires IsRun(w, nets, events) && i <= j < |nets| && p in nets[i]
    ensures p in nets[j] && Progress(nets[i][p], nets[j][p])
    decreases j
  {
    hide Consistent, Enabled, After, Progress;
    NoProgress(nets[i][p]);
    if i < j {
      RunProgresses(w, nets, events, i, j - 1, p);
      RunIsConsistent(w, nets, events, j - 1);
      if events[j - 1].at == p {
        EventKeeps(w, nets[j - 1], events[j - 1]);
        ProgressOn(nets[i][p], nets[j - 1][p], nets[j][p]);
      }
    }
  }

  /** Correct members that have decided, whenever they did, hold one subset of n - f entries at least. */
  lemma RunAgreement(w: World, nets: seq<Net>, events: seq<Event>, i: nat, p: nat, j: nat, q: nat)
    requires IsRun(w, nets, events) && i < |nets| && j < |nets| && p in nets[i] && q in nets[j]
    requires nets[i][p].agreed.Some? && nets[j][q].agreed.Some?
    ensures nets[i][p].agreed == nets[j][q].agreed
    ensures |nets[i][p].agreed.value| >= |w.k.all| - w.k.f
  {
    hide Consistent, IsRun;
    var last := if i < j then j else i;
    RunProgresses(w, nets, events, i, last, p);
    RunProgresses(w, nets, events, j, last, q);
    RunIsConsistent(w, nets, events, last);
    SubsetAgreement(w, nets[last], p, q);
  }

  // ----- the agreements and broadcasts of a run -----

  /** Both children of every proposer are there, and their own nets are consistent. */
  lemma RunChildren(w: World, nets: seq<Net>, events: seq<Event>, i: nat, p: nat, j: nat)
    requires IsRun(w, nets, events) && i < |nets| && p in nets[i] && j in w.k.all
    ensures j in nets[i][p].bbas && j in nets[i][p].rbcs
    ensures BS.Consistent(w.k, BbaNet(nets[i], j)) && RS.Consistent(w.Of(j), RbcNet(nets[i], j))
    ensures p in BbaNet(nets[i], j) && BbaNet(nets[i], j)[p] == nets[i][p].bbas[j]
    ensures p in RbcNet(nets[i], j) && RbcNet(nets[i], j)[p] == nets[i][p].rbcs[j]
  {
    hide Consistent, IsRun, BS.Consistent, RS.Consistent;
    RunIsConsistent(w, nets, events, i);
    NetShape(w, nets[i], j);
  }

  lemma ChildrenGrow(s: Node, t: Node, j: nat)
    requires Progress(s, t) && j in s.bbas && j in s.rbcs
    ensures j in t.bbas && BI.Grows(s.bbas[j], t.bbas[j])
    ensures j in t.rbcs && RI.Grows(s.rbcs[j], t.rbcs[j])
  {
    hide BI.Grows, RI.Grows;
  }

  /** The agreements of two members on one proposer never decide differently, whenever they decide. */
  lemma RunBbaAgreement(w: World, nets: seq<Net>, events: seq<Event>, i: nat, p: nat, k: nat, q: nat, j: nat)
    requires IsRun(w, nets, events) && i < |nets| && k < |nets| && p in nets[i] && q in nets[k] && j in w.k.all
    requires j in nets[i][p].bbas && nets[i][p].bbas[j].decision.Some?
    requires j in nets[k][q].bbas && nets[k][q].bbas[j].decision.Some?
    ensures nets[i][p].bbas[j].decision == nets[k][q].bbas[j].decision
  {
    hide IsRun, Progress, BS.Consistent, RS.Consistent;
    var last := if i < k then k else i;
    RunProgresses(w, nets, events, i, last, p);
    RunProgresses(w, nets, events, k, last, q);
    RunChildren(w, nets, events, i, p, j);
    RunChildren(w, nets, events, k, q, j);
    RunChildren(w, nets, events, last, p, j);
    RunChildren(w, nets, events, last, q, j);
    ChildrenGrow(nets[i][p], nets[last][p], j);
    ChildrenGrow(nets[k][q], nets[last][q], j);
    BS.Agreement(w.k, BbaNet(nets[last], j), p, q);
  }

  /** Once p has decided in epoch r, every correct member enters every later epoch with that estimate. */
  lemma RunDecisionLocks(w: World, nets: seq<Net>, events: seq<Event>, i: nat, p: nat, q: nat, j: nat, r: nat, e: nat)
    requires IsRun(w, nets, events) && i < |nets| && p in nets[i] && q in nets[i] && j in w.k.all
    requires j in nets[i][p].bbas && j in nets[i][q].bbas
    requires nets[i][p].bbas[j].decidedAt == Some(r) && r < e <= |nets[i][q].bbas[j].trail|
    ensures BI.Own(nets[i][q].bbas[j], e) == nets[i][p].bbas[j].decision == Some(B.Coin(r))
  {
    hide IsRun, BS.Consistent, RS.Consistent;
    RunChildren(w, nets, events, i, p, j);
    RunChildren(w, nets, events, i, q, j);
    BS.DecisionOf(w.k, BbaNet(nets[i], j), p);
    BS.DecisionLocks(w.k, BbaNet(nets[i], j), p, r, q, e);
  }

  /** Once p has decided in epoch r, no other value enters any correct member's binValues in a later epoch: neither in
      one it has left nor in the one it is in. */
  lemma RunDecisionAlone(w: World, nets: seq<Net>, events: seq<Event>, i: nat, p: nat, q: nat, j: nat, r: nat, v: bool)
    requires IsRun(w, nets, events) && i < |nets| && p in nets[i] && q in nets[i] && j in w.k.all
    requires j in nets[i][p].bbas && j in nets[i][q].bbas && nets[i][p].bbas[j].decidedAt == Some(r)
    ensures var s, decision := nets[i][q].bbas[j], nets[i][p].bbas[j].decision;
            && |s.trail| == s.epoch
            && (r < s.epoch && v in s.binValues ==> decision == Some(v))
            && forall e :: r < e < |s.trail| && v in s.trail[e].bin ==> decision == Some(v)
  {
    hide IsRun, BS.Consistent, RS.Consistent, BI.Settled, BI.Idle, BI.OwnAuxHeld;
    RunChildren(w, nets, events, i, p, j);
    RunChildren(w, nets, events, i, q, j);
    var net := BbaNet(nets[i], j);
    var s := net[q];
    BS.MemberIsValid(w.k, net, q);
    if r < s.epoch && v in s.binValues {
      BS.DecisionAlone(w.k, net, p, r, q, s.epoch, v);
    }
    forall e | r < e < |s.trail| && v in s.trail[e].bin ensures net[p].decision == Some(v) {
      BS.DecisionAlone(w.k, net, p, r, q, e, v);
    }
  }

  /** All READYs of correct members for one proposer carry one root, and what they decode is the same. */
  lemma RunBroadcastAgreement(w: World, nets: seq<Net>, events: seq<Event>, i: nat, p: nat, k: nat, q: nat, j: nat)
    requires IsRun(w, nets, events) && i < |nets| && k < |nets| && p in nets[i] && q in nets[k] && j in w.k.all
    ensures j in nets[i][p].rbcs && j in nets[k][q].rbcs
    ensures var s, t := nets[i][p].rbcs[j], nets[k][q].rbcs[j];
            && (forall g, h :: R.Ready(g) in s.log && R.Ready(h) in t.log ==> g == h)
            && (s.decoded.Some? && t.decoded.Some? ==> s.decoded == t.decoded)
  {
    hide IsRun, Progress, BS.Consistent, RS.Consistent;
    var last := if i < k then k else i;
    RunProgresses(w, nets, events, i, last, p);
    RunProgresses(w, nets, events, k, last, q);
    RunChildren(w, nets, events, i, p, j);
    RunChildren(w, nets, events, k, q, j);
    RunChildren(w, nets, events, last, p, j);
    RunChildren(w, nets, events, last, q, j);
    ChildrenGrow(nets[i][p], nets[last][p], j);
    ChildrenGrow(nets[k][q], nets[last][q], j);
    var net := RbcNet(nets[last], j);
    forall g, h | R.Ready(g) in nets[i][p].rbcs[j].log && R.Ready(h) in nets[k][q].rbcs[j].log ensures g == h {
      assert R.Ready(g) in net[p].log && R.Ready(h) in net[q].log;
      OneReadyRoot(w.Of(j), net, p, q, g, h);
    }
    if net[p].decoded.Some? && net[q].decoded.Some? {
      RS.Agreement(w.Of(j), net, p, q);
    }
  }

  lemma OneReadyRoot(b: RS.Broadcast, net: RS.Net, p: nat, q: nat, g: Bytes, h: Bytes)
    requires RS.Consistent(b, net) && p in net && q in net && R.Ready(g) in net[p].log && R.Ready(h) in net[q].log
    ensures g == h
  {
    RS.ReadyAgreement(b, net, p, q, g, h);
  }

  /** No threshold of an agreement is missed, at any point of a run: a value is admitted exactly with
      2f + 1 senders, relayed with f + 1, one own AUX exists once a value is admitted, a quorum of valid
      AUX is used at once, and an instance is done exactly two epochs after its decision. */
  lemma RunBbaPrompt(w: World, nets: seq<Net>, events: seq<Event>, i: nat, p: nat, j: nat)
    requires IsRun(w, nets, events) && i < |nets| && p in nets[i] && j in w.k.all
    ensures j in nets[i][p].bbas
    ensures var s := nets[i][p].bbas[j];
            && (forall v: bool :: v in s.binValues <==> |s.recvBval.Of(v)| >= 2 * w.k.f + 1)
            && (forall v: bool :: |s.recvBval.Of(v)| >= w.k.f + 1 ==> v in s.sentBvals)
            && (s.binValues != [] <==> exists v: bool :: B.Message(s.epoch, B.Aux(v)) in s.log)
            && (forall v: bool :: B.Message(s.epoch, B.Aux(v)) in s.log ==> B.Message(s.epoch, B.Aux(!v)) !in s.log)
            && (s.done || s.binValues == [] || |B.ValidAux(s.recvAux, s.binValues)| < |w.k.all| - w.k.f)
            && (s.done ==> s.decidedAt.Some? && s.epoch == s.decidedAt.value + 2)
  {
    hide IsRun, BS.Consistent, RS.Consistent;
    RunChildren(w, nets, events, i, p, j);
    BbaPrompt(w.k, BbaNet(nets[i], j), p);
  }

  lemma BbaPrompt(k: Cluster, net: BS.Net, p: nat)
    requires BS.Consistent(k, net) && p in net
    ensures var s := net[p];
            && BI.Settled(k.At(p), s) && BI.Idle(k.At(p), s) && BI.Decided(s)
            && (forall v: bool :: B.Message(s.epoch, B.Aux(v)) in s.log ==> B.Message(s.epoch, B.Aux(!v)) !in s.log)
  {
    assert BI.Valid(k.At(p), net[p]);
    forall v: bool | B.Message(net[p].epoch, B.Aux(v)) in net[p].log
      ensures B.Message(net[p].epoch, B.Aux(!v)) !in net[p].log
    {
      assert BI.Logged(k.At(p), net[p], B.Message(net[p].epoch, B.Aux(v)));
    }
  }

  /** No threshold of a broadcast is missed: while READY is unsent every root is below both of its
      thresholds, and unless a root was decoded every root with enough READYs and ECHOs was tried. */
  lemma RunRbcPrompt(w: World, nets: seq<Net>, events: seq<Event>, i: nat, p: nat, j: nat)
    requires IsRun(w, nets, events) && i < |nets| && p in nets[i] && j in w.k.all
    ensures j in nets[i][p].rbcs
    ensures var s := nets[i][p].rbcs[j];
            && (!s.readySent ==> forall h ::
                  |R.ReadiersOf(s.recvReadys, h)| <= w.k.f && |R.EchoersOf(s.recvEchos, h)| < |w.k.all| - w.k.f)
            && (s.trigger.Some? ==> RI.TriggerExact(w.k.At(p), s.trigger.value))
            && (s.outputDecoded || s.halted || forall h ::
                  R.Eligible(w.k.f, s.recvEchos, s.recvReadys, h) ==> RI.CanFail(w.Of(j).At(p), s.recvEchos, h))
  {
    hide IsRun, BS.Consistent, RS.Consistent;
    RunChildren(w, nets, events, i, p, j);
    RbcPrompt(w.Of(j), RbcNet(nets[i], j), p);
  }

  /** The READY trigger a run records passes the check made of published traces, if the fault bound is the
      largest for the membership; for any other bound no recorded trigger passes. */
  lemma RunTriggerAccepted(w: World, nets: seq<Net>, events: seq<Event>, i: nat, p: nat, j: nat)
    requires IsRun(w, nets, events) && i < |nets| && p in nets[i] && j in w.k.all
    ensures j in nets[i][p].rbcs && |w.k.all| > 0
    ensures nets[i][p].rbcs[j].trigger.Some? ==>
              (RbcTrace.AcceptsTrigger(nets[i][p].rbcs[j].trigger, |w.k.all|) <==> w.k.f == (|w.k.all| - 1) / 3)
  {
    hide IsRun, BS.Consistent, RS.Consistent, RbcTrace.AcceptsTrigger;
    RunChildren(w, nets, events, i, p, j);
    TriggerAccepted(w.Of(j), RbcNet(nets[i], j), p);
  }

  lemma TriggerAccepted(b: RS.Broadcast, net: RS.Net, p: nat)
    requires RS.Consistent(b, net) && p in net
    ensures |b.k.all| > 0
    ensures net[p].trigger.Some? ==>
              (RbcTrace.AcceptsTrigger(net[p].trigger, |b.k.all|) <==> b.k.f == (|b.k.all| - 1) / 3)
  {
    hide RI.Valid;
    if net[p].trigger.Some? {
      RbcTrace.RecordedTriggerAccepted(b.At(p), net[p]);
    }
  }

  lemma RbcPrompt(b: RS.Broadcast, net: RS.Net, p: nat)
    requires RS.Consistent(b, net) && p in net
    ensures RI.Prompt(b.At(p), net[p])
    ensures var s := net[p];
            s.outputDecoded || s.halted || forall h ::
              R.Eligible(b.k.f, s.recvEchos, s.recvReadys, h) ==> RI.CanFail(b.At(p), s.recvEchos, h)
  {
    hide RI.CanFail;
    var s := net[p];
    assert RI.AllTried(b.At(p), s);
    if !s.outputDecoded && !s.halted {
      forall h | R.Eligible(b.k.f, s.recvEchos, s.recvReadys, h) ensures RI.CanFail(b.At(p), s.recvEchos, h) {
        assert RI.Tried(b.At(p), s.recvEchos, s.recvReadys, h);
      }
    }
  }

  // ----- what a result rests on -----

  /** Why an agreement has the input it has, and when it no longer takes one. */
  lemma InputRules(c: Setup, s: Node, j: nat)
    requires Valid(c, s) && j in c.nodes
    ensures j in s.bbas
    ensures s.bbas[j].input == Some(true) ==> j in s.rbcResults
    ensures s.bbas[j].input == Some(false) ==> |Truthy(s.bbaResults)| >= c.cfg.n - c.cfg.f
    ensures |Truthy(s.bbaResults)| >= c.cfg.n - c.cfg.f ==> !B.AcceptsInput(s.bbas[j])
    ensures j in s.rbcResults ==> !B.AcceptsInput(s.bbas[j])
  {
    hide BI.Valid, RI.Valid, Agreed;
    assert Child(c, s, j);
  }

  /** If any correct member's agreement on j decides true, some correct member has stored j's value. */
  lemma TrueIsBacked(w: World, net: Net, p: nat, j: nat) returns (x: nat)
    requires Consistent(w, net) && p in net && j in w.k.all
    requires j in net[p].bbas && net[p].bbas[j].decision == Some(true)
    ensures x in net && j in net[x].rbcResults
  {
    hide Consistent, Valid, BS.Consistent, RS.Consistent;
    NetShape(w, net, j);
    x := BS.DecisionWasInput(w.k, BbaNet(net, j), p);
    MemberKeys(w, net, x);
    InputRules(w.At(x), net[x], j);
  }

  lemma RunTrueIsBacked(w: World, nets: seq<Net>, events: seq<Event>, i: nat, p: nat, j: nat) returns (x: nat)
    requires IsRun(w, nets, events) && i < |nets| && p in nets[i]
    requires j in nets[i][p].bbaResults && nets[i][p].bbaResults[j]
    ensures x in nets[i] && j in nets[i][x].rbcResults
  {
    hide Consistent, IsRun, Valid;
    RunIsConsistent(w, nets, events, i);
    MemberKeys(w, nets[i], p);
    ResultDecided(w.At(p), nets[i][p], j);
    x := TrueIsBacked(w, nets[i], p, j);
  }

  /** The entry of a correct proposer is the value of the shards it proposed. */
  lemma EntryWasProposed(w: World, net: Net, p: nat, j: nat)
    requires Consistent(w, net) && p in net && j in net && net[p].agreed.Some? && j in net[p].agreed.value
    ensures j in net[j].rbcs && net[j].rbcs[j].proposed.Some?
    ensures net[p].agreed.value[j] == R.Value(w.At(p).For(j), net[j].rbcs[j].proposed.value)
  {
    hide Consistent, Valid, R.Value, BS.Consistent, RS.Consistent;
    SoundAt(w, net, p);
    MemberKeys(w, net, p);
    EntryRests(w.At(p), net[p], j);
    NetShape(w, net, j);
    RS.Validity(w.Of(j), RbcNet(net, j), p);
  }

  lemma RunEntryWasProposed(w: World, nets: seq<Net>, events: seq<Event>, i: nat, p: nat, j: nat)
    requires IsRun(w, nets, events) && i < |nets| && p in nets[i] && j in nets[i]
    requires nets[i][p].agreed.Some? && j in nets[i][p].agreed.value
    ensures j in nets[i][j].rbcs && nets[i][j].rbcs[j].proposed.Some?
    ensures nets[i][p].agreed.value[j] == R.Value(w.At(p).For(j), nets[i][j].rbcs[j].proposed.value)
  {
    hide Consistent, IsRun, R.Value;
    RunIsConsistent(w, nets, events, i);
    EntryWasProposed(w, nets[i], p, j);
  }

  // ----- false inputs and completion -----

  /** In a run, an agreement has the input false only if n - f of the same member's agreements gave
      true; once they did, none of its agreements accepts an input. */
  lemma RunInputRules(w: World, nets: seq<Net>, events: seq<Event>, i: nat, p: nat, j: nat)
    requires IsRun(w, nets, events) && i < |nets| && p in nets[i] && j in w.k.all
    ensures j in nets[i][p].bbas
    ensures var s := nets[i][p];
            && (s.bbas[j].input == Some(true) ==> j in s.rbcResults)
            && (s.bbas[j].input == Some(false) ==> |Truthy(s.bbaResults)| >= |w.k.all| - w.k.f)
            && (|Truthy(s.bbaResults)| >= |w.k.all| - w.k.f ==> !B.AcceptsInput(s.bbas[j]))
            && (j in s.rbcResults ==> !B.AcceptsInput(s.bbas[j]))
  {
    hide Consistent, IsRun, Valid;
    RunIsConsistent(w, nets, events, i);
    MemberKeys(w, nets[i], p);
    InputRules(w.At(p), nets[i][p], j);
  }

  /** In a run, a member whose results complete the subset has decided. */
  lemma RunCompletes(w: World, nets: seq<Net>, events: seq<Event>, i: nat, p: nat)
    requires IsRun(w, nets, events) && i < |nets| && p in nets[i]
    requires |nets[i][p].bbaResults| >= |w.k.all| && |Truthy(nets[i][p].bbaResults)| >= |w.k.all| - w.k.f
    requires Truthy(nets[i][p].bbaResults) <= nets[i][p].rbcResults.Keys
    ensures nets[i][p].decided && nets[i][p].agreed.Some?
  {
    hide Consistent, Enabled, After, IsRun, Valid, Truthy;
    MembersStay(w, nets, events, i);
    AcsCompletion.RunIsTidy(w, nets, events, i, p);
    RunIsConsistent(w, nets, events, i);
    MemberKeys(w, nets[i], p);
    DecidedIsAgreed(w.At(p), nets[i][p]);
  }

  lemma DecidedIsAgreed(c: Setup, s: Node)
    requires Valid(c, s)
    ensures s.decided <==> s.agreed.Some?
  {
    hide Child;
  }
}
