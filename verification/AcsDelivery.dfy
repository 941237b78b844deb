/** Runs of the common subset: when a broadcast stops its member, and when it is delivered. */
module AcsDelivery {
  import opened Options
  import opened Membership
  import opened Bytes
  import B = BbaSpec
  import BS = BbaSafety
  import R = RbcSpec
  import RI = RbcInvariant
  import RS = RbcSafety
  import RP = RbcProgress
  import RD = RbcDelivery
  import opened AcsSpec
  import opened AcsInvariant
  import opened AcsSafety
  import AcsTheorems

  // ----- every broadcast of a run is attentive -----

  ghost predicate Attends(c: Setup, s: Node) {
    forall j :: j in s.rbcs ==> RP.Attentive(c.For(j), s.rbcs[j])
  }

  lemma InputRbcs(c: Setup, s: Node, pid: nat, a: Action)
    requires c.Sound()
    ensures ProcessAgreement(c, s, pid, a).node.rbcs == s.rbcs
  {
    hide Act, Complete, Refused, Subset;
  }

  lemma SettledAttends(i: R.Instance, s: R.Node)
    requires RP.Attentive(i, s)
    ensures RP.Attentive(i, s.(messages := [], output := None))
  {
  }

  lemma BroadcastRbcs(c: Setup, s: Node, pid: nat, r: R.Step)
    requires c.Sound() && pid in s.rbcs
    ensures var t := ProcessBroadcast(c, s, pid, r).node;
            t.rbcs == s.rbcs[pid := r.node] || t.rbcs == s.rbcs[pid := r.node.(messages := [], output := None)]
  {
    hide ProcessAgreement, Complete, Subset;
    if !r.err && !r.node.halted && r.node.output.Some? {
      var t := s.(rbcs := s.rbcs[pid := r.node.(messages := [], output := None)]);
      InputRbcs(c, t.(rbcResults := t.rbcResults[pid := r.node.output.value]), pid, Provide(true));
    }
  }

  lemma HandleMessageAttends(c: Setup, s: Node, sid: nat, m: Message, pick: R.Picker)
    requires c.Sound() && Valid(c, s) && Attends(c, s) && sid != c.cfg.id
    ensures Attends(c, HandleMessage(c, s, sid, m, pick).node)
  {
    hide Valid, RI.Valid, RP.Attentive, ProcessAgreement, ProcessBroadcast, R.HandleMessage;
    match m.payload
    case Agreement(b) => InputRbcs(c, s, m.proposer, Hand(sid, b));
    case Broadcast(r) =>
      if m.proposer in s.rbcs {
        var i := c.For(m.proposer);
        RbcValid(c, s, m.proposer);
        RP.HandleMessageAttends(i, s.rbcs[m.proposer], sid, r, pick);
        var step := R.HandleMessage(i, s.rbcs[m.proposer], sid, r, pick);
        SettledAttends(i, step.node);
        BroadcastRbcs(c, s, m.proposer, step);
      }
    case Unknown =>
  }

  lemma InputValueAttends(c: Setup, s: Node, data: Bytes, pick: R.Picker)
    requires c.Sound() && Valid(c, s) && Attends(c, s)
    ensures Attends(c, InputValue(c, s, data, pick).node)
  {
    hide Valid, RI.Valid, RP.Attentive, ProcessAgreement, R.InputValue;
    var id := c.cfg.id;
    if id in s.rbcs {
      RbcValid(c, s, id);
      RP.InputValueAttends(c.For(id), s.rbcs[id], data, pick);
      var r := R.InputValue(c.For(id), s.rbcs[id], data, pick);
      SettledAttends(c.For(id), r.node);
      if !r.err && !r.node.halted && r.node.output.Some? {
        var t := s.(rbcs := s.rbcs[id := r.node.(messages := [], output := None)]);
        InputRbcs(c, t.(rbcResults := t.rbcResults[id := r.node.output.value]), id, Provide(true));
      }
    }
  }

  lemma EventAttends(w: World, net: Net, e: Event)
    requires Consistent(w, net) && Enabled(w, net, e) && Attends(w.At(e.at), net[e.at])
    ensures Attends(w.At(e.at), After(w, net, e))
  {
    hide Consistent, Valid, Attends, HandleMessage, InputValue, Halted, Sent;
    SoundAt(w, net, e.at);
    MemberKeys(w, net, e.at);
    match e {
      case Propose(p, data, pick) => InputValueAttends(w.At(p), net[p], data, pick);
      case Deliver(p, from, m, pick) => HandleMessageAttends(w.At(p), net[p], from, m, pick);
      case TakeOutput(p) => TakenAttends(w.At(p), net[p]);
    }
  }

  lemma TakenAttends(c: Setup, s: Node)
    requires Attends(c, s)
    ensures Attends(c, s.(output := None))
  {
  }

  lemma FreshAttends(c: Setup)
    requires c.Sound()
    ensures Attends(c, Fresh(c.nodes))
  {
    hide RP.Attentive;
    forall j | j in c.nodes ensures RP.Attentive(c.For(j), R.Fresh) {
      RP.FreshIsAttentive(c.For(j));
    }
  }

  lemma {:induction false} RunAttends(w: World, nets: seq<Net>, events: seq<Event>, i: nat, p: nat)
    requires IsRun(w, nets, events) && i < |nets| && p in w.k.all - w.k.bad
    ensures p in nets[i] && Attends(w.At(p), nets[i][p])
  {
    hide Consistent, Attends, Enabled, After, Fresh;
    if i == 0 {
      FreshAttends(w.At(p));
    } else {
      RunAttends(w, nets, events, i - 1, p);
      RunIsConsistent(w, nets, events, i - 1);
      if events[i - 1].at == p {
        EventAttends(w, nets[i - 1], events[i - 1]);
      }
    }
  }

  // ----- what every run guarantees -----

  lemma RunNet(w: World, nets: seq<Net>, events: seq<Event>, i: nat, j: nat)
    requires IsRun(w, nets, events) && i < |nets| && j in w.k.all
    ensures RS.Consistent(w.Of(j), RbcNet(nets[i], j)) && RbcNet(nets[i], j).Keys == nets[i].Keys
    ensures nets[i].Keys == w.k.all - w.k.bad && RD.AllAttentive(w.Of(j), RbcNet(nets[i], j))
    ensures forall p :: p in nets[i] ==> j in nets[i][p].rbcs && RbcNet(nets[i], j)[p] == nets[i][p].rbcs[j]
  {
    hide IsRun, Consistent, RS.Consistent, RP.Attentive;
    RunIsConsistent(w, nets, events, i);
    NetShape(w, nets[i], j);
    AcsTheorems.KeysOf(w, nets[i]);
    forall p | p in nets[i] ensures RP.Attentive(w.Of(j).At(p), RbcNet(nets[i], j)[p]) {
      RunAttends(w, nets, events, i, p);
    }
  }

  /** In a run, a broadcast has stopped its member exactly if, nothing decoded yet, a root had enough READYs and ECHOs
      to be decoded while an ECHO held under it named an index that is no position of the vector. */
  lemma RunStopsExactly(w: World, nets: seq<Net>, events: seq<Event>, i: nat, p: nat, j: nat)
    requires IsRun(w, nets, events) && i < |nets| && p in w.k.all - w.k.bad && j in w.k.all
    ensures p in nets[i] && j in nets[i][p].rbcs
    ensures var s := nets[i][p].rbcs[j];
            s.halted <==> !s.outputDecoded && exists root ::
              && R.Eligible(w.k.f, s.recvEchos, s.recvReadys, root)
              && !R.InRange(|w.k.all|, s.recvEchos, root)
  {
    hide IsRun, RS.Consistent, R.Eligible, R.InRange;
    RunNet(w, nets, events, i, j);
    var s := RbcNet(nets[i], j)[p];
    var c := w.Of(j).At(p);
    assert RP.StopsExactly(c, s);
    assert forall root :: RP.Misplaced(c, s.recvEchos, s.recvReadys, root) <==>
      R.Eligible(w.k.f, s.recvEchos, s.recvReadys, root) && !R.InRange(|w.k.all|, s.recvEchos, root);
  }

  /** In a run, a correct proposer's broadcast stops a member exactly if it had not decoded when the proposed root was
      ready to be decoded, with an ECHO under it that has an index outside the vector. */
  lemma RunCorrectStops(w: World, nets: seq<Net>, events: seq<Event>, i: nat, p: nat, j: nat)
    requires IsRun(w, nets, events) && i < |nets| && p in w.k.all - w.k.bad && j in w.k.all - w.k.bad
    ensures j in RbcNet(nets[i], j) && p in nets[i] && j in nets[i][p].rbcs
    ensures var s := nets[i][p].rbcs[j];
            s.halted <==>
              && RbcNet(nets[i], j)[j].proposed.Some? && !s.outputDecoded
              && R.Eligible(w.k.f, s.recvEchos, s.recvReadys, RD.RootOf(w.Of(j), RbcNet(nets[i], j)))
              && !R.InRange(|w.k.all|, s.recvEchos, RD.RootOf(w.Of(j), RbcNet(nets[i], j)))
  {
    hide IsRun, RS.Consistent, RP.Attentive, R.Eligible, R.InRange;
    RunNet(w, nets, events, i, j);
    RD.CorrectProposerStops(w.Of(j), RbcNet(nets[i], j), p);
  }

  /** And it stops nobody who holds no ECHO under that root that misnames the number of leaves; one that does came from
      a faulty member. */
  lemma RunTrueCountsStopNobody(w: World, nets: seq<Net>, events: seq<Event>, i: nat, p: nat, j: nat)
    requires IsRun(w, nets, events) && i < |nets| && p in w.k.all - w.k.bad && j in w.k.all - w.k.bad
    requires RD.Binds(w.codec, |w.k.all|)
    ensures j in RbcNet(nets[i], j) && p in RbcNet(nets[i], j)
    ensures var net := RbcNet(nets[i], j);
            net[p].halted ==> net[j].proposed.Some? && exists q :: RD.Mislabelled(w.Of(j), net, p, q)
  {
    hide IsRun, RS.Consistent, RP.Attentive, RD.Binds, RD.CountsTrue, RD.AllAttentive;
    RunNet(w, nets, events, i, j);
    var net := RbcNet(nets[i], j);
    RD.CorrectProposerStops(w.Of(j), net, p);
    if net[p].halted {
      StoppedHoldsMiscount(w, net, p, j);
    }
  }

  lemma StoppedHoldsMiscount(w: World, net: RS.Net, p: nat, j: nat)
    requires RS.Consistent(w.Of(j), net) && RD.AllAttentive(w.Of(j), net) && j in net && p in net
    requires net[p].halted && net[j].proposed.Some? && RD.Binds(w.codec, |w.k.all|)
    ensures exists q :: RD.Mislabelled(w.Of(j), net, p, q)
  {
    hide RS.Consistent, RD.AllAttentive, RD.Binds;
    var root := RD.RootOf(w.Of(j), net);
    if RD.CountsTrue(|w.k.all|, net[p].recvEchos, root) {
      RD.TrueCountsStopNobody(w.Of(j), net, p);
    } else {
      var q :| q in net[p].recvEchos && net[p].recvEchos[q].root == root && net[p].recvEchos[q].leaves != |w.k.all|;
      RD.MiscountIsFaulty(w.Of(j), net, p, q);
      assert RD.Mislabelled(w.Of(j), net, p, q);
    }
  }

  /** In a run, once all that correct members said in a correct proposer's broadcast has arrived, a correct member has
      decoded the proposed shards, unless it holds a faulty member's ECHO that misnames the number of leaves. */
  lemma RunDelivers(w: World, nets: seq<Net>, events: seq<Event>, i: nat, j: nat, p: nat, place: map<nat, nat>)
    requires IsRun(w, nets, events) && i < |nets| && j in w.k.all - w.k.bad && p in w.k.all - w.k.bad
    requires RD.Proves(w.codec, |w.k.all|) && RD.Codes(w.Of(j))
    requires j in RbcNet(nets[i], j) && RbcNet(nets[i], j)[j].proposed.Some?
    requires RD.AllDelivered(RbcNet(nets[i], j)) && RD.Addressed(w.Of(j), RbcNet(nets[i], j), place)
    ensures p in RbcNet(nets[i], j)
    ensures var net := RbcNet(nets[i], j);
            || net[p].decoded == Some(R.Decoded(RD.RootOf(w.Of(j), net), net[j].proposed.value))
            || exists q :: RD.Mislabelled(w.Of(j), net, p, q)
  {
    hide IsRun, RS.Consistent, RP.Attentive, RD.Codes, RD.Proves, RD.AllDelivered, RD.Addressed, RD.Mislabelled;
    RunNet(w, nets, events, i, j);
    RD.Delivery(w.Of(j), RbcNet(nets[i], j), place, p);
  }

  /** Totality, for any proposer: once all that correct members said has arrived, what one correct member decoded every
      other one is ready to decode. It has stopped exactly if it had not decoded and holds a misplaced ECHO; otherwise
      it has decoded the same, or the ECHOs it holds leave room for failure. */
  lemma RunSpreads(w: World, nets: seq<Net>, events: seq<Event>, i: nat, j: nat, x: nat, p: nat)
    requires IsRun(w, nets, events) && i < |nets| && j in w.k.all && {x, p} <= w.k.all - w.k.bad
    requires RD.AllDelivered(RbcNet(nets[i], j)) && x in RbcNet(nets[i], j) && RbcNet(nets[i], j)[x].decoded.Some?
    ensures p in RbcNet(nets[i], j)
    ensures var s, d := RbcNet(nets[i], j)[p], RbcNet(nets[i], j)[x].decoded;
            && R.Eligible(w.k.f, s.recvEchos, s.recvReadys, d.value.root)
            && (s.halted <==> s.decoded.None? && !R.InRange(|w.k.all|, s.recvEchos, d.value.root))
            && (s.decoded.None? && !s.halted ==> RI.CanFail(w.Of(j).At(p), s.recvEchos, d.value.root))
            && (s.decoded.Some? ==> s.decoded == d)
  {
    hide IsRun, RS.Consistent, RP.Attentive, RD.AllDelivered, R.Eligible, R.InRange, RI.CanFail;
    RunNet(w, nets, events, i, j);
    assert p in w.k.all - w.k.bad && x in w.k.all - w.k.bad;
    RD.DecodedSpreads(w.Of(j), RbcNet(nets[i], j), x, p);
  }

  /** If what it decoded is an encoded vector, every correct member that holds no ECHO misnaming the number of leaves
      under the root has decoded it too exactly if the ECHOs it holds fill n - 2f positions. */
  lemma RunDecodesExactly(w: World, nets: seq<Net>, events: seq<Event>, i: nat, j: nat, x: nat, p: nat, data: Bytes)
    requires IsRun(w, nets, events) && i < |nets| && j in w.k.all && {x, p} <= w.k.all - w.k.bad
    requires RD.AllDelivered(RbcNet(nets[i], j)) && x in RbcNet(nets[i], j) && RbcNet(nets[i], j)[x].decoded.Some?
    requires RD.Codes(w.Of(j)) && w.codec.encode(data) == Some(RbcNet(nets[i], j)[x].decoded.value.shards)
    requires p in RbcNet(nets[i], j)
    requires RD.CountsTrue(|w.k.all|, RbcNet(nets[i], j)[p].recvEchos, RbcNet(nets[i], j)[x].decoded.value.root)
    ensures var s, d := RbcNet(nets[i], j)[p], RbcNet(nets[i], j)[x].decoded;
            && !s.halted && (s.decoded.Some? ==> s.decoded == d)
            && (s.decoded.Some? <==> |RP.Filled(|w.k.all|, s.recvEchos, d.value.root)| >= |w.k.all| - 2 * w.k.f)
  {
    hide IsRun, RS.Consistent, RP.Attentive, RD.AllDelivered, RD.Codes, RD.CountsTrue, RP.Filled, RD.Supported;
    RunNet(w, nets, events, i, j);
    var net := RbcNet(nets[i], j);
    RD.DecodedSupports(w.Of(j), net, x);
    RS.DecodedRests(w.Of(j), net, x);
    RD.DecodedExactly(w.Of(j), net, p, data);
  }

  // ----- the last attempt -----

  /** With an ECHO and a READY of every member held, nothing more is decoded. */
  ghost predicate Full(c: Setup, r: R.Node) {
    r.recvEchos.Keys == c.nodes && r.recvReadys.Keys == c.nodes
  }

  lemma FullIsFinal(c: Setup, j: nat, r: R.Node, sid: nat, m: R.Message, pick: R.Picker)
    requires RI.Valid(c.For(j), r) && Full(c, r) && sid in c.nodes && c.cfg.id in c.nodes
    ensures var t := R.HandleMessage(c.For(j), r, sid, m, pick).node;
            t == r.(heard := t.heard)
  {
    hide RI.Sourced, RI.OneReady, RI.Prompt, RI.AllTried, RI.DecodedWell;
    assert RI.OneEcho(c.For(j), r);
  }

  lemma FullProposesNothing(c: Setup, r: R.Node, data: Bytes, pick: R.Picker)
    requires RI.Valid(c.For(c.cfg.id), r) && Full(c, r) && c.cfg.id in c.nodes
    ensures R.InputValue(c.For(c.cfg.id), r, data, pick).node == r
  {
    hide RI.Sourced, RI.OneReady, RI.Prompt, RI.AllTried, RI.DecodedWell;
    assert RI.OneEcho(c.For(c.cfg.id), r);
  }

  ghost predicate Spent(c: Setup, s: Node, j: nat) {
    j in s.rbcs && Full(c, s.rbcs[j]) && s.rbcs[j].decoded.None?
  }

  lemma HandleMessageSpent(c: Setup, s: Node, sid: nat, m: Message, pick: R.Picker, j: nat)
    requires c.Sound() && Valid(c, s) && Spent(c, s, j) && sid in c.nodes
    ensures Spent(c, HandleMessage(c, s, sid, m, pick).node, j)
  {
    hide Valid, RI.Valid, ProcessAgreement, ProcessBroadcast, R.HandleMessage;
    match m.payload
    case Agreement(b) => InputRbcs(c, s, m.proposer, Hand(sid, b));
    case Broadcast(r) =>
      if m.proposer in s.rbcs {
        var step := R.HandleMessage(c.For(m.proposer), s.rbcs[m.proposer], sid, r, pick);
        BroadcastRbcs(c, s, m.proposer, step);
        if m.proposer == j {
          RbcValid(c, s, j);
          FullIsFinal(c, j, s.rbcs[j], sid, r, pick);
        }
      }
    case Unknown =>
  }

  lemma InputValueSpent(c: Setup, s: Node, data: Bytes, pick: R.Picker, j: nat)
    requires c.Sound() && Valid(c, s) && Spent(c, s, j)
    ensures Spent(c, InputValue(c, s, data, pick).node, j)
  {
    hide Valid, RI.Valid, ProcessAgreement, R.InputValue;
    var id := c.cfg.id;
    if id in s.rbcs {
      var r := R.InputValue(c.For(id), s.rbcs[id], data, pick);
      if id == j {
        RbcValid(c, s, id);
        FullProposesNothing(c, s.rbcs[id], data, pick);
      }
      if !r.err && !r.node.halted && r.node.output.Some? {
        var t := s.(rbcs := s.rbcs[id := r.node.(messages := [], output := None)]);
        InputRbcs(c, t.(rbcResults := t.rbcResults[id := r.node.output.value]), id, Provide(true));
      }
    }
  }

  lemma EventSpent(w: World, net: Net, e: Event, j: nat)
    requires Consistent(w, net) && Enabled(w, net, e) && Spent(w.At(e.at), net[e.at], j)
    ensures Spent(w.At(e.at), After(w, net, e), j)
  {
    hide Consistent, Valid, Full, HandleMessage, InputValue, Halted;
    SoundAt(w, net, e.at);
    MemberKeys(w, net, e.at);
    match e {
      case Propose(p, data, pick) => InputValueSpent(w.At(p), net[p], data, pick, j);
      case Deliver(p, from, m, pick) => HandleMessageSpent(w.At(p), net[p], from, m, pick, j);
      case TakeOutput(p) =>
    }
  }

  /** In a run, a member that holds an ECHO and a READY of every member in a broadcast and has not decoded it never
      will. */
  lemma {:induction false} RunNeverDecodes(w: World, nets: seq<Net>, events: seq<Event>, i: nat, k: nat, p: nat, j: nat)
    requires IsRun(w, nets, events) && i <= k < |nets| && p in nets[i] && Spent(w.At(p), nets[i][p], j)
    ensures p in nets[k] && Spent(w.At(p), nets[k][p], j)
    decreases k
  {
    hide Consistent, Spent, Enabled, After;
    if i < k {
      RunNeverDecodes(w, nets, events, i, k - 1, p, j);
      if events[k - 1].at == p {
        RunIsConsistent(w, nets, events, k - 1);
        EventSpent(w, nets[k - 1], events[k - 1], j);
      }
    }
  }
}
