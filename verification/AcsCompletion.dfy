/** When an instance completes: never late, and never out of the own proposal. */
module AcsCompletion {
  import opened Options
  import opened Membership
  import opened Bytes
  import B = BbaSpec
  import BI = BbaInvariant
  import BS = BbaSafety
  import R = RbcSpec
  import RI = RbcInvariant
  import RS = RbcSafety
  import opened AcsSpec
  import opened AcsInvariant
  import opened AcsSafety

  /** A subset that could be decided has been. */
  ghost predicate NotLate(c: Setup, s: Node) {
    Complete(c, s) ==> s.decided
  }

  /** An action on one agreement leaves nothing to be decided. */
  lemma AgreementIsPrompt(c: Setup, s: Node, pid: nat, a: Action)
    requires c.Sound() && Due(c, s, pid, a) && (a.Hand? ==> NotLate(c, s))
    ensures var r := ProcessAgreement(c, s, pid, a);
            NotLate(c, if a.Provide? then TryComplete(c, r.node) else r.node)
  {
    hide ChildCore, ChildOk, Act, InjectFalse, Agreed, Truthy;
    if !s.bbas[pid].done {
      ResultIsNew(c, s, pid, a);
    }
  }

  lemma ResultIsNew(c: Setup, s: Node, pid: nat, a: Action)
    requires c.Sound() && Due(c, s, pid, a)
    ensures Act(c, s.bbas[pid], a).output.Some? ==> pid !in s.bbaResults
    ensures a.Provide? ==> !Fails(s.bbas[pid], a)
  {
    hide ChildOk, ChildCore, Act;
    PidActed(c, s, pid, a);
  }

  lemma HandleMessageIsPrompt(c: Setup, s: Node, sid: nat, m: Message, pick: R.Picker)
    requires c.Sound() && R.Picks(pick) && Valid(c, s) && sid != c.cfg.id && NotLate(c, s)
    ensures NotLate(c, HandleMessage(c, s, sid, m, pick).node)
  {
    hide Valid, RI.Valid, ProcessAgreement, R.HandleMessage, Complete, Due, RI.Grows, TryComplete;
    match m.payload
    case Agreement(b) =>
      HandDue(c, s, m.proposer, sid, b);
      if m.proposer in s.bbas {
        AgreementIsPrompt(c, s, m.proposer, Hand(sid, b));
      } else {
        NoAgreement(c, s, m.proposer, Hand(sid, b));
      }
    case Broadcast(r) =>
      if m.proposer in s.rbcs {
        RbcValid(c, s, m.proposer);
        RI.HandleMessageKeeps(c.For(m.proposer), s.rbcs[m.proposer], sid, r, pick);
        BroadcastIsPrompt(c, s, m.proposer, R.HandleMessage(c.For(m.proposer), s.rbcs[m.proposer], sid, r, pick));
      }
    case Unknown =>
  }

  lemma SameResultsSame(c: Setup, s: Node, t: Node)
    requires NotLate(c, s) && t.bbaResults == s.bbaResults && t.rbcResults == s.rbcResults && t.decided == s.decided
    ensures NotLate(c, t)
  {
  }

  lemma BroadcastIsPrompt(c: Setup, s: Node, pid: nat, r: R.Step)
    requires c.Sound() && Valid(c, s) && NotLate(c, s)
    requires pid in s.rbcs && RI.Valid(c.For(pid), r.node) && RI.Grows(s.rbcs[pid], r.node)
    ensures NotLate(c, ProcessBroadcast(c, s, pid, r).node)
  {
    hide Valid, RI.Valid, ProcessAgreement, NotLate, Due, RI.Grows, TryComplete;
    SameResultsSame(c, s, s.(rbcs := s.rbcs[pid := r.node]));
    var n := r.node.(messages := [], output := None);
    PutOut(c, pid, r.node);
    var t := s.(rbcs := s.rbcs[pid := n]);
    BroadcastKeeps(c, s, pid, n);
    SameResultsSame(c, s, t);
    if !r.err && !r.node.halted && r.node.output.Some? {
      StoreDue(c, t, pid);
      var d := t.(rbcResults := t.rbcResults[pid := r.node.output.value]);
      ProcessAgreementKeeps(c, d, pid, Provide(true));
      NoFailure(c, d, pid);
      AgreementIsPrompt(c, d, pid, Provide(true));
    }
  }

  lemma NoFailure(c: Setup, s: Node, pid: nat)
    requires c.Sound() && Due(c, s, pid, Provide(true))
    ensures !Fails(s.bbas[pid], Provide(true))
  {
  }

  // ----- the own proposal -----

  /** Before it has proposed, nobody holds an ECHO quorum of a correct member's broadcast. */
  lemma NoQuorumBefore(b: RS.Broadcast, net: RS.Net, root: Bytes)
    requires RS.Consistent(b, net) && b.proposer in net && net[b.proposer].proposed.None?
    ensures !RS.EchoQuorumSeen(b, net, root)
  {
    hide RS.Consistent;
    if RS.EchoQuorumSeen(b, net, root) {
      var q :| q in net && |R.EchoersOf(net[q].recvEchos, root)| >= |b.k.all| - b.k.f;
      RS.Echoers(b, net, q, root);
      var x := HasCorrect(R.EchoersOf(net[q].recvEchos, root) - {b.proposer}, b.k.bad);
      RS.EchoWasProposed(b, net, x, net[q].recvEchos[x]);
      assert false;
    }
  }

  /** So the proposer holds no correct member's READY, and at most f of them in all. */
  lemma FewReadys(b: RS.Broadcast, net: RS.Net, root: Bytes)
    requires RS.Consistent(b, net) && b.proposer in net && net[b.proposer].proposed.None?
    ensures |R.ReadiersOf(net[b.proposer].recvReadys, root)| <= b.k.f
    ensures !net[b.proposer].readySent
  {
    hide RS.EchoQuorumSeen;
    var s := net[b.proposer];
    NoQuorumBefore(b, net, root);
    if |R.ReadiersOf(s.recvReadys, root)| > b.k.f {
      var x := HasCorrect(R.ReadiersOf(s.recvReadys, root), b.k.bad);
      RS.ReadySaid(b, net, b.proposer, x, root);
      assert false;
    }
    if s.readySent {
      var own := s.recvReadys[b.proposer];
      NoQuorumBefore(b, net, own);
      assert false;
    }
  }

  /** Taking the own proposal delivers nothing. */
  lemma ProposingDeliversNothing(b: RS.Broadcast, net: RS.Net, data: Bytes, pick: R.Picker)
    requires RS.Consistent(b, net) && b.proposer in net
    ensures var r := R.InputValue(b.At(b.proposer), net[b.proposer], data, pick);
            r.err || r.node.output == net[b.proposer].output
  {
    hide RS.Consistent, R.Attempt;
    var i, s := b.At(b.proposer), net[b.proposer];
    if !s.halted && i.codec.encode(data).Some? && !s.echoSent {
      NotProposed(b, net);
      var req := R.ProofOf(i, i.codec.encode(data).value, 0);
      FewReadys(b, net, req.root);
      OneMore(s.recvReadys, b.proposer, req.root);
    }
  }

  lemma NotProposed(b: RS.Broadcast, net: RS.Net)
    requires RS.Consistent(b, net) && b.proposer in net && !net[b.proposer].echoSent
    ensures net[b.proposer].proposed.None? && b.k.f >= 1
  {
    assert RI.OneEcho(b.At(b.proposer), net[b.proposer]);
  }

  lemma OneMore(readys: map<nat, Bytes>, q: nat, root: Bytes)
    ensures |R.ReadiersOf(readys[q := root], root)| <= |R.ReadiersOf(readys, root)| + 1
  {
    assert R.ReadiersOf(readys[q := root], root) == R.ReadiersOf(readys, root) + {q};
  }

  // ----- runs -----

  /** What a broadcast puts out is taken in the event that puts it out. */
  ghost predicate Collected(s: Node) {
    forall j :: j in s.rbcs ==> s.rbcs[j].output.None?
  }

  ghost predicate Tidy(c: Setup, s: Node) {
    Collected(s) && NotLate(c, s)
  }

  /** A failed or stopping step puts nothing out. */
  ghost predicate Withholds(s: R.Node, r: R.Step) {
    r.err || (r.node.halted && !s.halted) ==> r.node.output == s.output
  }

  lemma DecodingWithholds(i: R.Instance, s: R.Node, root: Bytes, t: R.Trigger, pick: R.Picker)
    ensures Withholds(s, R.Step(R.TryDecode(i, s, root, pick), false))
    ensures Withholds(s, R.EmitReady(i, s, root, t, pick))
  {
    hide R.Attempt, R.Eligible, R.InRange;
  }

  lemma EchoWithholds(i: R.Instance, s: R.Node, sid: nat, req: R.ProofRequest, pick: R.Picker)
    ensures Withholds(s, R.HandleEcho(i, s, sid, req, pick))
  {
    hide R.TryDecode, R.EmitReady;
    var t := s.(recvEchos := s.recvEchos[sid := req]);
    DecodingWithholds(i, t, req.root, R.EchoQuorum, pick);
  }

  lemma ReadyWithholds(i: R.Instance, s: R.Node, sid: nat, root: Bytes, pick: R.Picker)
    ensures Withholds(s, R.HandleReady(i, s, sid, root, pick))
  {
    hide R.TryDecode, R.EmitReady;
    DecodingWithholds(i, s.(recvReadys := s.recvReadys[sid := root]), root, R.Relay, pick);
  }

  lemma ProofWithholds(i: R.Instance, s: R.Node, sid: nat, req: R.ProofRequest, pick: R.Picker)
    ensures Withholds(s, R.HandleProof(i, s, sid, req, pick))
  {
    hide R.HandleEcho;
    EchoWithholds(i, R.Say(s.(echoSent := true), R.Echo(req)), i.cfg.id, req, pick);
  }

  lemma FailurePutsNothingOut(i: R.Instance, s: R.Node, sid: nat, m: R.Message, pick: R.Picker)
    ensures Withholds(s, R.HandleMessage(i, s, sid, m, pick))
  {
    hide R.HandleProof, R.HandleEcho, R.HandleReady;
    var h := s.(heard := s.heard + {R.Received(sid, m)});
    match m
    case Proof(req) => ProofWithholds(i, h, sid, req, pick);
    case Echo(req) => EchoWithholds(i, h, sid, req, pick);
    case Ready(root) => ReadyWithholds(i, h, sid, root, pick);
    case Unknown =>
  }

  lemma TryCompleteCollected(c: Setup, s: Node)
    requires Collected(s)
    ensures Collected(TryComplete(c, s))
  {
  }

  lemma AgreementCollected(c: Setup, s: Node, pid: nat, a: Action)
    requires c.Sound() && Collected(s)
    ensures Collected(ProcessAgreement(c, s, pid, a).node)
  {
    hide Act, B.Handle, Complete, Refused;
  }

  lemma BroadcastCollected(c: Setup, s: Node, pid: nat, r: R.Step)
    requires c.Sound() && Collected(s) && pid in s.rbcs && (r.err || r.node.halted ==> r.node.output.None?)
    ensures Collected(ProcessBroadcast(c, s, pid, r).node)
  {
    hide ProcessAgreement, TryComplete;
    if !r.err && !r.node.halted && r.node.output.Some? {
      var t := s.(rbcs := s.rbcs[pid := r.node.(messages := [], output := None)]);
      var d := t.(rbcResults := t.rbcResults[pid := r.node.output.value]);
      AgreementCollected(c, d, pid, Provide(true));
      TryCompleteCollected(c, ProcessAgreement(c, d, pid, Provide(true)).node);
    }
  }

  lemma HandleMessageCollected(c: Setup, s: Node, sid: nat, m: Message, pick: R.Picker)
    requires c.Sound() && Collected(s) && !Halted(s)
    ensures Collected(HandleMessage(c, s, sid, m, pick).node)
  {
    hide ProcessAgreement, ProcessBroadcast, R.HandleMessage;
    match m.payload
    case Agreement(b) => AgreementCollected(c, s, m.proposer, Hand(sid, b));
    case Broadcast(r) =>
      if m.proposer in s.rbcs {
        FailurePutsNothingOut(c.For(m.proposer), s.rbcs[m.proposer], sid, r, pick);
        BroadcastCollected(c, s, m.proposer, R.HandleMessage(c.For(m.proposer), s.rbcs[m.proposer], sid, r, pick));
      }
    case Unknown =>
  }

  /** In a run, the own proposal stores no result. */
  lemma ProposalStoresNothing(w: World, net: Net, p: nat, data: Bytes, pick: R.Picker)
    requires Consistent(w, net) && p in net && Collected(net[p]) && w.At(p).Sound()
    ensures var t := InputValue(w.At(p), net[p], data, pick).node;
            && t.bbaResults == net[p].bbaResults && t.rbcResults == net[p].rbcResults && t.decided == net[p].decided
            && Collected(t)
  {
    hide Consistent, Valid, RS.Consistent, BS.Consistent, ProcessAgreement, R.InputValue;
    MemberKeys(w, net, p);
    NetShape(w, net, p);
    ProposingDeliversNothing(w.Of(p), RbcNet(net, p), data, pick);
    FailedProposal(w.At(p).For(p), net[p].rbcs[p], data, pick);
  }

  lemma FailedProposal(i: R.Instance, s: R.Node, data: Bytes, pick: R.Picker)
    ensures var r := R.InputValue(i, s, data, pick);
            r.err ==> r.node.output == s.output
  {
    hide R.HandleProof;
    if !s.halted && i.codec.encode(data).Some? {
      ProofWithholds(i, s, i.cfg.id, R.ProofOf(i, i.codec.encode(data).value, 0), pick);
    }
  }

  lemma EventKeepsTidy(w: World, net: Net, e: Event)
    requires Consistent(w, net) && Enabled(w, net, e) && Tidy(w.At(e.at), net[e.at])
    ensures Tidy(w.At(e.at), After(w, net, e))
  {
    hide Consistent, Valid, Collected, NotLate, HandleMessage, InputValue, Halted, Sent;
    var c, s := w.At(e.at), net[e.at];
    SoundAt(w, net, e.at);
    MemberKeys(w, net, e.at);
    match e {
      case Propose(p, data, pick) =>
        ProposalStoresNothing(w, net, p, data, pick);
        SameResultsSame(c, s, After(w, net, e));
      case Deliver(_, from, m, pick) =>
        HandleMessageCollected(c, s, from, m, pick);
        HandleMessageIsPrompt(c, s, from, m, pick);
      case TakeOutput(_) =>
        SameResultsSame(c, s, After(w, net, e));
        OutputCollected(s);
    }
  }

  lemma OutputCollected(s: Node)
    requires Collected(s)
    ensures Collected(s.(output := None))
  {
  }

  lemma FreshIsTidy(c: Setup)
    requires c.Sound()
    ensures Tidy(c, Fresh(c.nodes))
  {
    assert Truthy(map[]) == {};
  }

  /** At every point of a run, a correct member whose results complete the subset has decided. */
  lemma {:induction false} RunIsTidy(w: World, nets: seq<Net>, events: seq<Event>, i: nat, p: nat)
    requires IsRun(w, nets, events) && i < |nets| && p in w.k.all - w.k.bad
    ensures p in nets[i] && Tidy(w.At(p), nets[i][p])
  {
    hide Consistent, Tidy, Enabled, After, Fresh;
    if i == 0 {
      FreshIsTidy(w.At(p));
    } else {
      RunIsTidy(w, nets, events, i - 1, p);
      RunIsConsistent(w, nets, events, i - 1);
      if events[i - 1].at == p {
        EventKeepsTidy(w, nets[i - 1], events[i - 1]);
      }
    }
  }
}
