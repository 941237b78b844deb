/** What every handler call of a reliable broadcast instance keeps. */
module RbcInvariant {
  import opened Options
  import opened Membership
  import opened Bytes
  import opened RbcSpec

  /** Message m was said by q: to the instance, or by the instance itself. */
  ghost predicate From(i: Instance, s: Node, q: nat, m: Message) {
    if q == i.cfg.id then m in s.log else Received(q, m) in s.heard
  }

  ghost predicate Sourced(i: Instance, s: Node) {
    && (forall q :: q in s.recvEchos ==> From(i, s, q, Echo(s.recvEchos[q])))
    && (forall q :: q in s.recvReadys ==> From(i, s, q, Ready(s.recvReadys[q])))
  }

  /** One ECHO at most was said: the one held under the own id. It answers a proof of the proposer. */
  ghost predicate OneEcho(i: Instance, s: Node) {
    && (s.echoSent <==> i.cfg.id in s.recvEchos)
    && (forall r :: Echo(r) in s.log ==> s.echoSent && r == s.recvEchos[i.cfg.id])
    && (s.echoSent ==>
          var r := s.recvEchos[i.cfg.id];
          if i.proposer == i.cfg.id
          then s.proposed.Some? ==> r.root == i.codec.rootOf(s.proposed.value)
          else Received(i.proposer, Proof(r)) in s.heard)
    && (forall r :: Proof(r) in s.log ==> s.proposed.Some? && r.root == i.codec.rootOf(s.proposed.value))
    && (s.proposed.Some? ==> s.echoSent && |s.proposed.value| == i.cfg.n)
  }

  /** One READY at most was said, for a root with an ECHO quorum here or f + 1 READYs of others. */
  ghost predicate OneReady(i: Instance, s: Node) {
    && (s.readySent <==> i.cfg.id in s.recvReadys)
    && (s.readySent <==> s.trigger.Some?)
    && (forall h :: Ready(h) in s.log ==> s.readySent && h == s.recvReadys[i.cfg.id])
    && (s.readySent ==>
          var h := s.recvReadys[i.cfg.id];
          match s.trigger.value.trigger
          case EchoQuorum => |EchoersOf(s.recvEchos, h)| >= i.cfg.n - i.cfg.f
          case Relay => |ReadiersOf(s.recvReadys, h) - {i.cfg.id}| >= i.cfg.f + 1)
  }

  /** The counts recorded with the READY are the ones at which its threshold was met, the other threshold unmet. */
  ghost predicate TriggerExact(c: Config, t: ReadyRecord) {
    match t.trigger
    case EchoQuorum => t.echoes == c.n - c.f && t.readys <= c.f
    case Relay => t.readys == c.f + 1 && t.echoes < c.n - c.f
  }

  ghost predicate BelowThresholds(c: Config, echoes: map<nat, ProofRequest>, readys: map<nat, Bytes>) {
    forall h :: |ReadiersOf(readys, h)| <= c.f && |EchoersOf(echoes, h)| < c.n - c.f
  }

  /** No READY threshold is passed without a READY. */
  ghost predicate Prompt(i: Instance, s: Node) {
    && (s.readySent || BelowThresholds(i.cfg, s.recvEchos, s.recvReadys))
    && (s.trigger.Some? ==> TriggerExact(i.cfg, s.trigger.value))
  }

  /** With the ECHOs held, decoding under this root can still fail. */
  ghost predicate CanFail(i: Instance, echoes: map<nat, ProofRequest>, root: Bytes) {
    exists pick :: Picks(pick) && Attempt(i, echoes, root, pick).None?
  }

  ghost predicate Tried(i: Instance, echoes: map<nat, ProofRequest>, readys: map<nat, Bytes>, root: Bytes) {
    Eligible(i.cfg.f, echoes, readys, root) ==> CanFail(i, echoes, root)
  }

  /** Every root eligible for decoding has been tried with the ECHOs held, unless one was decoded. */
  ghost predicate AllTried(i: Instance, s: Node) {
    s.outputDecoded || s.halted || forall root :: Tried(i, s.recvEchos, s.recvReadys, root)
  }

  /** What was decoded had 2f + 1 READYs for the root that commits to it. */
  ghost predicate DecodedWell(i: Instance, s: Node) {
    && (s.outputDecoded <==> s.decoded.Some?)
    && (s.decoded.Some? ==>
          var d := s.decoded.value;
          && |d.shards| == i.cfg.n
          && i.codec.rootOf(d.shards) == d.root
          && |ReadiersOf(s.recvReadys, d.root)| >= 2 * i.cfg.f + 1)
    && (s.output.Some? ==> s.decoded.Some? && s.output.value == Value(i, s.decoded.value.shards))
  }

  ghost predicate Valid(i: Instance, s: Node) {
    && Sourced(i, s)
    && OneEcho(i, s)
    && OneReady(i, s)
    && Prompt(i, s)
    && AllTried(i, s)
    && DecodedWell(i, s)
  }

  /** History only grows, and what was held, decoded or proposed stays. */
  ghost predicate Grows(s: Node, r: Node) {
    && s.log <= r.log
    && s.heard <= r.heard
    && (forall q :: q in s.recvEchos ==> q in r.recvEchos && r.recvEchos[q] == s.recvEchos[q])
    && (forall q :: q in s.recvReadys ==> q in r.recvReadys && r.recvReadys[q] == s.recvReadys[q])
    && (s.decoded.Some? ==> r.decoded == s.decoded)
    && (s.proposed.Some? ==> r.proposed == s.proposed)
  }

  ghost predicate Extends(s: Node, r: Node) {
    Grows(s, r) && r.heard == s.heard && r.proposed == s.proposed
  }

  lemma CountsGrow(s: Node, r: Node, h: Bytes)
    requires Grows(s, r)
    ensures |EchoersOf(s.recvEchos, h)| <= |EchoersOf(r.recvEchos, h)|
    ensures |ReadiersOf(s.recvReadys, h)| <= |ReadiersOf(r.recvReadys, h)|
  {
    SubsetSize(EchoersOf(s.recvEchos, h), EchoersOf(r.recvEchos, h));
    SubsetSize(ReadiersOf(s.recvReadys, h), ReadiersOf(r.recvReadys, h));
  }

  lemma FreshIsValid(i: Instance)
    requires i.Sound()
    ensures Valid(i, Fresh)
  {
    forall h ensures EchoersOf(map[], h) == {} && ReadiersOf(map[], h) == {} {
    }
  }

  // ----- one more ECHO, one more READY -----

  lemma EchoAdds(echoes: map<nat, ProofRequest>, sid: nat, req: ProofRequest)
    requires sid !in echoes
    ensures |EchoersOf(echoes[sid := req], req.root)| == |EchoersOf(echoes, req.root)| + 1
    ensures forall h :: h != req.root ==> EchoersOf(echoes[sid := req], h) == EchoersOf(echoes, h)
  {
    var more := echoes[sid := req];
    assert EchoersOf(more, req.root) == EchoersOf(echoes, req.root) + {sid};
    forall h | h != req.root ensures EchoersOf(more, h) == EchoersOf(echoes, h) {
      assert forall q :: q in EchoersOf(more, h) <==> q in EchoersOf(echoes, h);
    }
  }

  lemma ReadyAdds(readys: map<nat, Bytes>, sid: nat, root: Bytes)
    requires sid !in readys
    ensures ReadiersOf(readys[sid := root], root) == ReadiersOf(readys, root) + {sid}
    ensures |ReadiersOf(readys[sid := root], root)| == |ReadiersOf(readys, root)| + 1
    ensures forall h :: h != root ==> ReadiersOf(readys[sid := root], h) == ReadiersOf(readys, h)
  {
    var more := readys[sid := root];
    assert ReadiersOf(more, root) == ReadiersOf(readys, root) + {sid};
    forall h | h != root ensures ReadiersOf(more, h) == ReadiersOf(readys, h) {
      assert forall q :: q in ReadiersOf(more, h) <==> q in ReadiersOf(readys, h);
    }
  }

  /** An attempt for another root does not see a new ECHO. */
  lemma SameAttempt(i: Instance, echoes: map<nat, ProofRequest>, sid: nat, req: ProofRequest, h: Bytes, pick: Picker)
    requires sid !in echoes && h != req.root
    ensures Attempt(i, echoes[sid := req], h, pick) == Attempt(i, echoes, h, pick)
  {
    var more := echoes[sid := req];
    forall j: int ensures Leaves(more, h, j) == Leaves(echoes, h, j) {
      forall q | q in echoes && echoes[q].root == h ensures q in more && more[q] == echoes[q] {
      }
      assert forall b :: b in Leaves(more, h, j) <==> b in Leaves(echoes, h, j);
    }
    assert Assembled(i.cfg.n, more, h, pick) == Assembled(i.cfg.n, echoes, h, pick);
  }

  lemma EchoLeavesTried(i: Instance, echoes: map<nat, ProofRequest>, readys: map<nat, Bytes>,
                        sid: nat, req: ProofRequest, h: Bytes)
    requires sid !in echoes && h != req.root && Tried(i, echoes, readys, h)
    ensures Tried(i, echoes[sid := req], readys, h)
  {
    EchoAdds(echoes, sid, req);
    if CanFail(i, echoes, h) {
      var pick :| Picks(pick) && Attempt(i, echoes, h, pick).None?;
      SameAttempt(i, echoes, sid, req, h, pick);
    }
  }

  // ----- the handlers -----

  ghost predicate OthersTried(i: Instance, s: Node, root: Bytes) {
    s.outputDecoded || s.halted || forall h :: h != root ==> Tried(i, s.recvEchos, s.recvReadys, h)
  }

  /** All parts of Valid, but `root` may be due for decoding. */
  ghost predicate DueAt(i: Instance, s: Node, root: Bytes) {
    Sourced(i, s) && OneEcho(i, s) && OneReady(i, s) && Prompt(i, s) && DecodedWell(i, s) && OthersTried(i, s, root)
  }

  lemma ReadyLeavesTried(i: Instance, s: Node, sid: nat, root: Bytes)
    requires sid !in s.recvReadys && OthersTried(i, s, root)
    ensures OthersTried(i, s.(recvReadys := s.recvReadys[sid := root]), root)
  {
    ReadyAdds(s.recvReadys, sid, root);
    if !(s.outputDecoded || s.halted) {
      var more := s.recvReadys[sid := root];
      forall h | h != root ensures Tried(i, s.recvEchos, more, h) {
        assert Tried(i, s.recvEchos, s.recvReadys, h);
      }
    }
  }

  /** Decoding leaves alone what the other parts of the invariant speak of. */
  lemma OutputIrrelevant(i: Instance, s: Node, r: Node)
    requires Sourced(i, s) && OneEcho(i, s) && OneReady(i, s) && Prompt(i, s)
    requires r == s.(output := r.output, outputDecoded := r.outputDecoded, decoded := r.decoded, halted := r.halted)
    ensures Sourced(i, r) && OneEcho(i, r) && OneReady(i, r) && Prompt(i, r)
  {
  }

  lemma TryDecodeTries(i: Instance, s: Node, root: Bytes, pick: Picker)
    requires i.Sound() && Picks(pick) && OthersTried(i, s, root) && DecodedWell(i, s)
    ensures var r := TryDecode(i, s, root, pick);
            && AllTried(i, r) && DecodedWell(i, r) && Extends(s, r)
            && r == s.(output := r.output, outputDecoded := r.outputDecoded, decoded := r.decoded, halted := r.halted)
  {
    if Eligible(i.cfg.f, s.recvEchos, s.recvReadys, root) && Attempt(i, s.recvEchos, root, pick).None? {
      assert CanFail(i, s.recvEchos, root);
    }
  }

  lemma TryDecodeKeeps(i: Instance, s: Node, root: Bytes, pick: Picker)
    requires i.Sound() && Picks(pick) && DueAt(i, s, root)
    ensures var r := TryDecode(i, s, root, pick);
            Valid(i, r) && Extends(s, r)
  {
    hide TryDecode, Sourced, OneEcho, OneReady, Prompt, DecodedWell, AllTried, OthersTried, Extends;
    TryDecodeTries(i, s, root, pick);
    OutputIrrelevant(i, s, TryDecode(i, s, root, pick));
  }

  /** All parts of Valid but the ones the count of `root` may now trigger; no READY was said yet. */
  ghost predicate Pending(i: Instance, s: Node, root: Bytes) {
    && Sourced(i, s) && OneEcho(i, s) && OneReady(i, s) && DecodedWell(i, s) && OthersTried(i, s, root)
    && !s.readySent
  }

  lemma EmitReadyKeeps(i: Instance, s: Node, root: Bytes, t: Trigger, pick: Picker)
    requires i.Sound() && Picks(pick) && Pending(i, s, root)
    requires TriggerExact(i.cfg, ReadyRecord(t, |EchoersOf(s.recvEchos, root)|, |ReadiersOf(s.recvReadys, root)|))
    ensures var r := EmitReady(i, s, root, t, pick);
            !r.err && Valid(i, r.node) && Extends(s, r.node)
  {
    var r := Emitted(i, s, root, t);
    EmittedIsDue(i, s, root, t);
    hide Pending, DueAt, Valid;
    TryDecodeKeeps(i, r, root, pick);
  }

  ghost function Emitted(i: Instance, s: Node, root: Bytes, t: Trigger): Node {
    Say(s.(recvReadys := s.recvReadys[i.cfg.id := root], readySent := true,
           trigger := Some(ReadyRecord(t, |EchoersOf(s.recvEchos, root)|, |ReadiersOf(s.recvReadys, root)|))),
        Ready(root))
  }

  lemma EmittedIsDue(i: Instance, s: Node, root: Bytes, t: Trigger)
    requires i.Sound() && Pending(i, s, root)
    requires TriggerExact(i.cfg, ReadyRecord(t, |EchoersOf(s.recvEchos, root)|, |ReadiersOf(s.recvReadys, root)|))
    ensures DueAt(i, Emitted(i, s, root, t), root) && Extends(s, Emitted(i, s, root, t))
    ensures i.cfg.id !in s.recvReadys
  {
    ReadyAdds(s.recvReadys, i.cfg.id, root);
    var r := Emitted(i, s, root, t);
    assert ReadiersOf(r.recvReadys, root) - {i.cfg.id} == ReadiersOf(s.recvReadys, root);
    ReadyLeavesTried(i, s, i.cfg.id, root);
  }

  lemma HandleEchoKeeps(i: Instance, s: Node, sid: nat, req: ProofRequest, pick: Picker)
    requires i.Sound() && Picks(pick) && Valid(i, s) && From(i, s, sid, Echo(req))
    requires sid != i.cfg.id
    ensures var r := HandleEcho(i, s, sid, req, pick);
            Valid(i, r.node) && Extends(s, r.node)
  {
    hide Valid, EchoDue, TryDecode, EmitReady, From;
    if sid !in s.recvEchos && i.codec.verify(req) {
      EchoHeld(i, s, sid, req);
      CountEcho(i, s.(recvEchos := s.recvEchos[sid := req]), req.root, pick);
    }
  }

  ghost predicate EchoDue(i: Instance, t: Node, root: Bytes) {
    && Sourced(i, t) && OneEcho(i, t) && OneReady(i, t) && DecodedWell(i, t) && OthersTried(i, t, root)
    && (t.trigger.Some? ==> TriggerExact(i.cfg, t.trigger.value))
    && (!t.readySent ==>
          && (forall h :: |ReadiersOf(t.recvReadys, h)| <= i.cfg.f)
          && |EchoersOf(t.recvEchos, root)| <= i.cfg.n - i.cfg.f
          && (forall h :: h != root ==> |EchoersOf(t.recvEchos, h)| < i.cfg.n - i.cfg.f))
  }

  lemma CountEcho(i: Instance, t: Node, root: Bytes, pick: Picker)
    requires i.Sound() && Picks(pick) && EchoDue(i, t, root)
    ensures var r := if t.readySent || |EchoersOf(t.recvEchos, root)| < i.cfg.n - i.cfg.f
                     then Step(TryDecode(i, t, root, pick), false)
                     else EmitReady(i, t, root, EchoQuorum, pick);
            !r.err && Valid(i, r.node) && Extends(t, r.node)
  {
    if t.readySent || |EchoersOf(t.recvEchos, root)| < i.cfg.n - i.cfg.f {
      TryDecodeKeeps(i, t, root, pick);
    } else {
      EmitReadyKeeps(i, t, root, EchoQuorum, pick);
    }
  }

  /** Holding one more ECHO, with the own one said at the same time or another's. */
  lemma EchoHeld(i: Instance, s: Node, sid: nat, req: ProofRequest)
    requires i.Sound() && Valid(i, s) && sid !in s.recvEchos && sid != i.cfg.id && From(i, s, sid, Echo(req))
    ensures var t := s.(recvEchos := s.recvEchos[sid := req]);
            EchoDue(i, t, req.root) && Extends(s, t)
  {
    EchoCounted(i, s, sid, req);
  }

  lemma EchoCounted(i: Instance, s: Node, sid: nat, req: ProofRequest)
    requires i.Sound() && sid !in s.recvEchos && AllTried(i, s) && OneReady(i, s) && Prompt(i, s)
    ensures var t := s.(recvEchos := s.recvEchos[sid := req]);
            && OthersTried(i, t, req.root) && OneReady(i, t)
            && (!t.readySent ==>
                  && (forall h :: |ReadiersOf(t.recvReadys, h)| <= i.cfg.f)
                  && |EchoersOf(t.recvEchos, req.root)| <= i.cfg.n - i.cfg.f
                  && (forall h :: h != req.root ==> |EchoersOf(t.recvEchos, h)| < i.cfg.n - i.cfg.f))
  {
    EchoAdds(s.recvEchos, sid, req);
    var t := s.(recvEchos := s.recvEchos[sid := req]);
    if !s.readySent {
      assert |EchoersOf(s.recvEchos, req.root)| < i.cfg.n - i.cfg.f;
      forall h | h != req.root ensures |EchoersOf(t.recvEchos, h)| < i.cfg.n - i.cfg.f {
        assert EchoersOf(t.recvEchos, h) == EchoersOf(s.recvEchos, h);
        assert |EchoersOf(s.recvEchos, h)| < i.cfg.n - i.cfg.f;
      }
    }
    if !(s.outputDecoded || s.halted) {
      forall h | h != req.root ensures Tried(i, t.recvEchos, t.recvReadys, h) {
        EchoLeavesTried(i, s.recvEchos, s.recvReadys, sid, req, h);
      }
    }
  }

  /** The instance has just said its own ECHO, and holds it. */
  ghost function OwnEcho(i: Instance, s: Node, req: ProofRequest): Node {
    var e := Say(s.(echoSent := true), Echo(req));
    e.(recvEchos := e.recvEchos[i.cfg.id := req])
  }

  ghost predicate Proposes(i: Instance, s: Node, req: ProofRequest) {
    i.proposer != i.cfg.id ==> Received(i.proposer, Proof(req)) in s.heard
  }

  lemma OwnEchoHeld(i: Instance, s: Node, req: ProofRequest)
    requires i.Sound() && Valid(i, s) && !s.echoSent && Proposes(i, s, req)
    ensures i.cfg.id !in s.recvEchos
    ensures EchoDue(i, OwnEcho(i, s, req), req.root) && Extends(s, OwnEcho(i, s, req))
  {
    EchoCounted(i, s, i.cfg.id, req);
    var o := OwnEcho(i, s, req);
    assert Sourced(i, o) && OneEcho(i, o) && DecodedWell(i, o);
    assert OneReady(i, o);
  }

  lemma HandleProofKeeps(i: Instance, s: Node, sid: nat, req: ProofRequest, pick: Picker)
    requires i.Sound() && Picks(pick) && Valid(i, s) && Proposes(i, s, req)
    ensures var r := HandleProof(i, s, sid, req, pick);
            Valid(i, r.node) && Extends(s, r.node) && (!r.err ==> Echo(req) in r.node.log && !s.echoSent)
  {
    hide Valid, EchoDue, TryDecode, EmitReady;
    if !s.echoSent && i.codec.verify(req) {
      OwnEchoHeld(i, s, req);
      CountEcho(i, OwnEcho(i, s, req), req.root, pick);
    }
  }

  // ----- READY -----

  ghost predicate ReadyDue(i: Instance, t: Node, root: Bytes) {
    && Sourced(i, t) && OneEcho(i, t) && OneReady(i, t) && DecodedWell(i, t) && OthersTried(i, t, root)
    && (t.trigger.Some? ==> TriggerExact(i.cfg, t.trigger.value))
    && (!t.readySent ==>
          && (forall h :: |EchoersOf(t.recvEchos, h)| < i.cfg.n - i.cfg.f)
          && |ReadiersOf(t.recvReadys, root)| <= i.cfg.f + 1
          && (forall h :: h != root ==> |ReadiersOf(t.recvReadys, h)| <= i.cfg.f))
  }

  lemma CountReady(i: Instance, t: Node, root: Bytes, pick: Picker)
    requires i.Sound() && Picks(pick) && ReadyDue(i, t, root)
    ensures var r := if |ReadiersOf(t.recvReadys, root)| == i.cfg.f + 1 && !t.readySent
                     then EmitReady(i, t, root, Relay, pick)
                     else Step(TryDecode(i, t, root, pick), false);
            !r.err && Valid(i, r.node) && Extends(t, r.node)
  {
    if |ReadiersOf(t.recvReadys, root)| == i.cfg.f + 1 && !t.readySent {
      EmitReadyKeeps(i, t, root, Relay, pick);
    } else {
      TryDecodeKeeps(i, t, root, pick);
    }
  }

  lemma ReadyHeld(i: Instance, s: Node, sid: nat, root: Bytes)
    requires i.Sound() && Valid(i, s) && sid !in s.recvReadys && sid != i.cfg.id && From(i, s, sid, Ready(root))
    ensures var t := s.(recvReadys := s.recvReadys[sid := root]);
            ReadyDue(i, t, root) && Extends(s, t)
  {
    ReadyCounted(i, s, sid, root);
    var t := s.(recvReadys := s.recvReadys[sid := root]);
    assert Sourced(i, t) && OneEcho(i, t);
  }

  lemma ReadyCounted(i: Instance, s: Node, sid: nat, root: Bytes)
    requires i.Sound() && sid !in s.recvReadys && sid != i.cfg.id
    requires AllTried(i, s) && OneReady(i, s) && Prompt(i, s) && DecodedWell(i, s)
    ensures var t := s.(recvReadys := s.recvReadys[sid := root]);
            && OthersTried(i, t, root) && OneReady(i, t) && DecodedWell(i, t)
            && (!t.readySent ==>
                  && (forall h :: |EchoersOf(t.recvEchos, h)| < i.cfg.n - i.cfg.f)
                  && |ReadiersOf(t.recvReadys, root)| <= i.cfg.f + 1
                  && (forall h :: h != root ==> |ReadiersOf(t.recvReadys, h)| <= i.cfg.f))
  {
    ReadyAdds(s.recvReadys, sid, root);
    var t := s.(recvReadys := s.recvReadys[sid := root]);
    ReadyLeavesTried(i, s, sid, root);
    if !s.readySent {
      assert |ReadiersOf(s.recvReadys, root)| <= i.cfg.f;
      forall h | h != root ensures |ReadiersOf(t.recvReadys, h)| <= i.cfg.f {
        assert ReadiersOf(t.recvReadys, h) == ReadiersOf(s.recvReadys, h);
      }
    }
    MoreReadys(i, s, t);
  }

  /** READYs of others take nothing away from what the own READY or the decoding rests on. */
  lemma MoreReadys(i: Instance, s: Node, t: Node)
    requires OneReady(i, s) && DecodedWell(i, s)
    requires t == s.(recvReadys := t.recvReadys)
    requires forall q :: q in s.recvReadys ==> q in t.recvReadys && t.recvReadys[q] == s.recvReadys[q]
    requires i.cfg.id in t.recvReadys <==> i.cfg.id in s.recvReadys
    ensures OneReady(i, t) && DecodedWell(i, t)
  {
    forall h ensures |ReadiersOf(s.recvReadys, h)| <= |ReadiersOf(t.recvReadys, h)| {
      SubsetSize(ReadiersOf(s.recvReadys, h), ReadiersOf(t.recvReadys, h));
    }
    forall h ensures |ReadiersOf(s.recvReadys, h) - {i.cfg.id}| <= |ReadiersOf(t.recvReadys, h) - {i.cfg.id}| {
      SubsetSize(ReadiersOf(s.recvReadys, h) - {i.cfg.id}, ReadiersOf(t.recvReadys, h) - {i.cfg.id});
    }
  }

  lemma HandleReadyKeeps(i: Instance, s: Node, sid: nat, root: Bytes, pick: Picker)
    requires i.Sound() && Picks(pick) && Valid(i, s) && From(i, s, sid, Ready(root)) && sid != i.cfg.id
    ensures var r := HandleReady(i, s, sid, root, pick);
            Valid(i, r.node) && Extends(s, r.node)
  {
    hide Valid, ReadyDue, TryDecode, EmitReady, From;
    if sid !in s.recvReadys {
      ReadyHeld(i, s, sid, root);
      CountReady(i, s.(recvReadys := s.recvReadys[sid := root]), root, pick);
    }
  }

  // ----- the entry points -----

  lemma HearKeeps(i: Instance, s: Node, sid: nat, m: Message)
    requires Valid(i, s)
    ensures Valid(i, s.(heard := s.heard + {Received(sid, m)}))
  {
  }

  lemma HandleMessageKeeps(i: Instance, s: Node, sid: nat, m: Message, pick: Picker)
    requires i.Sound() && Picks(pick) && Valid(i, s) && sid != i.cfg.id
    ensures var r := HandleMessage(i, s, sid, m, pick);
            && Valid(i, r.node) && Grows(s, r.node) && r.node.proposed == s.proposed
            && r.node.heard <= s.heard + {Received(sid, m)}
  {
    if !s.halted {
      HearKeeps(i, s, sid, m);
      hide Valid, HandleProof, HandleEcho, HandleReady;
      var h := s.(heard := s.heard + {Received(sid, m)});
      match m
      case Proof(req) =>
        if sid == i.proposer { HandleProofKeeps(i, h, sid, req, pick); }
      case Echo(req) => HandleEchoKeeps(i, h, sid, req, pick);
      case Ready(root) => HandleReadyKeeps(i, h, sid, root, pick);
      case Unknown =>
    }
  }

  /** A proposal is echoed once; its proofs all carry the root of its shards. */
  lemma InputValueKeeps(i: Instance, s: Node, data: Bytes, pick: Picker)
    requires i.Sound() && Picks(pick) && Valid(i, s) && i.proposer == i.cfg.id
    ensures var r := InputValue(i, s, data, pick);
            Valid(i, r.node) && Grows(s, r.node) && r.node.heard == s.heard
  {
    if !s.halted && i.codec.encode(data).Some? {
      var shards := i.codec.encode(data).value;
      HandleProofKeeps(i, s, i.cfg.id, ProofOf(i, shards, 0), pick);
      var p := HandleProof(i, s, i.cfg.id, ProofOf(i, shards, 0), pick);
      if !p.err {
        ProposedKeeps(i, p.node, shards);
      }
    }
  }

  lemma ProposedKeeps(i: Instance, s: Node, shards: seq<Bytes>)
    requires Valid(i, s) && i.proposer == i.cfg.id && s.proposed.None? && |shards| == i.cfg.n
    requires Echo(ProofOf(i, shards, 0)) in s.log
    ensures var r := s.(proposed := Some(shards),
                        log := s.log + set j | 1 <= j < |shards| :: Proof(ProofOf(i, shards, j)));
            Valid(i, r) && Grows(s, r)
  {
  }

  lemma CollectKeeps(i: Instance, s: Node)
    requires Valid(i, s)
    ensures Valid(i, s.(messages := [])) && Valid(i, s.(output := None))
  {
  }
}
