/** When a reliable broadcast instance stops, and when it delivers. */
module RbcProgress {
  import opened Options
  import opened Membership
  import opened Bytes
  import opened RbcSpec
  import opened RbcInvariant
  import opened RbcSafety

  // ----- what one instance keeps -----

  /** A root ready to be decoded under which an ECHO is held with an index that is no position of the vector. */
  ghost predicate Misplaced(i: Instance, echoes: map<nat, ProofRequest>, readys: map<nat, Bytes>, root: Bytes) {
    Eligible(i.cfg.f, echoes, readys, root) && !InRange(i.cfg.n, echoes, root)
  }

  /** The instance has stopped exactly if it came to such a root before it had decoded anything. */
  ghost predicate StopsExactly(i: Instance, s: Node) {
    s.halted <==> !s.outputDecoded && exists root :: Misplaced(i, s.recvEchos, s.recvReadys, root)
  }

  /** Every valid ECHO or READY handed in made its sender's count, and a valid proof of the proposer was echoed. */
  ghost predicate Heeded(i: Instance, s: Node) {
    forall d :: d in s.heard ==>
      match d.msg
      case Proof(req) => d.sid == i.proposer && i.codec.verify(req) ==> s.echoSent
      case Echo(req) => i.codec.verify(req) ==> d.sid in s.recvEchos
      case Ready(_) => d.sid in s.recvReadys
      case Unknown => true
  }

  ghost predicate Verified(i: Instance, s: Node) {
    forall q :: q in s.recvEchos ==> i.codec.verify(s.recvEchos[q])
  }

  ghost predicate FromData(i: Instance, s: Node) {
    s.proposed.Some? ==> exists data :: i.codec.encode(data) == s.proposed
  }

  /** A proposer sends the proofs of its shards and no others, and echoes the first of them. */
  ghost predicate Offers(i: Instance, s: Node) {
    && (forall r :: Proof(r) in s.log ==>
          s.proposed.Some? && exists k: nat :: k < |s.proposed.value| && r == ProofOf(i, s.proposed.value, k))
    && (s.proposed.Some? ==> i.cfg.id in s.recvEchos && s.recvEchos[i.cfg.id] == ProofOf(i, s.proposed.value, 0))
  }

  function Present(v: seq<Option<Bytes>>): set<nat> {
    set j: nat | j < |v| && v[j].Some?
  }

  /** The positions for which the ECHOs under this root give a leaf. */
  function Filled(n: nat, echoes: map<nat, ProofRequest>, root: Bytes): set<nat> {
    set j: nat | j < n && Leaves(echoes, root, j) != {}
  }

  /** What was decoded was reconstructed from leaves held under its root. */
  ghost predicate FromLeaves(i: Instance, s: Node) {
    s.decoded.Some? ==> exists v :: Restored(i, s.recvEchos, s.decoded.value, v)
  }

  ghost predicate Restored(i: Instance, echoes: map<nat, ProofRequest>, d: Decoded, v: seq<Option<Bytes>>) {
    && |v| == i.cfg.n && i.codec.reconstruct(v) == Some(d.shards)
    && Present(v) <= Filled(i.cfg.n, echoes, d.root)
  }

  ghost predicate Attentive(i: Instance, s: Node) {
    StopsExactly(i, s) && Heeded(i, s) && Verified(i, s) && FromData(i, s) && Offers(i, s) && FromLeaves(i, s)
  }

  lemma FreshIsAttentive(i: Instance)
    requires i.Sound()
    ensures Attentive(i, Fresh)
  {
    forall root ensures !Misplaced(i, map[], map[], root) {
      assert ReadiersOf(map[], root) == {};
    }
  }

  // ----- stopping -----

  /** Before a count of `root` is looked at, no other root is the reason to stop. */
  ghost predicate OthersInPlace(i: Instance, s: Node, root: Bytes) {
    !s.halted && (s.outputDecoded || forall h :: h != root ==> !Misplaced(i, s.recvEchos, s.recvReadys, h))
  }

  /** A call decodes nothing, or what leaves held after it restore. */
  ghost predicate Decodes(i: Instance, s: Node, r: Node) {
    r.decoded == s.decoded || (r.decoded.Some? && exists v :: Restored(i, r.recvEchos, r.decoded.value, v))
  }

  lemma TryDecodeRestores(i: Instance, s: Node, root: Bytes, pick: Picker)
    ensures Decodes(i, s, TryDecode(i, s, root, pick))
  {
    hide Eligible, InRange;
    var v := Assembled(i.cfg.n, s.recvEchos, root, pick);
    if i.codec.reconstruct(v).Some? {
      assert Restored(i, s.recvEchos, Decoded(root, i.codec.reconstruct(v).value), v);
    }
  }

  lemma TryDecodeStops(i: Instance, s: Node, root: Bytes, pick: Picker)
    requires OthersInPlace(i, s, root)
    ensures var r := TryDecode(i, s, root, pick);
            && StopsExactly(i, r) && Decodes(i, s, r)
            && r == s.(output := r.output, outputDecoded := r.outputDecoded, decoded := r.decoded, halted := r.halted)
  {
    TryDecodeRestores(i, s, root, pick);
    hide Attempt, Eligible, InRange, Restored;
    var r := TryDecode(i, s, root, pick);
    if r.halted {
      assert Misplaced(i, r.recvEchos, r.recvReadys, root);
    }
  }

  lemma EchoInPlace(i: Instance, s: Node, sid: nat, req: ProofRequest)
    requires !s.halted && StopsExactly(i, s) && sid !in s.recvEchos
    ensures OthersInPlace(i, s.(recvEchos := s.recvEchos[sid := req]), req.root)
  {
    EchoAdds(s.recvEchos, sid, req);
    var more := s.recvEchos[sid := req];
    forall h | h != req.root && !s.outputDecoded ensures !Misplaced(i, more, s.recvReadys, h) {
      assert !Misplaced(i, s.recvEchos, s.recvReadys, h);
      assert forall q :: q in s.recvEchos ==> q in more && more[q] == s.recvEchos[q];
    }
  }

  lemma ReadyInPlace(i: Instance, s: Node, sid: nat, root: Bytes)
    requires OthersInPlace(i, s, root) && sid !in s.recvReadys
    ensures OthersInPlace(i, s.(recvReadys := s.recvReadys[sid := root]), root)
  {
    ReadyAdds(s.recvReadys, sid, root);
    var more := s.recvReadys[sid := root];
    forall h | h != root && !s.outputDecoded ensures !Misplaced(i, s.recvEchos, more, h) {
      assert !Misplaced(i, s.recvEchos, s.recvReadys, h);
    }
  }

  /** What a call may change besides the counts. */
  ghost predicate SameCounts(i: Instance, s: Node, r: Node) {
    && r.recvEchos == s.recvEchos && s.recvReadys.Keys <= r.recvReadys.Keys
    && r.echoSent == s.echoSent && r.heard == s.heard && r.proposed == s.proposed
    && (forall req :: Proof(req) in r.log <==> Proof(req) in s.log)
    && Decodes(i, s, r)
  }

  lemma EmitStops(i: Instance, s: Node, root: Bytes, t: Trigger, pick: Picker)
    requires OthersInPlace(i, s, root) && i.cfg.id !in s.recvReadys && !s.readySent
    ensures var r := EmitReady(i, s, root, t, pick).node;
            StopsExactly(i, r) && SameCounts(i, s, r)
  {
    hide TryDecode, StopsExactly, OthersInPlace;
    var e := Emitted(i, s, root, t);
    EmittedInPlace(i, s, root, t);
    TryDecodeStops(i, e, root, pick);
  }

  lemma EmittedInPlace(i: Instance, s: Node, root: Bytes, t: Trigger)
    requires OthersInPlace(i, s, root) && i.cfg.id !in s.recvReadys
    ensures OthersInPlace(i, Emitted(i, s, root, t), root)
  {
    ReadyInPlace(i, s, i.cfg.id, root);
  }

  lemma EchoStops(i: Instance, s: Node, sid: nat, req: ProofRequest, pick: Picker)
    requires !s.halted && StopsExactly(i, s) && OneReady(i, s)
    requires sid !in s.recvEchos && i.codec.verify(req)
    ensures var r := HandleEcho(i, s, sid, req, pick).node;
            StopsExactly(i, r) && SameCounts(i, s.(recvEchos := s.recvEchos[sid := req]), r)
  {
    hide TryDecode, StopsExactly, OthersInPlace, EmitReady;
    var t := s.(recvEchos := s.recvEchos[sid := req]);
    EchoInPlace(i, s, sid, req);
    if t.readySent || |EchoersOf(t.recvEchos, req.root)| < i.cfg.n - i.cfg.f {
      TryDecodeStops(i, t, req.root, pick);
    } else {
      EmitStops(i, t, req.root, EchoQuorum, pick);
    }
  }

  lemma ReadyStops(i: Instance, s: Node, sid: nat, root: Bytes, pick: Picker)
    requires !s.halted && StopsExactly(i, s) && OneReady(i, s) && sid != i.cfg.id && sid !in s.recvReadys
    ensures var r := HandleReady(i, s, sid, root, pick).node;
            StopsExactly(i, r) && SameCounts(i, s.(recvReadys := s.recvReadys[sid := root]), r)
  {
    hide TryDecode, EmitReady, OthersInPlace;
    var t := s.(recvReadys := s.recvReadys[sid := root]);
    assert OthersInPlace(i, s, root) by { AllInPlace(i, s, root); }
    ReadyInPlace(i, s, sid, root);
    if |ReadiersOf(t.recvReadys, root)| == i.cfg.f + 1 && !t.readySent {
      EmitStops(i, t, root, Relay, pick);
    } else {
      TryDecodeStops(i, t, root, pick);
    }
  }

  lemma AllInPlace(i: Instance, s: Node, root: Bytes)
    requires !s.halted && StopsExactly(i, s)
    ensures OthersInPlace(i, s, root)
  {
  }

  /** The own ECHO, said on a first valid proof. */
  lemma ProofStops(i: Instance, s: Node, sid: nat, req: ProofRequest, pick: Picker)
    requires !s.halted && StopsExactly(i, s) && Valid(i, s)
    ensures var r := HandleProof(i, s, sid, req, pick);
            if sid != i.proposer || s.echoSent || !i.codec.verify(req) then r == Step(s, true)
            else StopsExactly(i, r.node)
                 && SameCounts(i, s.(echoSent := true, recvEchos := s.recvEchos[i.cfg.id := req]), r.node)
  {
    hide HandleEcho;
    if !(sid != i.proposer || s.echoSent || !i.codec.verify(req)) {
      var t := Say(s.(echoSent := true), Echo(req));
      assert OneEcho(i, s) && OneReady(i, s);
      assert StopsExactly(i, t);
      OneReadyStays(i, s, req);
      EchoStops(i, t, i.cfg.id, req, pick);
    }
  }

  lemma OneReadyStays(i: Instance, s: Node, req: ProofRequest)
    requires OneReady(i, s)
    ensures OneReady(i, Say(s.(echoSent := true), Echo(req)))
  {
  }

  // ----- the entry points -----

  /** More votes held, the same or one more message heard: what was heard is still heeded. */
  lemma HeededOn(i: Instance, s: Node, r: Node, d: Received)
    requires Heeded(i, s) && Verified(i, s) && FromData(i, s)
    requires r.heard <= s.heard + {d} && r.proposed == s.proposed
    requires s.recvEchos.Keys <= r.recvEchos.Keys && s.recvReadys.Keys <= r.recvReadys.Keys
    requires s.echoSent ==> r.echoSent
    requires forall q :: q in r.recvEchos ==> i.codec.verify(r.recvEchos[q])
    requires match d.msg
             case Proof(req) => d.sid == i.proposer && i.codec.verify(req) ==> r.echoSent
             case Echo(req) => i.codec.verify(req) ==> d.sid in r.recvEchos
             case Ready(_) => d.sid in r.recvReadys
             case Unknown => true
    ensures Heeded(i, r) && Verified(i, r) && FromData(i, r)
  {
  }

  lemma FilledGrows(n: nat, a: map<nat, ProofRequest>, b: map<nat, ProofRequest>, root: Bytes)
    requires forall q :: q in a ==> q in b && b[q] == a[q]
    ensures Filled(n, a, root) <= Filled(n, b, root)
  {
    forall j | j in Filled(n, a, root) ensures j in Filled(n, b, root) {
      var q :| q in a && a[q].root == root && a[q].index == j && |a[q].proof| > 0;
      assert b[q].proof[0] in Leaves(b, root, j);
    }
  }

  /** More ECHOs held, the same proposal: what was sent and what was decoded are still accounted for. */
  lemma SourcesOn(i: Instance, s: Node, r: Node)
    requires Offers(i, s) && FromLeaves(i, s) && Decodes(i, s, r) && r.proposed == s.proposed
    requires forall q :: q in s.recvEchos ==> q in r.recvEchos && r.recvEchos[q] == s.recvEchos[q]
    requires forall req :: Proof(req) in r.log <==> Proof(req) in s.log
    ensures Offers(i, r) && FromLeaves(i, r)
  {
    hide Filled;
    if s.decoded.Some? && r.decoded == s.decoded {
      var v :| Restored(i, s.recvEchos, s.decoded.value, v);
      FilledGrows(i.cfg.n, s.recvEchos, r.recvEchos, s.decoded.value.root);
      assert Restored(i, r.recvEchos, r.decoded.value, v);
    }
  }

  /** Every handled message keeps: the instance has stopped exactly if an ECHO is misplaced, and heeds what it heard. */
  lemma HandleMessageAttends(i: Instance, s: Node, sid: nat, m: Message, pick: Picker)
    requires Valid(i, s) && Attentive(i, s) && sid != i.cfg.id
    ensures Attentive(i, HandleMessage(i, s, sid, m, pick).node)
  {
    hide HandleProof, HandleEcho, HandleReady, Valid, StopsExactly, Heeded, Verified, FromData;
    hide Offers, FromLeaves, Restored;
    if !s.halted {
      var d := Received(sid, m);
      var h := s.(heard := s.heard + {d});
      var r := HandleMessage(i, s, sid, m, pick).node;
      HearKeeps(i, s, sid, m);
      HearStops(i, s, d);
      ValidParts(i, h);
      EchoSentHeld(i, s);
      match m
      case Proof(req) =>
        ProofStops(i, h, sid, req, pick);
        VerifiedWith(i, s, i.cfg.id, req);
        HeededOn(i, s, r, d);
        SourcesOn(i, s, r);
      case Echo(req) =>
        if sid !in s.recvEchos && i.codec.verify(req) {
          EchoStops(i, h, sid, req, pick);
          VerifiedWith(i, s, sid, req);
        } else {
          Refuses(i, h, sid, m, pick);
          VerifiedWith(i, s, sid, req);
        }
        HeededOn(i, s, r, d);
        SourcesOn(i, s, r);
      case Ready(root) =>
        if sid !in s.recvReadys { ReadyStops(i, h, sid, root, pick); } else { Refuses(i, h, sid, m, pick); }
        VerifiedWith(i, s, sid, ProofRequest([], [], 0, 0));
        HeededOn(i, s, r, d);
        SourcesOn(i, s, r);
      case Unknown =>
        VerifiedWith(i, s, sid, ProofRequest([], [], 0, 0));
        HeededOn(i, s, r, d);
        SourcesOn(i, s, r);
    }
  }

  lemma HearStops(i: Instance, s: Node, d: Received)
    requires StopsExactly(i, s)
    ensures StopsExactly(i, s.(heard := s.heard + {d}))
  {
  }

  lemma ValidParts(i: Instance, s: Node)
    requires Valid(i, s)
    ensures OneReady(i, s)
  {
  }

  lemma EchoSentHeld(i: Instance, s: Node)
    requires Valid(i, s)
    ensures s.echoSent <==> i.cfg.id in s.recvEchos
    ensures s.proposed.Some? ==> s.echoSent
  {
  }

  lemma VerifiedWith(i: Instance, s: Node, q: nat, req: ProofRequest)
    requires Verified(i, s)
    ensures forall x :: x in s.recvEchos ==> i.codec.verify(s.recvEchos[x])
    ensures i.codec.verify(req) ==> var more := s.recvEchos[q := req]; forall x :: x in more ==> i.codec.verify(more[x])
  {
  }

  lemma Refuses(i: Instance, h: Node, sid: nat, m: Message, pick: Picker)
    requires match m
             case Echo(req) => sid in h.recvEchos || !i.codec.verify(req)
             case Ready(_) => sid in h.recvReadys
             case _ => false
    ensures m.Echo? ==> HandleEcho(i, h, sid, m.req, pick).node == h
    ensures m.Ready? ==> HandleReady(i, h, sid, m.root, pick).node == h
  {
  }

  lemma InputValueAttends(i: Instance, s: Node, data: Bytes, pick: Picker)
    requires Valid(i, s) && Attentive(i, s)
    ensures Attentive(i, InputValue(i, s, data, pick).node)
  {
    hide HandleProof, Valid, StopsExactly, Heeded, Verified, Offers, FromLeaves, Restored;
    if !s.halted && i.codec.encode(data).Some? {
      var shards := i.codec.encode(data).value;
      var req := ProofOf(i, shards, 0);
      ProofStops(i, s, i.cfg.id, req, pick);
      VerifiedWith(i, s, i.cfg.id, req);
      EchoSentHeld(i, s);
      var p := HandleProof(i, s, i.cfg.id, req, pick);
      if !(i.cfg.id != i.proposer || s.echoSent || !i.codec.verify(req)) {
        HeededOn(i, s, p.node, Received(i.cfg.id, Unknown));
        SourcesOn(i, s, p.node);
        if !p.err {
          ProposedAttends(i, p.node, data, shards);
        }
      }
    }
  }

  /** The proposal is remembered, and its proofs are on their way. */
  lemma ProposedAttends(i: Instance, s: Node, data: Bytes, shards: seq<Bytes>)
    requires Attentive(i, s) && s.proposed.None? && i.codec.encode(data) == Some(shards)
    requires i.cfg.id in s.recvEchos && s.recvEchos[i.cfg.id] == ProofOf(i, shards, 0)
    ensures Attentive(i, s.(proposed := Some(shards),
                            log := s.log + set j | 1 <= j < |shards| :: Proof(ProofOf(i, shards, j))))
  {
    hide Filled, Restored;
    var r := s.(proposed := Some(shards), log := s.log + set j | 1 <= j < |shards| :: Proof(ProofOf(i, shards, j)));
    HistoryAside(i, s, r);
    assert Heeded(i, r) && Verified(i, r) && FromData(i, r);
    OffersProposed(i, s, shards);
    assert FromLeaves(i, r);
  }

  lemma OffersProposed(i: Instance, s: Node, shards: seq<Bytes>)
    requires Offers(i, s) && s.proposed.None?
    requires i.cfg.id in s.recvEchos && s.recvEchos[i.cfg.id] == ProofOf(i, shards, 0)
    ensures Offers(i, s.(proposed := Some(shards),
                         log := s.log + set j | 1 <= j < |shards| :: Proof(ProofOf(i, shards, j))))
  {
  }

  lemma HistoryAside(i: Instance, s: Node, r: Node)
    requires StopsExactly(i, s) && r == s.(proposed := r.proposed, log := r.log)
    ensures StopsExactly(i, r)
  {
  }
}
