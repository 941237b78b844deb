/** When a broadcast stops correct members, and when all of them decode it. */
module RbcDelivery {
  import opened Options
  import opened Membership
  import opened Bytes
  import opened RbcSpec
  import opened RbcInvariant
  import opened RbcSafety
  import opened RbcProgress

  // ----- laws of the coding and hashing libraries, beyond the ones agreement needs -----

  /** A valid proof that names the true number of leaves carries the entry of its index, which is a position. With
      another number of leaves the check may accept any index. */
  ghost predicate Binds(c: Codec, n: nat) {
    forall r, shards: seq<Bytes> :: |shards| == n && c.verify(r) && r.root == c.rootOf(shards) && r.leaves == n ==>
      0 <= r.index < n && |r.proof| > 0 && r.proof[0] == shards[r.index]
  }

  /** The proofs that a proposer sends are valid. */
  ghost predicate Proves(c: Codec, n: nat) {
    forall data, j: nat :: c.encode(data).Some? && j < n ==>
      var shards := c.encode(data).value;
      c.verify(ProofRequest(c.rootOf(shards), c.branch(shards, j), j, |shards|))
  }

  ghost predicate PartOf(v: seq<Option<Bytes>>, shards: seq<Bytes>) {
    |v| == |shards| && forall j :: 0 <= j < |v| ==> v[j].None? || v[j] == Some(shards[j])
  }

  /** k entries of an encoded vector determine it. */
  ghost predicate Restores(c: Codec, n: nat, k: int) {
    forall data, v :: c.encode(data).Some? && |v| == n && PartOf(v, c.encode(data).value) && |Present(v)| >= k ==>
      c.reconstruct(v) == c.encode(data)
  }

  /** Fewer than k entries restore nothing, and the entries given are kept. */
  ghost predicate Completes(c: Codec, n: nat, k: int) {
    forall v :: |v| == n && c.reconstruct(v).Some? ==>
      && |Present(v)| >= k && |c.reconstruct(v).value| == n
      && PartOf(v, c.reconstruct(v).value)
  }

  ghost predicate AllAttentive(b: Broadcast, net: Net) {
    forall p :: p in net ==> Attentive(b.At(p), net[p])
  }

  /** Every ECHO held under this root names the true number of leaves: a member can see that. */
  ghost predicate CountsTrue(n: nat, echoes: map<nat, ProofRequest>, root: Bytes) {
    forall q :: q in echoes && echoes[q].root == root ==> echoes[q].leaves == n
  }

  /** Every ECHO held under the root of this vector carries the entry of its index. */
  ghost predicate LeavesTrue(echoes: map<nat, ProofRequest>, root: Bytes, shards: seq<Bytes>) {
    forall q :: q in echoes && echoes[q].root == root ==>
      0 <= echoes[q].index < |shards| && |echoes[q].proof| > 0 && echoes[q].proof[0] == shards[echoes[q].index]
  }

  lemma CountsGiveLeaves(c: Codec, echoes: map<nat, ProofRequest>, shards: seq<Bytes>)
    requires Binds(c, |shards|) && forall q :: q in echoes ==> c.verify(echoes[q])
    requires CountsTrue(|shards|, echoes, c.rootOf(shards))
    ensures LeavesTrue(echoes, c.rootOf(shards), shards)
  {
    forall q | q in echoes && echoes[q].root == c.rootOf(shards)
      ensures 0 <= echoes[q].index < |shards| && |echoes[q].proof| > 0 && echoes[q].proof[0] == shards[echoes[q].index]
    {
      assert c.verify(echoes[q]);
    }
  }

  // ----- one attempt at decoding -----

  lemma {:induction false} PresentIsFilled(n: nat, echoes: map<nat, ProofRequest>, root: Bytes, pick: Picker)
    ensures Present(Assembled(n, echoes, root, pick)) == Filled(n, echoes, root)
  {
  }

  /** True leaves give a part of the true vector, whichever of them are picked. */
  lemma AssembledIsPart(n: nat, echoes: map<nat, ProofRequest>, root: Bytes, shards: seq<Bytes>, pick: Picker)
    requires LeavesTrue(echoes, root, shards) && |shards| == n && Picks(pick)
    ensures PartOf(Assembled(n, echoes, root, pick), shards)
  {
    var v := Assembled(n, echoes, root, pick);
    forall j: nat | j < n && v[j].Some? ensures v[j] == Some(shards[j]) {
      var leaf := pick(j, Leaves(echoes, root, j));
      assert leaf in Leaves(echoes, root, j);
      var q :| q in echoes && echoes[q].root == root && echoes[q].index == j
               && |echoes[q].proof| > 0 && echoes[q].proof[0] == leaf;
    }
  }

  /** An attempt under the root of an encoded vector succeeds exactly if enough positions are filled, and the leaves
      picked for them are the true ones. */
  lemma AttemptIff(i: Instance, echoes: map<nat, ProofRequest>, data: Bytes, pick: Picker)
    requires i.Sound() && i.codec.encode(data).Some?
    requires Restores(i.codec, i.cfg.n, i.DataShards()) && Completes(i.codec, i.cfg.n, i.DataShards())
    ensures var shards := i.codec.encode(data).value;
            var root := i.codec.rootOf(shards);
            Attempt(i, echoes, root, pick).Some? <==>
              && |Filled(i.cfg.n, echoes, root)| >= i.DataShards()
              && PartOf(Assembled(i.cfg.n, echoes, root, pick), shards)
  {
    hide Filled, Present;
    var shards := i.codec.encode(data).value;
    var root := i.codec.rootOf(shards);
    var v := Assembled(i.cfg.n, echoes, root, pick);
    PresentIsFilled(i.cfg.n, echoes, root, pick);
    if Attempt(i, echoes, root, pick).Some? {
      assert i.codec.reconstruct(v).value == shards;
    }
  }

  function Choose(wrong: Bytes, at: int, base: Picker): Picker {
    (j: int, s: set<Bytes>) => if j == at && wrong in s then wrong else base(j, s)
  }

  /** With an untrue leaf at a position, some order of the ECHOs makes the attempt fail. */
  lemma UntrueCanFail(i: Instance, echoes: map<nat, ProofRequest>, data: Bytes, base: Picker, q: nat)
    requires i.Sound() && i.codec.encode(data).Some? && Picks(base)
    requires Restores(i.codec, i.cfg.n, i.DataShards()) && Completes(i.codec, i.cfg.n, i.DataShards())
    requires q in echoes && echoes[q].root == i.codec.rootOf(i.codec.encode(data).value)
    requires 0 <= echoes[q].index < i.cfg.n && |echoes[q].proof| > 0
    requires echoes[q].proof[0] != i.codec.encode(data).value[echoes[q].index]
    ensures var pick := Choose(echoes[q].proof[0], echoes[q].index, base);
            Picks(pick) && Attempt(i, echoes, echoes[q].root, pick).None?
    ensures CanFail(i, echoes, echoes[q].root)
  {
    hide Restores, Completes, Attempt, Filled;
    var pick := Choose(echoes[q].proof[0], echoes[q].index, base);
    assert Picks(pick);
    assert echoes[q].proof[0] in Leaves(echoes, echoes[q].root, echoes[q].index);
    AttemptIff(i, echoes, data, pick);
    assert Attempt(i, echoes, echoes[q].root, pick).None?;
  }

  lemma TrueCannotFail(i: Instance, echoes: map<nat, ProofRequest>, data: Bytes)
    requires i.Sound() && i.codec.encode(data).Some?
    requires Restores(i.codec, i.cfg.n, i.DataShards()) && Completes(i.codec, i.cfg.n, i.DataShards())
    requires var shards := i.codec.encode(data).value;
             var root := i.codec.rootOf(shards);
             LeavesTrue(echoes, root, shards) && |Filled(i.cfg.n, echoes, root)| >= i.DataShards()
    ensures !CanFail(i, echoes, i.codec.rootOf(i.codec.encode(data).value))
  {
    hide Restores, Completes, Attempt, Filled, LeavesTrue, PartOf;
    var shards := i.codec.encode(data).value;
    var root := i.codec.rootOf(shards);
    forall pick | Picks(pick) ensures Attempt(i, echoes, root, pick).Some? {
      AssembledIsPart(i.cfg.n, echoes, root, shards, pick);
      AttemptIff(i, echoes, data, pick);
    }
  }

  /** Decoding under the root of an encoded vector, with enough positions filled, can fail exactly if an ECHO held
      under it is untrue. */
  lemma CanFailIff(i: Instance, echoes: map<nat, ProofRequest>, data: Bytes, base: Picker)
    requires i.Sound() && i.codec.encode(data).Some? && Picks(base)
    requires Restores(i.codec, i.cfg.n, i.DataShards()) && Completes(i.codec, i.cfg.n, i.DataShards())
    requires forall q :: q in echoes ==> i.codec.verify(echoes[q])
    requires var root := i.codec.rootOf(i.codec.encode(data).value);
             InRange(i.cfg.n, echoes, root) && |Filled(i.cfg.n, echoes, root)| >= i.DataShards()
    ensures var shards := i.codec.encode(data).value;
            CanFail(i, echoes, i.codec.rootOf(shards)) <==> !LeavesTrue(echoes, i.codec.rootOf(shards), shards)
  {
    hide Restores, Completes, Attempt, Filled, Assembled, PartOf;
    var shards := i.codec.encode(data).value;
    var root := i.codec.rootOf(shards);
    if LeavesTrue(echoes, root, shards) {
      TrueCannotFail(i, echoes, data);
    } else {
      var q :| q in echoes && echoes[q].root == root
               && !(0 <= echoes[q].index < |shards| && |echoes[q].proof| > 0
                    && echoes[q].proof[0] == shards[echoes[q].index]);
      assert i.codec.verify(echoes[q]);
      UntrueCanFail(i, echoes, data, base, q);
    }
  }

  // ----- totality: what one correct member is ready to decode, all become ready to decode -----

  /** All that correct members said to everyone has reached every correct member that has not stopped. */
  ghost predicate AllDelivered(net: Net) {
    forall p, q, m :: p in net && !net[p].halted && q in net && p != q && m in net[q].log && !m.Proof? ==>
      Received(q, m) in net[p].heard
  }

  ghost predicate Heard(b: Broadcast, net: Net) {
    Consistent(b, net) && AllAttentive(b, net) && AllDelivered(net)
  }

  /** Some correct member holds 2f + 1 READYs for this root. */
  ghost predicate Supported(b: Broadcast, net: Net, root: Bytes) {
    exists x :: x in net && |ReadiersOf(net[x].recvReadys, root)| > 2 * b.k.f
  }

  /** The correct members that have said READY, and those that have echoed this root. */
  function SaidReady(net: Net, root: Bytes): set<nat> {
    set q | q in net && Ready(root) in net[q].log
  }

  function SaidEcho(net: Net, root: Bytes): set<nat> {
    set q | q in net && q in net[q].recvEchos && net[q].recvEchos[q].root == root
            && Echo(net[q].recvEchos[q]) in net[q].log
  }

  /** Those behind the READYs that a member holds. */
  lemma ReadiersSaid(b: Broadcast, net: Net, x: nat, root: Bytes)
    requires Consistent(b, net) && x in net
    ensures ReadiersOf(net[x].recvReadys, root) - b.k.bad <= SaidReady(net, root)
  {
    var i, s := b.At(x), net[x];
    assert Sourced(i, s);
    forall q | q in ReadiersOf(s.recvReadys, root) - b.k.bad ensures q in SaidReady(net, root) {
      assert From(i, s, q, Ready(root));
      assert q != x ==> Said(b, net, q, Ready(root));
    }
  }

  lemma WithoutBad(b: Broadcast, net: Net, s: set<nat>, k: int)
    requires Consistent(b, net) && |s| >= k
    ensures |s - b.k.bad| >= k - b.k.f && b.k.f >= 1 && |b.k.all| >= 3 * b.k.f + 1
  {
    SubsetSize(s * b.k.bad, b.k.bad);
    assert s == (s - b.k.bad) + (s * b.k.bad);
  }

  lemma SupportedSaid(b: Broadcast, net: Net, root: Bytes)
    requires Consistent(b, net) && Supported(b, net, root)
    ensures |SaidReady(net, root)| >= b.k.f + 1 && EchoQuorumSeen(b, net, root)
  {
    hide Consistent, EchoQuorumSeen;
    var x :| x in net && |ReadiersOf(net[x].recvReadys, root)| > 2 * b.k.f;
    ReadiersSaid(b, net, x, root);
    WithoutBad(b, net, ReadiersOf(net[x].recvReadys, root), 2 * b.k.f + 1);
    SubsetSize(ReadiersOf(net[x].recvReadys, root) - b.k.bad, SaidReady(net, root));
    var y := HasCorrect(SaidReady(net, root), {});
    ReadyHasQuorum(b, net, y, root);
  }

  lemma ReadyHasQuorum(b: Broadcast, net: Net, y: nat, root: Bytes)
    requires Consistent(b, net) && y in net && Ready(root) in net[y].log
    ensures EchoQuorumSeen(b, net, root)
  {
    hide EchoQuorumSeen, Valid;
  }

  lemma OwnReadyHeld(b: Broadcast, net: Net, q: nat, root: Bytes)
    requires Consistent(b, net) && q in SaidReady(net, root)
    ensures q in ReadiersOf(net[q].recvReadys, root)
  {
    hide EchoQuorumSeen;
    assert OneReady(b.At(q), net[q]);
  }

  /** A READY of a correct member is held by every correct member that has not stopped, and by itself. */
  lemma ReadyHeld(b: Broadcast, net: Net, p: nat, q: nat, root: Bytes)
    requires Heard(b, net) && p in net && q in SaidReady(net, root) && (p == q || !net[p].halted)
    ensures q in ReadiersOf(net[p].recvReadys, root)
  {
    hide Consistent;
    if p == q {
      OwnReadyHeld(b, net, q, root);
    } else {
      assert Received(q, Ready(root)) in net[p].heard;
      ReadyTaken(b, net, p, q, root);
      ReadyAgreement(b, net, q, q, root, net[p].recvReadys[q]);
    }
  }

  lemma ReadyTaken(b: Broadcast, net: Net, p: nat, q: nat, root: Bytes)
    requires Consistent(b, net) && AllAttentive(b, net) && p in net && q in net && p != q
    requires Received(q, Ready(root)) in net[p].heard
    ensures q in net[p].recvReadys && Ready(net[p].recvReadys[q]) in net[q].log
  {
    hide EchoQuorumSeen;
    assert Heeded(b.At(p), net[p]) && Sourced(b.At(p), net[p]);
    assert Said(b, net, q, Ready(net[p].recvReadys[q]));
  }

  lemma ReadysHeld(b: Broadcast, net: Net, p: nat, root: Bytes)
    requires Heard(b, net) && p in net && !net[p].halted
    ensures SaidReady(net, root) <= ReadiersOf(net[p].recvReadys, root)
  {
    hide Heard;
    forall q | q in SaidReady(net, root) ensures q in ReadiersOf(net[p].recvReadys, root) {
      ReadyHeld(b, net, p, q, root);
    }
  }

  /** With f + 1 READYs for a supported root, a member has said READY for it. */
  lemma ReadyFollows(b: Broadcast, net: Net, p: nat, root: Bytes, other: Bytes)
    requires Consistent(b, net) && p in net && EchoQuorumSeen(b, net, root)
    requires |ReadiersOf(net[p].recvReadys, other)| > b.k.f
    ensures p in SaidReady(net, root)
  {
    hide EchoQuorumSeen;
    var i, s := b.At(p), net[p];
    assert Prompt(i, s) && OneReady(i, s) && Sourced(i, s);
    assert s.readySent;
    assert From(i, s, p, Ready(s.recvReadys[p]));
    OneRoot(b, net, root, s.recvReadys[p]);
  }

  /** A member that has stopped was ready to decode this root and no other. */
  lemma StoppedHasReadys(b: Broadcast, net: Net, p: nat, root: Bytes)
    requires Consistent(b, net) && AllAttentive(b, net) && p in net && net[p].halted && EchoQuorumSeen(b, net, root)
    ensures Eligible(b.k.f, net[p].recvEchos, net[p].recvReadys, root) && !InRange(|b.k.all|, net[p].recvEchos, root)
    ensures !net[p].outputDecoded
  {
    hide EchoQuorumSeen, InRange, Consistent, Eligible;
    assert Attentive(b.At(p), net[p]);
    var h :| Misplaced(b.At(p), net[p].recvEchos, net[p].recvReadys, h);
    EligibleRests(b, net, p, h);
    OneRoot(b, net, root, h);
  }

  lemma EligibleRests(b: Broadcast, net: Net, p: nat, root: Bytes)
    requires Consistent(b, net) && p in net && Eligible(b.k.f, net[p].recvEchos, net[p].recvReadys, root)
    ensures EchoQuorumSeen(b, net, root)
  {
    hide EchoQuorumSeen;
    var x := HasCorrect(ReadiersOf(net[p].recvReadys, root), b.k.bad);
    ReadySaid(b, net, p, x, root);
  }

  /** Every correct member has said READY for a supported root. */
  lemma AllSaidReady(b: Broadcast, net: Net, p: nat, root: Bytes)
    requires Heard(b, net) && p in net && Supported(b, net, root)
    ensures p in SaidReady(net, root)
  {
    hide Consistent, AllAttentive, AllDelivered, EchoQuorumSeen, Supported, Eligible, InRange, SaidReady;
    SupportedSaid(b, net, root);
    if net[p].halted {
      StoppedHasReadys(b, net, p, root);
      EligibleCounts(b, net, p, root);
      ReadyFollows(b, net, p, root, root);
    } else {
      ReadysHeld(b, net, p, root);
      SubsetSize(SaidReady(net, root), ReadiersOf(net[p].recvReadys, root));
      ReadyFollows(b, net, p, root, root);
    }
  }

  lemma EligibleCounts(b: Broadcast, net: Net, p: nat, root: Bytes)
    requires p in net && Eligible(b.k.f, net[p].recvEchos, net[p].recvReadys, root)
    ensures |ReadiersOf(net[p].recvReadys, root)| > b.k.f
  {
  }

  /** n - 2f correct members echoed a root with an ECHO quorum. */
  lemma QuorumSaid(b: Broadcast, net: Net, root: Bytes)
    requires Consistent(b, net) && AllAttentive(b, net) && EchoQuorumSeen(b, net, root)
    ensures |SaidEcho(net, root)| >= |b.k.all| - 2 * b.k.f >= b.k.f + 1
  {
    var y :| y in net && |EchoersOf(net[y].recvEchos, root)| >= |b.k.all| - b.k.f;
    hide Consistent;
    Echoers(b, net, y, root);
    var s := EchoersOf(net[y].recvEchos, root);
    WithoutBad(b, net, s, |b.k.all| - b.k.f);
    forall x | x in s - b.k.bad ensures x in SaidEcho(net, root) {
      OwnEchoIs(b, net, x, net[y].recvEchos[x]);
    }
    SubsetSize(s - b.k.bad, SaidEcho(net, root));
  }

  lemma OwnEchoIs(b: Broadcast, net: Net, x: nat, req: ProofRequest)
    requires Consistent(b, net) && x in net && Echo(req) in net[x].log
    ensures x in net[x].recvEchos && net[x].recvEchos[x] == req
  {
    assert OneEcho(b.At(x), net[x]);
  }

  /** An ECHO of a correct member is held as it was said, by every correct member that has not stopped. */
  lemma EchoHeld(b: Broadcast, net: Net, p: nat, q: nat, root: Bytes)
    requires Heard(b, net) && p in net && q in SaidEcho(net, root) && (p == q || !net[p].halted)
    ensures q in net[p].recvEchos && net[p].recvEchos[q] == net[q].recvEchos[q]
    ensures q in EchoersOf(net[p].recvEchos, root)
  {
    hide Consistent;
    if p != q {
      EchoTaken(b, net, p, q, net[q].recvEchos[q]);
      SameEcho(b, net, q, net[p].recvEchos[q], net[q].recvEchos[q]);
    }
  }

  lemma EchoTaken(b: Broadcast, net: Net, p: nat, q: nat, req: ProofRequest)
    requires Consistent(b, net) && AllAttentive(b, net) && p in net && q in net && p != q
    requires Received(q, Echo(req)) in net[p].heard && q in net[q].recvEchos && req == net[q].recvEchos[q]
    ensures q in net[p].recvEchos && Echo(net[p].recvEchos[q]) in net[q].log
  {
    assert Verified(b.At(q), net[q]) && Heeded(b.At(p), net[p]);
    assert Sourced(b.At(p), net[p]);
    assert Said(b, net, q, Echo(net[p].recvEchos[q]));
  }

  lemma EchoesHeld(b: Broadcast, net: Net, p: nat, root: Bytes)
    requires Heard(b, net) && p in net && !net[p].halted
    ensures SaidEcho(net, root) <= EchoersOf(net[p].recvEchos, root)
  {
    hide Heard;
    forall q | q in SaidEcho(net, root) ensures q in EchoersOf(net[p].recvEchos, root) {
      EchoHeld(b, net, p, q, root);
    }
  }

  lemma CorrectAreMany(b: Broadcast, net: Net)
    requires Consistent(b, net)
    ensures |net.Keys| >= |b.k.all| - b.k.f >= 2 * b.k.f + 1
  {
    assert b.k.all == net.Keys + b.k.bad;
  }

  /** Once what was said has arrived, every correct member is ready to decode a root that one of them can decode. */
  lemma AllEligible(b: Broadcast, net: Net, p: nat, root: Bytes)
    requires Heard(b, net) && p in net && Supported(b, net, root)
    ensures Eligible(b.k.f, net[p].recvEchos, net[p].recvReadys, root)
  {
    hide Consistent, AllAttentive, AllDelivered, EchoQuorumSeen, Supported, InRange;
    SupportedSaid(b, net, root);
    if net[p].halted {
      StoppedHasReadys(b, net, p, root);
    } else {
      forall q | q in net ensures q in SaidReady(net, root) {
        AllSaidReady(b, net, q, root);
      }
      CorrectAreMany(b, net);
      ReadysHeld(b, net, p, root);
      SubsetSize(net.Keys, ReadiersOf(net[p].recvReadys, root));
      QuorumSaid(b, net, root);
      EchoesHeld(b, net, p, root);
      SubsetSize(SaidEcho(net, root), EchoersOf(net[p].recvEchos, root));
    }
  }

  /** Then a member has stopped exactly if it had not decoded and an ECHO under the root is misplaced. */
  lemma SupportedStops(b: Broadcast, net: Net, p: nat, root: Bytes)
    requires Heard(b, net) && p in net && Supported(b, net, root)
    ensures net[p].halted <==> !net[p].outputDecoded && !InRange(|b.k.all|, net[p].recvEchos, root)
  {
    hide Consistent, AllDelivered, EchoQuorumSeen, Supported, InRange, Eligible;
    SupportedSaid(b, net, root);
    AllEligible(b, net, p, root);
    if net[p].halted {
      StoppedHasReadys(b, net, p, root);
    } else if !net[p].outputDecoded && !InRange(|b.k.all|, net[p].recvEchos, root) {
      MisplacedStops(b.At(p), net[p], root);
    }
  }

  lemma MisplacedStops(i: Instance, s: Node, root: Bytes)
    requires Attentive(i, s) && Misplaced(i, s.recvEchos, s.recvReadys, root) && !s.outputDecoded
    ensures s.halted
  {
  }

  /** A member that is ready to decode a root, and neither has stopped nor decoded, holds ECHOs with which the attempt
      can fail. */
  lemma EligibleTried(b: Broadcast, net: Net, p: nat, root: Bytes)
    requires Consistent(b, net) && p in net && !net[p].halted && net[p].decoded.None?
    requires Eligible(b.k.f, net[p].recvEchos, net[p].recvReadys, root)
    ensures CanFail(b.At(p), net[p].recvEchos, root)
  {
    var i, s := b.At(p), net[p];
    assert AllTried(i, s) && DecodedWell(i, s);
    assert Tried(i, s.recvEchos, s.recvReadys, root);
  }

  /** What one correct member decoded, every other one is ready to decode; and what has become of it there is exact. */
  lemma DecodedSpreads(b: Broadcast, net: Net, x: nat, p: nat)
    requires Heard(b, net) && x in net && p in net && net[x].decoded.Some?
    ensures var s, root := net[p], net[x].decoded.value.root;
            && Eligible(b.k.f, s.recvEchos, s.recvReadys, root)
            && (s.halted <==> s.decoded.None? && !InRange(|b.k.all|, s.recvEchos, root))
            && (s.decoded.None? && !s.halted ==> CanFail(b.At(p), s.recvEchos, root))
            && (s.decoded.Some? ==> s.decoded == net[x].decoded)
  {
    hide Consistent, AllAttentive, AllDelivered, InRange, Eligible, CanFail;
    var root := net[x].decoded.value.root;
    DecodedRests(b, net, x);
    DecodedSupports(b, net, x);
    AllEligible(b, net, p, root);
    SupportedStops(b, net, p, root);
    DecodedFlag(b, net, p);
    if net[p].decoded.Some? {
      Agreement(b, net, x, p);
      DecodedHasQuorum(b, net, x);
      DecodedHasQuorum(b, net, p);
      OneRoot(b, net, root, net[p].decoded.value.root);
    } else if !net[p].halted {
      EligibleTried(b, net, p, root);
    }
  }

  lemma DecodedFlag(b: Broadcast, net: Net, p: nat)
    requires Consistent(b, net) && p in net
    ensures net[p].outputDecoded <==> net[p].decoded.Some?
  {
    assert DecodedWell(b.At(p), net[p]);
  }

  lemma DecodedSupports(b: Broadcast, net: Net, x: nat)
    requires Consistent(b, net) && x in net && net[x].decoded.Some?
    ensures Supported(b, net, net[x].decoded.value.root)
  {
    assert DecodedWell(b.At(x), net[x]);
  }

  ghost predicate Codes(b: Broadcast) {
    && Binds(b.codec, |b.k.all|)
    && Restores(b.codec, |b.k.all|, |b.k.all| - 2 * b.k.f) && Completes(b.codec, |b.k.all|, |b.k.all| - 2 * b.k.f)
  }

  /** Under the root of an encoded vector, with none of the ECHOs it holds misnaming the number of leaves, a member
      has decoded exactly if they fill n - 2f positions. */
  lemma DecodedExactly(b: Broadcast, net: Net, p: nat, data: Bytes)
    requires Heard(b, net) && p in net && Codes(b) && b.codec.encode(data).Some?
    requires Supported(b, net, b.codec.rootOf(b.codec.encode(data).value))
    requires CountsTrue(|b.k.all|, net[p].recvEchos, b.codec.rootOf(b.codec.encode(data).value))
    ensures var s, shards := net[p], b.codec.encode(data).value;
            var root := b.codec.rootOf(shards);
            && !s.halted
            && (s.decoded.Some? <==> |Filled(|b.k.all|, s.recvEchos, root)| >= |b.k.all| - 2 * b.k.f)
            && (s.decoded.Some? ==> s.decoded == Some(Decoded(root, shards)))
  {
    hide Consistent, AllAttentive, AllDelivered, Eligible, Filled, Supported;
    var i, s, shards := b.At(p), net[p], b.codec.encode(data).value;
    var root := b.codec.rootOf(shards);
    HeldIsTrue(b, net, p, data);
    SupportedStops(b, net, p, root);
    AllEligible(b, net, p, root);
    if s.decoded.Some? {
      DecodedIsThis(b, net, p, root);
      DecodedFills(b, net, p);
    } else if |Filled(|b.k.all|, s.recvEchos, root)| >= |b.k.all| - 2 * b.k.f {
      EligibleTried(b, net, p, root);
      TrueCannotFail(i, s.recvEchos, data);
    }
  }

  lemma HeldIsTrue(b: Broadcast, net: Net, p: nat, data: Bytes)
    requires Consistent(b, net) && AllAttentive(b, net) && p in net && Codes(b) && b.codec.encode(data).Some?
    requires CountsTrue(|b.k.all|, net[p].recvEchos, b.codec.rootOf(b.codec.encode(data).value))
    ensures |b.codec.encode(data).value| == |b.k.all| && b.At(p).Sound()
    ensures var shards := b.codec.encode(data).value;
            var root := b.codec.rootOf(shards);
            LeavesTrue(net[p].recvEchos, root, shards) && InRange(|b.k.all|, net[p].recvEchos, root)
  {
    hide Valid, EchoQuorumSeen, Restores, Completes;
    assert Verified(b.At(p), net[p]);
    CountsGiveLeaves(b.codec, net[p].recvEchos, b.codec.encode(data).value);
  }

  lemma DecodedIsThis(b: Broadcast, net: Net, p: nat, root: Bytes)
    requires Consistent(b, net) && p in net && net[p].decoded.Some? && Supported(b, net, root)
    ensures net[p].decoded.value.root == root && b.codec.Lawful(|b.k.all|)
    ensures |net[p].decoded.value.shards| == |b.k.all| && b.codec.rootOf(net[p].decoded.value.shards) == root
  {
    hide Consistent, Supported, EchoQuorumSeen;
    SupportedSaid(b, net, root);
    DecodedHasQuorum(b, net, p);
    OneRoot(b, net, root, net[p].decoded.value.root);
  }

  lemma DecodedFills(b: Broadcast, net: Net, p: nat)
    requires AllAttentive(b, net) && p in net && net[p].decoded.Some? && Codes(b)
    ensures |Filled(|b.k.all|, net[p].recvEchos, net[p].decoded.value.root)| >= |b.k.all| - 2 * b.k.f
  {
    hide Filled, Present;
    var i, s := b.At(p), net[p];
    assert FromLeaves(i, s);
    var v :| Restored(i, s.recvEchos, s.decoded.value, v);
    SubsetSize(Present(v), Filled(|b.k.all|, s.recvEchos, s.decoded.value.root));
  }

  /** Where the ECHOs do fill n - 2f positions of an encoded vector, only an untrue one can have kept a member from
      decoding it. */
  lemma UndecodedHoldsUntrue(b: Broadcast, net: Net, p: nat, data: Bytes)
    requires Heard(b, net) && p in net && Codes(b) && b.codec.encode(data).Some? && net[p].decoded.None?
    requires Supported(b, net, b.codec.rootOf(b.codec.encode(data).value))
    requires |Filled(|b.k.all|, net[p].recvEchos, b.codec.rootOf(b.codec.encode(data).value))| >= |b.k.all| - 2 * b.k.f
    ensures var shards := b.codec.encode(data).value;
            !LeavesTrue(net[p].recvEchos, b.codec.rootOf(shards), shards)
  {
    hide Consistent, AllAttentive, AllDelivered, Eligible, Filled, Supported;
    var i, s, shards := b.At(p), net[p], b.codec.encode(data).value;
    var root := b.codec.rootOf(shards);
    SoundAt(b, net, p);
    SupportedStops(b, net, p, root);
    AllEligible(b, net, p, root);
    DecodedFlag(b, net, p);
    if LeavesTrue(s.recvEchos, root, shards) {
      assert InRange(|b.k.all|, s.recvEchos, root);
      EligibleTried(b, net, p, root);
      TrueCannotFail(i, s.recvEchos, data);
    }
  }

  lemma SoundAt(b: Broadcast, net: Net, p: nat)
    requires Consistent(b, net)
    ensures b.At(p).Sound()
  {
    hide Valid, EchoQuorumSeen;
  }

  // ----- a correct proposer -----

  /** The root of what a correct proposer proposed. */
  function RootOf(b: Broadcast, net: Net): Bytes
    requires b.proposer in net && net[b.proposer].proposed.Some?
  {
    b.codec.rootOf(net[b.proposer].proposed.value)
  }

  /** Only the root a correct proposer proposed has an ECHO quorum. */
  lemma QuorumIsProposed(b: Broadcast, net: Net, root: Bytes)
    requires Consistent(b, net) && b.proposer in net && EchoQuorumSeen(b, net, root)
    ensures net[b.proposer].proposed.Some? && |net[b.proposer].proposed.value| == |b.k.all|
    ensures root == RootOf(b, net)
  {
    hide Consistent;
    var q :| q in net && |EchoersOf(net[q].recvEchos, root)| >= |b.k.all| - b.k.f;
    Echoers(b, net, q, root);
    var x := HasCorrect(EchoersOf(net[q].recvEchos, root) - {b.proposer}, b.k.bad);
    EchoWasProposed(b, net, x, net[q].recvEchos[x]);
  }

  /** One of the proofs that the proposer made. */
  ghost predicate Made(b: Broadcast, shards: seq<Bytes>, req: ProofRequest) {
    exists k: nat :: k < |shards| && req == ProofOf(b.At(b.proposer), shards, k)
  }

  /** What correct members echo of a correct proposer are proofs that it made. */
  lemma CorrectEcho(b: Broadcast, net: Net, x: nat, req: ProofRequest)
    requires Consistent(b, net) && AllAttentive(b, net) && b.proposer in net && x in net && Echo(req) in net[x].log
    requires net[b.proposer].proposed.Some?
    ensures Made(b, net[b.proposer].proposed.value, req)
  {
    hide EchoQuorumSeen, Made;
    OwnEchoIs(b, net, x, req);
    ProposedSize(b, net);
    OffersMade(b, net);
    if x != b.proposer {
      assert OneEcho(b.At(x), net[x]);
      assert Said(b, net, b.proposer, Proof(req));
    }
  }

  lemma OffersMade(b: Broadcast, net: Net)
    requires AllAttentive(b, net) && b.proposer in net && net[b.proposer].proposed.Some?
    requires |net[b.proposer].proposed.value| > 0
    ensures var s := net[b.proposer];
            && (forall r :: Proof(r) in s.log ==> Made(b, s.proposed.value, r))
            && b.proposer in s.recvEchos && Made(b, s.proposed.value, s.recvEchos[b.proposer])
  {
    assert Offers(b.At(b.proposer), net[b.proposer]);
  }

  lemma ProposedSize(b: Broadcast, net: Net)
    requires Consistent(b, net) && b.proposer in net && net[b.proposer].proposed.Some?
    ensures |net[b.proposer].proposed.value| == |b.k.all| > 0
  {
    hide EchoQuorumSeen;
    assert OneEcho(b.At(b.proposer), net[b.proposer]);
  }

  /** An ECHO under a correct proposer's root that misnames the number of leaves came from a faulty member. */
  lemma MiscountIsFaulty(b: Broadcast, net: Net, p: nat, q: nat)
    requires Consistent(b, net) && AllAttentive(b, net) && b.proposer in net && net[b.proposer].proposed.Some?
    requires p in net && q in net[p].recvEchos && net[p].recvEchos[q].leaves != |b.k.all|
    ensures q in b.k.bad
  {
    hide Consistent, AllAttentive;
    var req := net[p].recvEchos[q];
    Echoers(b, net, p, req.root);
    assert q in EchoersOf(net[p].recvEchos, req.root);
    if q in net {
      CorrectEcho(b, net, q, req);
      ProposedSize(b, net);
    }
  }

  /** A correct proposer's broadcast stops a member exactly if it had not decoded when the proposed root became ready to
      be decoded, with an ECHO under it that has an index outside the vector. */
  lemma CorrectProposerStops(b: Broadcast, net: Net, p: nat)
    requires Consistent(b, net) && AllAttentive(b, net) && b.proposer in net && p in net
    ensures net[p].halted <==>
      && net[b.proposer].proposed.Some? && !net[p].outputDecoded
      && Eligible(b.k.f, net[p].recvEchos, net[p].recvReadys, RootOf(b, net))
      && !InRange(|b.k.all|, net[p].recvEchos, RootOf(b, net))
  {
    hide Consistent, Eligible, InRange, EchoQuorumSeen;
    var i, s := b.At(p), net[p];
    assert Attentive(i, s);
    if s.halted {
      var root :| Misplaced(i, s.recvEchos, s.recvReadys, root);
      EligibleRests(b, net, p, root);
      QuorumIsProposed(b, net, root);
    } else if net[b.proposer].proposed.Some? && !s.outputDecoded
              && Eligible(b.k.f, s.recvEchos, s.recvReadys, RootOf(b, net))
              && !InRange(|b.k.all|, s.recvEchos, RootOf(b, net)) {
      MisplacedStops(i, s, RootOf(b, net));
    }
  }

  /** So it stops no member whose ECHOs under the proposed root all name the true number of leaves. */
  lemma TrueCountsStopNobody(b: Broadcast, net: Net, p: nat)
    requires Consistent(b, net) && AllAttentive(b, net) && b.proposer in net && p in net && Binds(b.codec, |b.k.all|)
    requires net[b.proposer].proposed.Some? ==> CountsTrue(|b.k.all|, net[p].recvEchos, RootOf(b, net))
    ensures !net[p].halted
  {
    hide Consistent, Eligible, EchoQuorumSeen, Binds;
    CorrectProposerStops(b, net, p);
    if net[p].halted {
      ProposedSize(b, net);
      assert Verified(b.At(p), net[p]);
      CountsGiveLeaves(b.codec, net[p].recvEchos, net[b.proposer].proposed.value);
    }
  }

  // ----- delivery of a correct proposer's broadcast -----

  /** Every correct member has its own place, and gets no proof of the proposer but the one of that place; those that
      have not stopped have got it. */
  ghost predicate Addressed(b: Broadcast, net: Net, place: map<nat, nat>)
    requires b.proposer in net && net[b.proposer].proposed.Some?
  {
    && net.Keys <= place.Keys && place[b.proposer] == 0
    && (forall p :: p in net ==> place[p] < |b.k.all|)
    && (forall p, q :: p in net && q in net && place[p] == place[q] ==> p == q)
    && forall p :: p in net && p != b.proposer ==> OwnProof(b, net, p, place[p])
  }

  ghost predicate OwnProof(b: Broadcast, net: Net, p: nat, k: nat)
    requires b.proposer in net && net[b.proposer].proposed.Some? && p in net
  {
    var req := ProofOf(b.At(b.proposer), net[b.proposer].proposed.value, k);
    && (forall r :: Received(b.proposer, Proof(r)) in net[p].heard ==> r == req)
    && (!net[p].halted ==> Received(b.proposer, Proof(req)) in net[p].heard)
  }

  ghost predicate Arrived(b: Broadcast, net: Net, place: map<nat, nat>) {
    && Heard(b, net) && b.proposer in net && net[b.proposer].proposed.Some? && Addressed(b, net, place)
    && Proves(b.codec, |b.k.all|) && Codes(b)
  }

  lemma ProofIsValid(b: Broadcast, net: Net, j: nat)
    requires AllAttentive(b, net) && b.proposer in net && net[b.proposer].proposed.Some?
    requires Proves(b.codec, |b.k.all|) && j < |b.k.all|
    ensures b.codec.verify(ProofOf(b.At(b.proposer), net[b.proposer].proposed.value, j))
  {
    var s := net[b.proposer];
    assert FromData(b.At(b.proposer), s);
  }

  /** An ECHO of a correct member is the proof of its place. */
  lemma EchoOfPlace(b: Broadcast, net: Net, place: map<nat, nat>, q: nat)
    requires Arrived(b, net, place) && q in net && q in net[q].recvEchos && Echo(net[q].recvEchos[q]) in net[q].log
    ensures net[q].recvEchos[q] == ProofOf(b.At(b.proposer), net[b.proposer].proposed.value, place[q])
  {
    hide AllDelivered, EchoQuorumSeen, Proves, Codes;
    assert OneEcho(b.At(q), net[q]);
    if q == b.proposer {
      assert Offers(b.At(q), net[q]);
    } else {
      assert OwnProof(b, net, q, place[q]);
    }
  }

  lemma AliveHasEchoed(b: Broadcast, net: Net, place: map<nat, nat>, q: nat)
    requires Arrived(b, net, place) && q in net && !net[q].halted
    ensures q in SaidEcho(net, RootOf(b, net))
  {
    hide AllDelivered, EchoQuorumSeen, Codes;
    var i, s := b.At(q), net[q];
    assert OneEcho(i, s) && Sourced(i, s) && Heeded(i, s);
    if q == b.proposer {
      assert Offers(i, s);
    } else {
      assert OwnProof(b, net, q, place[q]);
      ProofIsValid(b, net, place[q]);
    }
    assert From(i, s, q, Echo(s.recvEchos[q]));
    EchoOfPlace(b, net, place, q);
  }

  lemma QuorumAnswered(b: Broadcast, net: Net, p: nat, root: Bytes)
    requires Consistent(b, net) && p in net && |EchoersOf(net[p].recvEchos, root)| >= |b.k.all| - b.k.f
    ensures p in SaidReady(net, root)
  {
    hide EchoQuorumSeen;
    var i, s := b.At(p), net[p];
    assert Prompt(i, s) && OneReady(i, s) && Sourced(i, s);
    assert From(i, s, p, Ready(s.recvReadys[p]));
    SeenAt(b, net, p, root);
    OneRoot(b, net, root, s.recvReadys[p]);
  }

  lemma SeenAt(b: Broadcast, net: Net, p: nat, root: Bytes)
    requires p in net && |EchoersOf(net[p].recvEchos, root)| >= |b.k.all| - b.k.f
    ensures EchoQuorumSeen(b, net, root)
  {
  }

  lemma AliveSupport(b: Broadcast, net: Net, place: map<nat, nat>)
    requires Arrived(b, net, place) && forall p :: p in net ==> !net[p].halted
    ensures Supported(b, net, RootOf(b, net))
  {
    hide Consistent, AllAttentive, AllDelivered, Addressed, Proves, Codes;
    var root, x := RootOf(b, net), b.proposer;
    CorrectAreMany(b, net);
    forall p | p in net ensures p in SaidReady(net, root) {
      forall q | q in net ensures q in SaidEcho(net, root) {
        AliveHasEchoed(b, net, place, q);
      }
      EchoesHeld(b, net, p, root);
      SubsetSize(net.Keys, EchoersOf(net[p].recvEchos, root));
      QuorumAnswered(b, net, p, root);
    }
    ReadysHeld(b, net, x, root);
    SubsetSize(net.Keys, ReadiersOf(net[x].recvReadys, root));
  }

  lemma ProposedIsSupported(b: Broadcast, net: Net, place: map<nat, nat>)
    requires Arrived(b, net, place)
    ensures Supported(b, net, RootOf(b, net))
  {
    hide Consistent, AllAttentive, AllDelivered, Addressed, Proves, Codes;
    if x :| x in net && net[x].halted {
      CorrectProposerStops(b, net, x);
    } else {
      AliveSupport(b, net, place);
    }
  }

  function Image(s: set<nat>, f: map<nat, nat>): set<nat>
    requires s <= f.Keys
  {
    set q | q in s :: f[q]
  }

  lemma {:induction false} ImageSize(s: set<nat>, f: map<nat, nat>)
    requires s <= f.Keys && forall p, q :: p in s && q in s && f[p] == f[q] ==> p == q
    ensures |Image(s, f)| == |s|
    decreases |s|
  {
    if |s| > 0 {
      var x := HasCorrect(s, {});
      ImageSize(s - {x}, f);
      assert Image(s, f) == Image(s - {x}, f) + {f[x]};
    } else {
      assert Image(s, f) == {};
    }
  }

  lemma PlaceFilled(b: Broadcast, net: Net, place: map<nat, nat>, p: nat, q: nat)
    requires Arrived(b, net, place) && p in net && !net[p].halted && q in SaidEcho(net, RootOf(b, net))
    ensures place[q] in Filled(|b.k.all|, net[p].recvEchos, RootOf(b, net))
  {
    hide AllDelivered, Proves, Codes, EchoQuorumSeen;
    EchoHeld(b, net, p, q, RootOf(b, net));
    EchoOfPlace(b, net, place, q);
    var echoes, root := net[p].recvEchos, RootOf(b, net);
    assert Verified(b.At(p), net[p]);
    assert b.codec.verify(echoes[q]);
    assert echoes[q].proof[0] in Leaves(echoes, root, place[q]);
  }

  /** The places of the n - 2f correct members that echoed are filled. */
  lemma EnoughFilled(b: Broadcast, net: Net, place: map<nat, nat>, p: nat)
    requires Arrived(b, net, place) && p in net && !net[p].halted
    ensures |Filled(|b.k.all|, net[p].recvEchos, RootOf(b, net))| >= |b.k.all| - 2 * b.k.f
  {
    hide Consistent, AllAttentive, AllDelivered, Proves, Codes, Filled, Supported, EchoQuorumSeen;
    var root := RootOf(b, net);
    ProposedIsSupported(b, net, place);
    SupportedSaid(b, net, root);
    QuorumSaid(b, net, root);
    var said := SaidEcho(net, root);
    forall q | q in said ensures place[q] in Filled(|b.k.all|, net[p].recvEchos, root) {
      PlaceFilled(b, net, place, p, q);
    }
    ImageSize(said, place);
    SubsetSize(Image(said, place), Filled(|b.k.all|, net[p].recvEchos, root));
  }

  /** An ECHO of a faulty member that misnames the number of leaves, held under the proposed root. */
  ghost predicate Mislabelled(b: Broadcast, net: Net, p: nat, q: nat)
    requires b.proposer in net && net[b.proposer].proposed.Some? && p in net
  {
    && q in net[p].recvEchos && net[p].recvEchos[q].root == RootOf(b, net)
    && net[p].recvEchos[q].leaves != |b.k.all| && q in b.k.bad
  }

  lemma UntrueIsMislabelled(b: Broadcast, net: Net, p: nat) returns (q: nat)
    requires Consistent(b, net) && AllAttentive(b, net) && b.proposer in net && net[b.proposer].proposed.Some?
    requires p in net && Binds(b.codec, |b.k.all|)
    requires !LeavesTrue(net[p].recvEchos, RootOf(b, net), net[b.proposer].proposed.value)
    ensures Mislabelled(b, net, p, q)
  {
    hide Consistent;
    var s, shards := net[p], net[b.proposer].proposed.value;
    ProposedSize(b, net);
    q :| q in s.recvEchos && s.recvEchos[q].root == RootOf(b, net)
         && !(0 <= s.recvEchos[q].index < |shards| && |s.recvEchos[q].proof| > 0
              && s.recvEchos[q].proof[0] == shards[s.recvEchos[q].index]);
    assert Verified(b.At(p), s);
    assert b.codec.verify(s.recvEchos[q]);
    MiscountIsFaulty(b, net, p, q);
  }

  /** Delivery: if the proposer is correct, has proposed, and all that correct members said has arrived, a correct
      member has decoded the proposed shards, unless a faulty member's ECHO that misnames the number of leaves is among
      those it holds. */
  lemma Delivery(b: Broadcast, net: Net, place: map<nat, nat>, p: nat)
    requires Arrived(b, net, place) && p in net
    ensures || net[p].decoded == Some(Decoded(RootOf(b, net), net[b.proposer].proposed.value))
            || exists q :: Mislabelled(b, net, p, q)
  {
    hide Consistent, AllAttentive, AllDelivered, Proves, Addressed, Supported, Filled, LeavesTrue, Mislabelled;
    var root, shards := RootOf(b, net), net[b.proposer].proposed.value;
    ProposedIsSupported(b, net, place);
    ProposedSize(b, net);
    if net[p].decoded.Some? {
      Validity(b, net, p);
      DecodedIsThis(b, net, p, root);
    } else {
      UndecodedIsUntrue(b, net, place, p);
      var q := UntrueIsMislabelled(b, net, p);
    }
  }

  lemma UndecodedIsUntrue(b: Broadcast, net: Net, place: map<nat, nat>, p: nat)
    requires Arrived(b, net, place) && p in net && net[p].decoded.None?
    ensures !LeavesTrue(net[p].recvEchos, RootOf(b, net), net[b.proposer].proposed.value)
  {
    hide Consistent, AllDelivered, Proves, Addressed, Supported, Filled;
    ProposedIsSupported(b, net, place);
    ProposedSize(b, net);
    if net[p].halted {
      SupportedStops(b, net, p, RootOf(b, net));
    } else {
      assert FromData(b.At(b.proposer), net[b.proposer]);
      var data :| b.codec.encode(data) == net[b.proposer].proposed;
      EnoughFilled(b, net, place, p);
      UndecodedHoldsUntrue(b, net, p, data);
    }
  }
}
