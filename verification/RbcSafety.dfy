/** Agreement and validity of one reliable broadcast among correct and faulty members. */
module RbcSafety {
  import opened Options
  import opened Membership
  import opened Bytes
  import opened RbcSpec
  import opened RbcInvariant

  /** The states of the correct members. What they have sent is in their logs. */
  type Net = map<nat, Node>

  /** The broadcast of one proposer, as an observer sees it. */
  datatype Broadcast = Broadcast(k: Cluster, proposer: nat, codec: Codec) {
    ghost predicate Sound() {
      k.Sound() && proposer in k.all && codec.Lawful(|k.all|)
    }

    function At(p: nat): Instance {
      Instance(k.At(p), proposer, codec)
    }
  }

  /** A member can have said m: a faulty one says anything, a correct one what it sent. */
  ghost predicate Said(b: Broadcast, net: Net, q: nat, m: Message) {
    q in b.k.all && (q in net ==> m in net[q].log)
  }

  /** Some correct member held n - f ECHOs for this root. */
  ghost predicate EchoQuorumSeen(b: Broadcast, net: Net, root: Bytes) {
    exists p :: p in net && |EchoersOf(net[p].recvEchos, root)| >= |b.k.all| - b.k.f
  }

  ghost predicate Consistent(b: Broadcast, net: Net) {
    && b.Sound()
    && net.Keys == b.k.all - b.k.bad
    && (forall p :: p in net ==> Valid(b.At(p), net[p]))
    && (forall p :: p in net ==> forall d :: d in net[p].heard ==> Said(b, net, d.sid, d.msg))
    && (forall p :: p in net ==> forall h :: Ready(h) in net[p].log ==> EchoQuorumSeen(b, net, h))
  }

  /** Member p moved to state r having been handed only messages the others can have said. */
  ghost predicate Moved(b: Broadcast, net: Net, p: nat, r: Node) {
    && p in net
    && Valid(b.At(p), r)
    && Grows(net[p], r)
    && forall d :: d in r.heard - net[p].heard ==> Said(b, net, d.sid, d.msg) && d.sid != p
  }

  lemma QuorumStays(b: Broadcast, net: Net, p: nat, r: Node, h: Bytes)
    requires p in net && Grows(net[p], r) && EchoQuorumSeen(b, net, h)
    ensures EchoQuorumSeen(b, net[p := r], h)
  {
    var x :| x in net && |EchoersOf(net[x].recvEchos, h)| >= |b.k.all| - b.k.f;
    CountsGrow(net[p], r, h);
    assert |EchoersOf(net[p := r][x].recvEchos, h)| >= |b.k.all| - b.k.f;
  }

  /** A READY of p rests on an ECHO quorum of its own, or on one behind a correct READY before it. */
  lemma ReadyRests(b: Broadcast, net: Net, p: nat, r: Node, h: Bytes)
    requires Consistent(b, net) && Moved(b, net, p, r) && Ready(h) in r.log
    ensures EchoQuorumSeen(b, net[p := r], h)
  {
    assert OneReady(b.At(p), r);
    if r.trigger.value.trigger == EchoQuorum {
      assert |EchoersOf(net[p := r][p].recvEchos, h)| >= |b.k.all| - b.k.f;
    } else {
      var x := HasCorrect(ReadiersOf(r.recvReadys, h) - {p}, b.k.bad);
      assert From(b.At(p), r, x, Ready(h));
      assert Said(b, net, x, Ready(h));
      QuorumStays(b, net, p, r, h);
    }
  }

  /** Any move of one correct member keeps the net consistent. */
  lemma MoveKeeps(b: Broadcast, net: Net, p: nat, r: Node)
    requires Consistent(b, net) && Moved(b, net, p, r)
    ensures Consistent(b, net[p := r])
  {
    hide Valid, EchoQuorumSeen;
    var after := net[p := r];
    assert after.Keys == net.Keys;
    forall q, d | q in after && d in after[q].heard ensures Said(b, after, d.sid, d.msg) {
      assert Said(b, net, d.sid, d.msg);
    }
    forall q, h | q in after && Ready(h) in after[q].log ensures EchoQuorumSeen(b, after, h) {
      if q == p {
        ReadyRests(b, net, p, r, h);
      } else {
        QuorumStays(b, net, p, r, h);
      }
    }
  }

  /** Those whose ECHO p holds are members, and the correct ones among them sent it. */
  lemma Echoers(b: Broadcast, net: Net, p: nat, root: Bytes)
    requires Consistent(b, net) && p in net
    ensures b.k.Sound() && net.Keys == b.k.all - b.k.bad
    ensures EchoersOf(net[p].recvEchos, root) <= b.k.all
    ensures forall x :: x in EchoersOf(net[p].recvEchos, root) && x in net ==>
      Echo(net[p].recvEchos[x]) in net[x].log
  {
    forall x | x in EchoersOf(net[p].recvEchos, root)
      ensures x in b.k.all && (x in net ==> Echo(net[p].recvEchos[x]) in net[x].log)
    {
      var m := Echo(net[p].recvEchos[x]);
      assert From(b.At(p), net[p], x, m);
      assert x != p ==> Said(b, net, x, m);
    }
  }

  lemma SameEcho(b: Broadcast, net: Net, x: nat, r: ProofRequest, t: ProofRequest)
    requires Consistent(b, net) && x in net && Echo(r) in net[x].log && Echo(t) in net[x].log
    ensures r == t
  {
    assert OneEcho(b.At(x), net[x]);
  }

  /** There is one root at most with an ECHO quorum. */
  lemma OneRoot(b: Broadcast, net: Net, g: Bytes, h: Bytes)
    requires Consistent(b, net) && EchoQuorumSeen(b, net, g) && EchoQuorumSeen(b, net, h)
    ensures g == h
  {
    hide Consistent;
    var p :| p in net && |EchoersOf(net[p].recvEchos, g)| >= |b.k.all| - b.k.f;
    var q :| q in net && |EchoersOf(net[q].recvEchos, h)| >= |b.k.all| - b.k.f;
    Echoers(b, net, p, g);
    Echoers(b, net, q, h);
    var x := QuorumsMeet(b.k, EchoersOf(net[p].recvEchos, g), EchoersOf(net[q].recvEchos, h));
    SameEcho(b, net, x, net[p].recvEchos[x], net[q].recvEchos[x]);
  }

  /** All READYs of correct members carry the same root. */
  lemma ReadyAgreement(b: Broadcast, net: Net, p: nat, q: nat, g: Bytes, h: Bytes)
    requires Consistent(b, net) && p in net && q in net
    requires Ready(g) in net[p].log && Ready(h) in net[q].log
    ensures g == h
  {
    OneRoot(b, net, g, h);
  }

  /** What was decoded was backed by a correct READY, hence by an ECHO quorum. */
  lemma DecodedHasQuorum(b: Broadcast, net: Net, p: nat)
    requires Consistent(b, net) && p in net && net[p].decoded.Some?
    ensures var d := net[p].decoded.value;
            && EchoQuorumSeen(b, net, d.root)
            && |d.shards| == |b.k.all| && b.codec.rootOf(d.shards) == d.root && b.codec.Lawful(|b.k.all|)
  {
    hide Consistent;
    DecodedRests(b, net, p);
    var root := net[p].decoded.value.root;
    var x := HasCorrect(ReadiersOf(net[p].recvReadys, root), b.k.bad);
    ReadySaid(b, net, p, x, root);
  }

  lemma DecodedRests(b: Broadcast, net: Net, p: nat)
    requires Consistent(b, net) && p in net && net[p].decoded.Some?
    ensures var d := net[p].decoded.value;
            && |d.shards| == |b.k.all| && b.codec.rootOf(d.shards) == d.root && b.codec.Lawful(|b.k.all|)
            && |ReadiersOf(net[p].recvReadys, d.root)| > b.k.f >= |b.k.bad|
  {
    assert DecodedWell(b.At(p), net[p]);
  }

  lemma ReadySaid(b: Broadcast, net: Net, p: nat, x: nat, root: Bytes)
    requires Consistent(b, net) && p in net && x in ReadiersOf(net[p].recvReadys, root) && x !in b.k.bad
    ensures EchoQuorumSeen(b, net, root)
  {
    hide EchoQuorumSeen;
    assert From(b.At(p), net[p], x, Ready(root));
    assert x != p ==> Said(b, net, x, Ready(root));
  }

  /** Any two correct members decode the same shards. */
  lemma Agreement(b: Broadcast, net: Net, p: nat, q: nat)
    requires Consistent(b, net) && p in net && q in net
    requires net[p].decoded.Some? && net[q].decoded.Some?
    ensures net[p].decoded == net[q].decoded
  {
    hide Consistent;
    DecodedHasQuorum(b, net, p);
    DecodedHasQuorum(b, net, q);
    OneRoot(b, net, net[p].decoded.value.root, net[q].decoded.value.root);
  }

  /** What a correct member echoes, a correct proposer proposed. */
  lemma EchoWasProposed(b: Broadcast, net: Net, x: nat, r: ProofRequest)
    requires Consistent(b, net) && x in net && b.proposer in net && x != b.proposer && Echo(r) in net[x].log
    ensures var s := net[b.proposer].proposed;
            s.Some? && |s.value| == |b.k.all| && r.root == b.codec.rootOf(s.value)
  {
    assert OneEcho(b.At(x), net[x]);
    assert Said(b, net, b.proposer, Proof(r));
    assert OneEcho(b.At(b.proposer), net[b.proposer]);
  }

  /** If the proposer is correct, what is decoded is what it proposed. */
  lemma Validity(b: Broadcast, net: Net, p: nat)
    requires Consistent(b, net) && p in net && b.proposer in net && net[p].decoded.Some?
    ensures net[b.proposer].proposed == Some(net[p].decoded.value.shards)
  {
    hide Consistent;
    DecodedHasQuorum(b, net, p);
    var root := net[p].decoded.value.root;
    var q :| q in net && |EchoersOf(net[q].recvEchos, root)| >= |b.k.all| - b.k.f;
    Echoers(b, net, q, root);
    var x := HasCorrect(EchoersOf(net[q].recvEchos, root) - {b.proposer}, b.k.bad);
    EchoWasProposed(b, net, x, net[q].recvEchos[x]);
  }
}
