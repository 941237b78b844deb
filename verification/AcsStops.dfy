/** Runs of four members, one of them faulty, in which a correct member stops or never decodes. */
module AcsStops {
  import opened Options
  import opened Membership
  import opened Bytes
  import R = RbcSpec
  import RD = RbcDelivery
  import opened AcsSpec
  import opened AcsSafety
  import AcsDelivery

  /** Members 0 to 3, of which 3 is faulty. */
  const All: set<nat> := {0, 1, 2, 3}

  function WorldOf(codec: R.Codec): World {
    World(Cluster(1, All, {3}), codec)
  }

  /** The broadcast of proposer j at member id. */
  function For(codec: R.Codec, j: nat, id: nat): R.Instance {
    R.Instance(Config(4, 1, id), j, codec)
  }

  // ----- one broadcast at one member -----

  function Same(senders: set<nat>, root: Bytes): map<nat, Bytes> {
    map q | q in senders :: root
  }

  /** Holding these ECHOs, all under one root, READYs of some for that root, and nothing else. */
  ghost predicate Holds(x: R.Node, id: nat, echoes: map<nat, R.ProofRequest>, root: Bytes, readiers: set<nat>) {
    && x.recvEchos == echoes && x.recvReadys == Same(readiers, root)
    && x.echoSent == (id in echoes) && x.readySent == (id in readiers)
    && !x.outputDecoded && x.output.None? && x.decoded.None? && !x.halted
    && (forall q :: q in echoes ==> echoes[q].root == root)
    && (id in echoes ==> R.Echo(echoes[id]) in x.log) && (id in readiers ==> R.Ready(root) in x.log)
  }

  lemma Counts(x: R.Node, id: nat, echoes: map<nat, R.ProofRequest>, root: Bytes, readiers: set<nat>)
    requires Holds(x, id, echoes, root, readiers)
    ensures R.EchoersOf(x.recvEchos, root) == echoes.Keys && R.ReadiersOf(x.recvReadys, root) == readiers
  {
  }

  /** Too few READYs for decoding, or an attempt that fails. */
  ghost predicate Waits(i: R.Instance, echoes: map<nat, R.ProofRequest>, root: Bytes, readiers: set<nat>,
                        pick: R.Picker) {
    |readiers| <= 2 || (R.InRange(i.cfg.n, echoes, root) && R.Attempt(i, echoes, root, pick).None?)
  }

  lemma NothingDecoded(i: R.Instance, x: R.Node, echoes: map<nat, R.ProofRequest>, root: Bytes, readiers: set<nat>,
                       pick: R.Picker)
    requires i.cfg.f == 1 && Holds(x, i.cfg.id, echoes, root, readiers) && Waits(i, echoes, root, readiers, pick)
    ensures R.TryDecode(i, x, root, pick) == x
  {
    hide R.Attempt, R.InRange;
    Counts(x, i.cfg.id, echoes, root, readiers);
  }

  /** The own READY goes out with the third ECHO. */
  function ReadyAfter(id: nat, echoes: map<nat, R.ProofRequest>, readiers: set<nat>): set<nat> {
    if readiers == {} && |echoes| >= 3 then {id} else readiers
  }

  lemma EchoHeld(i: R.Instance, x: R.Node, sid: nat, req: R.ProofRequest, echoes: map<nat, R.ProofRequest>,
                 readiers: set<nat>, pick: R.Picker)
    requires i.cfg.n == 4 && i.cfg.f == 1 && Holds(x, i.cfg.id, echoes, req.root, readiers) && i.codec.verify(req)
    requires sid !in echoes && (readiers == {} || readiers == {i.cfg.id}) && (sid == i.cfg.id ==> echoes == map[])
    ensures var y := if sid == i.cfg.id then R.Say(x.(echoSent := true), R.Echo(req)) else x;
            var r := R.HandleEcho(i, y, sid, req, pick);
            && !r.err && r.node.proposed == x.proposed && x.log <= r.node.log
            && Holds(r.node, i.cfg.id, echoes[sid := req], req.root, ReadyAfter(i.cfg.id, echoes[sid := req], readiers))
  {
    var y := if sid == i.cfg.id then R.Say(x.(echoSent := true), R.Echo(req)) else x;
    var t, more := y.(recvEchos := y.recvEchos[sid := req]), echoes[sid := req];
    assert Holds(t, i.cfg.id, more, req.root, readiers);
    Counts(t, i.cfg.id, more, req.root, readiers);
    assert |more| == |more.Keys|;
    if readiers == {} && |more| >= 3 {
      ReadySaid(i, t, more, req.root, pick);
    } else {
      NothingDecoded(i, t, more, req.root, readiers, pick);
    }
  }

  lemma ReadySaid(i: R.Instance, t: R.Node, echoes: map<nat, R.ProofRequest>, root: Bytes, pick: R.Picker)
    requires i.cfg.n == 4 && i.cfg.f == 1 && Holds(t, i.cfg.id, echoes, root, {})
    ensures var r := R.EmitReady(i, t, root, R.EchoQuorum, pick);
            && !r.err && r.node.proposed == t.proposed && t.log <= r.node.log
            && Holds(r.node, i.cfg.id, echoes, root, {i.cfg.id})
  {
    var o := R.ReadyRecord(R.EchoQuorum, |R.EchoersOf(t.recvEchos, root)|, |R.ReadiersOf(t.recvReadys, root)|);
    var e := t.(recvReadys := t.recvReadys[i.cfg.id := root], readySent := true, trigger := Some(o));
    var s := R.Say(e, R.Ready(root));
    assert s.recvReadys == Same({i.cfg.id}, root);
    NothingDecoded(i, s, echoes, root, {i.cfg.id}, pick);
  }

  lemma ReadyHeld(i: R.Instance, x: R.Node, sid: nat, echoes: map<nat, R.ProofRequest>, root: Bytes,
                  readiers: set<nat>, pick: R.Picker)
    requires i.cfg.f == 1 && Holds(x, i.cfg.id, echoes, root, readiers)
    requires i.cfg.id in readiers && sid !in readiers && Waits(i, echoes, root, readiers + {sid}, pick)
    ensures var r := R.HandleReady(i, x, sid, root, pick);
            !r.err && Holds(r.node, i.cfg.id, echoes, root, readiers + {sid})
  {
    hide Waits;
    var t := x.(recvReadys := x.recvReadys[sid := root]);
    assert t.recvReadys == Same(readiers + {sid}, root);
    assert Holds(t, i.cfg.id, echoes, root, readiers + {sid});
    NothingDecoded(i, t, echoes, root, readiers + {sid}, pick);
  }

  /** The third READY makes the root ready to be decoded, and with an index outside the vector the instance stops. */
  lemma Stops(i: R.Instance, x: R.Node, sid: nat, echoes: map<nat, R.ProofRequest>, root: Bytes, readiers: set<nat>,
              q: nat, pick: R.Picker)
    requires i.cfg.n == 4 && i.cfg.f == 1 && Holds(x, i.cfg.id, echoes, root, readiers) && |echoes| >= 2
    requires i.cfg.id in readiers && sid !in readiers && |readiers| == 2
    requires q in echoes && !(0 <= echoes[q].index < 4)
    ensures R.HandleReady(i, x, sid, root, pick).node.halted
  {
    var t := x.(recvReadys := x.recvReadys[sid := root]);
    assert t.recvReadys == Same(readiers + {sid}, root);
    assert Holds(t, i.cfg.id, echoes, root, readiers + {sid});
    Counts(t, i.cfg.id, echoes, root, readiers + {sid});
    assert |echoes| == |echoes.Keys|;
  }

  // ----- events -----

  /** A member that has done nothing but take part in the broadcast of member j. */
  function Member(j: nat, x: R.Node): Node {
    Fresh(All).(rbcs := Fresh(All).rbcs[j := x])
  }

  datatype Three = Three(x: R.Node, y: R.Node, z: R.Node) {
    function At(p: nat): R.Node {
      if p == 0 then x else if p == 1 then y else z
    }

    function With(p: nat, r: R.Node): Three {
      if p == 0 then this.(x := r) else if p == 1 then this.(y := r) else this.(z := r)
    }
  }

  function NetOf(j: nat, s: Three): Net {
    map[0 := Member(j, s.x), 1 := Member(j, s.y), 2 := Member(j, s.z)]
  }

  function Hand(j: nat, at: nat, from: nat, m: R.Message, pick: R.Picker): Event {
    Deliver(at, from, Message(j, Broadcast(m)), pick)
  }

  /** The broadcast's step of member `at`, which puts nothing out. */
  ghost predicate Quiet(codec: R.Codec, j: nat, x: R.Node, at: nat, from: nat, m: R.Message, pick: R.Picker) {
    var r := R.HandleMessage(For(codec, j, at), x, from, m, pick);
    !r.err && !r.node.halted && r.node.output.None?
  }

  ghost function Handed(codec: R.Codec, j: nat, x: R.Node, at: nat, from: nat, m: R.Message, pick: R.Picker): R.Node {
    R.HandleMessage(For(codec, j, at), x, from, m, pick).node.(messages := [], output := None)
  }

  ghost predicate CanSay(s: Three, at: nat, from: nat, m: R.Message) {
    at <= 2 && (from == 3 || (from <= 2 && from != at && m in s.At(from).log))
  }

  lemma CanHand(codec: R.Codec, j: nat, s: Three, at: nat, from: nat, m: R.Message, pick: R.Picker)
    requires codec.Lawful(4) && R.Picks(pick) && j <= 3 && CanSay(s, at, from, m) && !s.At(at).halted
    ensures WorldOf(codec).Sound() && Enabled(WorldOf(codec), NetOf(j, s), Hand(j, at, from, m, pick))
  {
    hide R.Codec.Lawful;
  }

  lemma MemberMoves(codec: R.Codec, j: nat, x: R.Node, at: nat, from: nat, m: R.Message, pick: R.Picker)
    requires j <= 3 && Quiet(codec, j, x, at, from, m, pick) && WorldOf(codec).At(at).cfg.Sound()
    ensures HandleMessage(WorldOf(codec).At(at), Member(j, x), from, Message(j, Broadcast(m)), pick).node ==
              Member(j, Handed(codec, j, x, at, from, m, pick))
  {
    hide R.HandleMessage;
    var c, r := WorldOf(codec).At(at), Handed(codec, j, x, at, from, m, pick);
    assert c.For(j) == For(codec, j, at);
    assert HandleMessage(c, Member(j, x), from, Message(j, Broadcast(m)), pick).node.rbcs == Member(j, r).rbcs;
  }

  lemma HandMoves(codec: R.Codec, j: nat, s: Three, at: nat, from: nat, m: R.Message, pick: R.Picker)
    requires WorldOf(codec).Sound() && Enabled(WorldOf(codec), NetOf(j, s), Hand(j, at, from, m, pick)) && at <= 2
    requires j <= 3 && Quiet(codec, j, s.At(at), at, from, m, pick)
    ensures NetOf(j, s)[at := After(WorldOf(codec), NetOf(j, s), Hand(j, at, from, m, pick))] ==
              NetOf(j, s.With(at, Handed(codec, j, s.At(at), at, from, m, pick)))
  {
    hide R.HandleMessage, Enabled, R.Codec.Lawful, Quiet, HandleMessage, Member, Handed;
    MemberMoves(codec, j, s.At(at), at, from, m, pick);
    assert NetOf(j, s)[at] == Member(j, s.At(at));
  }

  /** A run so far: its nets and events, and the broadcast's states at its end. */
  ghost predicate Reached(codec: R.Codec, j: nat, nets: seq<Net>, events: seq<Event>, s: Three) {
    IsRun(WorldOf(codec), nets, events) && nets[|events|] == NetOf(j, s)
  }

  /** One more event of the run. */
  lemma Next(codec: R.Codec, j: nat, nets: seq<Net>, events: seq<Event>, s: Three, at: nat, from: nat, m: R.Message,
             pick: R.Picker) returns (more: seq<Net>, after: seq<Event>, t: Three)
    requires Reached(codec, j, nets, events, s) && R.Picks(pick) && j <= 3 && CanSay(s, at, from, m)
    requires !s.At(at).halted && Quiet(codec, j, s.At(at), at, from, m, pick)
    ensures Reached(codec, j, more, after, t)
    ensures t == s.With(at, Handed(codec, j, s.At(at), at, from, m, pick)) && !t.At(at).halted
  {
    hide R.Codec.Lawful, Enabled, After, NetOf, R.HandleMessage;
    var e := Hand(j, at, from, m, pick);
    CanHand(codec, j, s, at, from, m, pick);
    HandMoves(codec, j, s, at, from, m, pick);
    t := s.With(at, Handed(codec, j, s.At(at), at, from, m, pick));
    more := nets + [nets[|events|][at := After(WorldOf(codec), nets[|events|], e)]];
    after := events + [e];
  }

  /** Member `at` gets its proof from the proposer, and echoes it. */
  lemma TakesProof(codec: R.Codec, j: nat, nets: seq<Net>, events: seq<Event>, s: Three, at: nat, req: R.ProofRequest,
                   pick: R.Picker) returns (more: seq<Net>, after: seq<Event>, t: Three)
    requires Reached(codec, j, nets, events, s) && R.Picks(pick) && j <= 3 && CanSay(s, at, j, R.Proof(req))
    requires Holds(s.At(at), at, map[], req.root, {}) && codec.verify(req)
    ensures Reached(codec, j, more, after, t) && t == s.With(at, t.At(at))
    ensures Holds(t.At(at), at, map[at := req], req.root, {})
  {
    hide R.HandleEcho, Reached;
    var h := s.At(at).(heard := s.At(at).heard + {R.Received(j, R.Proof(req))});
    assert map[][at := req] == map[at := req];
    EchoHeld(For(codec, j, at), h, at, req, map[], {}, pick);
    more, after, t := Next(codec, j, nets, events, s, at, j, R.Proof(req), pick);
  }

  lemma TakesEcho(codec: R.Codec, j: nat, nets: seq<Net>, events: seq<Event>, s: Three, at: nat, from: nat,
                  req: R.ProofRequest, echoes: map<nat, R.ProofRequest>, readiers: set<nat>, pick: R.Picker)
    returns (more: seq<Net>, after: seq<Event>, t: Three)
    requires Reached(codec, j, nets, events, s) && R.Picks(pick) && j <= 3 && CanSay(s, at, from, R.Echo(req))
    requires Holds(s.At(at), at, echoes, req.root, readiers) && codec.verify(req)
    requires from !in echoes && from != at && (readiers == {} || readiers == {at})
    ensures Reached(codec, j, more, after, t) && t == s.With(at, t.At(at))
    ensures Holds(t.At(at), at, echoes[from := req], req.root, ReadyAfter(at, echoes[from := req], readiers))
  {
    hide R.HandleEcho, Reached;
    var h := s.At(at).(heard := s.At(at).heard + {R.Received(from, R.Echo(req))});
    EchoHeld(For(codec, j, at), h, from, req, echoes, readiers, pick);
    more, after, t := Next(codec, j, nets, events, s, at, from, R.Echo(req), pick);
  }

  lemma TakesReady(codec: R.Codec, j: nat, nets: seq<Net>, events: seq<Event>, s: Three, at: nat, from: nat,
                   root: Bytes, echoes: map<nat, R.ProofRequest>, readiers: set<nat>, pick: R.Picker)
    returns (more: seq<Net>, after: seq<Event>, t: Three)
    requires Reached(codec, j, nets, events, s) && R.Picks(pick) && j <= 3 && CanSay(s, at, from, R.Ready(root))
    requires Holds(s.At(at), at, echoes, root, readiers) && at in readiers && from !in readiers
    requires Waits(For(codec, j, at), echoes, root, readiers + {from}, pick)
    ensures Reached(codec, j, more, after, t) && t == s.With(at, t.At(at))
    ensures Holds(t.At(at), at, echoes, root, readiers + {from})
  {
    hide R.HandleReady, Reached, Waits;
    var h := s.At(at).(heard := s.At(at).heard + {R.Received(from, R.Ready(root))});
    ReadyHeld(For(codec, j, at), h, from, echoes, root, readiers, pick);
    more, after, t := Next(codec, j, nets, events, s, at, from, R.Ready(root), pick);
  }

  /** The READY with which member `at` stops. */
  lemma StopsAt(codec: R.Codec, j: nat, nets: seq<Net>, events: seq<Event>, s: Three, at: nat, from: nat, root: Bytes,
                echoes: map<nat, R.ProofRequest>, readiers: set<nat>, q: nat, pick: R.Picker)
    returns (more: seq<Net>, after: seq<Event>)
    requires Reached(codec, j, nets, events, s) && R.Picks(pick) && j <= 3 && CanSay(s, at, from, R.Ready(root))
    requires Holds(s.At(at), at, echoes, root, readiers) && |echoes| >= 2
    requires at in readiers && from !in readiers && |readiers| == 2 && q in echoes && !(0 <= echoes[q].index < 4)
    ensures IsRun(WorldOf(codec), more, after) && at in more[|after|]
    ensures j in more[|after|][at].rbcs && more[|after|][at].rbcs[j].halted
  {
    hide R.Codec.Lawful, Enabled, After, NetOf;
    var e := Hand(j, at, from, R.Ready(root), pick);
    CanHand(codec, j, s, at, from, R.Ready(root), pick);
    LastStops(codec, j, s, at, from, root, echoes, readiers, q, pick);
    more, after := nets + [nets[|events|][at := After(WorldOf(codec), nets[|events|], e)]], events + [e];
  }

  lemma LastStops(codec: R.Codec, j: nat, s: Three, at: nat, from: nat, root: Bytes, echoes: map<nat, R.ProofRequest>,
                  readiers: set<nat>, q: nat, pick: R.Picker)
    requires WorldOf(codec).Sound() && j <= 3 && at <= 2
    requires Enabled(WorldOf(codec), NetOf(j, s), Hand(j, at, from, R.Ready(root), pick))
    requires Holds(s.At(at), at, echoes, root, readiers) && |echoes| >= 2
    requires at in readiers && from !in readiers && |readiers| == 2 && q in echoes && !(0 <= echoes[q].index < 4)
    ensures var t := After(WorldOf(codec), NetOf(j, s), Hand(j, at, from, R.Ready(root), pick));
            j in t.rbcs && t.rbcs[j].halted
  {
    hide R.Codec.Lawful, R.HandleReady, Enabled;
    var w, e := WorldOf(codec), Hand(j, at, from, R.Ready(root), pick);
    var x := s.At(at);
    var h := x.(heard := x.heard + {R.Received(from, R.Ready(root))});
    Stops(For(codec, j, at), h, from, echoes, root, readiers, q, pick);
    assert w.At(at).For(j) == For(codec, j, at) && NetOf(j, s)[at] == Member(j, x);
    assert After(w, NetOf(j, s), e).rbcs[j].halted;
  }

  // ----- a faulty proposer -----

  const Idle := Three(R.Fresh, R.Fresh, R.Fresh)

  lemma FromStart(codec: R.Codec, j: nat)
    requires codec.Lawful(4) && j <= 3
    ensures Reached(codec, j, [NetOf(j, Idle)], [], Idle)
  {
    hide R.Codec.Lawful;
    assert All - {3} == {0, 1, 2};
    assert Member(j, R.Fresh) == Fresh(All) by {
      assert Member(j, R.Fresh).rbcs == Fresh(All).rbcs;
    }
    assert Start(WorldOf(codec)) == NetOf(j, Idle);
  }

  lemma HoldsNothing(id: nat, root: Bytes)
    ensures Holds(R.Fresh, id, map[], root, {})
  {
    assert Same({}, root) == map[];
  }

  /** Of a correct member, with what it said. */
  lemma Sayings(x: R.Node, id: nat, echoes: map<nat, R.ProofRequest>, root: Bytes, readiers: set<nat>)
    requires Holds(x, id, echoes, root, readiers)
    ensures !x.halted && (id in echoes ==> R.Echo(echoes[id]) in x.log) && (id in readiers ==> R.Ready(root) in x.log)
  {
  }

  /** A valid proof with an index that is no position of a vector of four. */
  ghost predicate Stray(codec: R.Codec, req: R.ProofRequest) {
    codec.Lawful(4) && codec.verify(req) && !(0 <= req.index < 4)
  }

  /** With one faulty proposer among four, whose proof is valid but out of range, a correct member stops. */
  lemma OneProposerStopsAMember(codec: R.Codec, req: R.ProofRequest, pick: R.Picker)
    returns (nets: seq<Net>, events: seq<Event>)
    requires Stray(codec, req) && R.Picks(pick)
    ensures var w := WorldOf(codec);
            && IsRun(w, nets, events) && 0 in w.k.all - w.k.bad && 0 in nets[|events|]
            && 3 in nets[|events|][0].rbcs && nets[|events|][0].rbcs[3].halted
  {
    hide IsRun, Reached, Holds, R.Codec.Lawful;
    var s, root := Idle, req.root;
    nets, events := [NetOf(3, s)], [];
    FromStart(codec, 3);
    HoldsNothing(0, root);
    HoldsNothing(1, root);
    nets, events, s := TakesProof(codec, 3, nets, events, s, 0, req, pick);
    nets, events, s := TakesProof(codec, 3, nets, events, s, 1, req, pick);
    nets, events, s := TakesEcho(codec, 3, nets, events, s, 0, 3, req, map[0 := req], {}, pick);
    var two := map[0 := req][3 := req];
    Sayings(s.y, 1, map[1 := req], root, {});
    nets, events, s := TakesEcho(codec, 3, nets, events, s, 0, 1, req, two, {}, pick);
    var e0 := two[1 := req];
    nets, events, s := TakesEcho(codec, 3, nets, events, s, 1, 3, req, map[1 := req], {}, pick);
    var two1 := map[1 := req][3 := req];
    Sayings(s.x, 0, e0, root, {0});
    nets, events, s := TakesEcho(codec, 3, nets, events, s, 1, 0, req, two1, {}, pick);
    nets, events, s := TakesReady(codec, 3, nets, events, s, 0, 3, root, e0, {0}, pick);
    Sayings(s.y, 1, two1[0 := req], root, {1});
    nets, events := StopsAt(codec, 3, nets, events, s, 0, 1, root, e0, {0} + {3}, 3, pick);
  }

  // ----- a correct proposer -----

  function P(codec: R.Codec, shards: seq<Bytes>, k: nat): R.ProofRequest {
    R.ProofOf(For(codec, 0, 0), shards, k)
  }

  /** Member 0 has this to propose, and its proofs are valid. */
  ghost predicate Proposal(codec: R.Codec, data: Bytes) {
    && codec.Lawful(4) && codec.encode(data).Some?
    && var shards := codec.encode(data).value;
       codec.verify(P(codec, shards, 0)) && codec.verify(P(codec, shards, 1)) && codec.verify(P(codec, shards, 2))
  }

  ghost function ProposedBy(codec: R.Codec, data: Bytes, pick: R.Picker): R.Node {
    R.InputValue(For(codec, 0, 0), R.Fresh, data, pick).node.(messages := [], output := None)
  }

  lemma ProposedHolds(codec: R.Codec, data: Bytes, pick: R.Picker)
    requires Proposal(codec, data)
    ensures var shards := codec.encode(data).value;
            var root, r := codec.rootOf(shards), R.InputValue(For(codec, 0, 0), R.Fresh, data, pick);
            && !r.err && !r.node.halted && r.node.output.None?
            && Holds(ProposedBy(codec, data, pick), 0, map[0 := P(codec, shards, 0)], root, {})
            && R.Proof(P(codec, shards, 1)) in ProposedBy(codec, data, pick).log
            && R.Proof(P(codec, shards, 2)) in ProposedBy(codec, data, pick).log
  {
    hide R.HandleEcho;
    var shards := codec.encode(data).value;
    HoldsNothing(0, codec.rootOf(shards));
    EchoHeld(For(codec, 0, 0), R.Fresh, 0, P(codec, shards, 0), map[], {}, pick);
    assert map[][0 := P(codec, shards, 0)] == map[0 := P(codec, shards, 0)];
  }

  lemma ProposeMoves(codec: R.Codec, data: Bytes, pick: R.Picker)
    requires Proposal(codec, data) && R.Picks(pick)
    ensures WorldOf(codec).Sound() && Enabled(WorldOf(codec), NetOf(0, Idle), Propose(0, data, pick))
    ensures NetOf(0, Idle)[0 := After(WorldOf(codec), NetOf(0, Idle), Propose(0, data, pick))] ==
              NetOf(0, Idle.With(0, ProposedBy(codec, data, pick)))
  {
    hide R.InputValue, Holds;
    ProposedHolds(codec, data, pick);
    var c, r := WorldOf(codec).At(0), ProposedBy(codec, data, pick);
    assert c.For(0) == For(codec, 0, 0);
    assert InputValue(c, Member(0, R.Fresh), data, pick).node.rbcs == Member(0, r).rbcs;
  }

  lemma Begins(codec: R.Codec, data: Bytes, pick: R.Picker) returns (nets: seq<Net>, events: seq<Event>, s: Three)
    requires Proposal(codec, data) && R.Picks(pick)
    ensures Reached(codec, 0, nets, events, s) && s == Idle.With(0, s.x)
    ensures var shards := codec.encode(data).value;
            && Holds(s.x, 0, map[0 := P(codec, shards, 0)], codec.rootOf(shards), {})
            && R.Proof(P(codec, shards, 1)) in s.x.log && R.Proof(P(codec, shards, 2)) in s.x.log
  {
    hide R.Codec.Lawful, Enabled, After, NetOf, R.InputValue, Holds;
    FromStart(codec, 0);
    ProposeMoves(codec, data, pick);
    ProposedHolds(codec, data, pick);
    s := Idle.With(0, ProposedBy(codec, data, pick));
    var e := Propose(0, data, pick);
    nets := [NetOf(0, Idle)] + [NetOf(0, Idle)[0 := After(WorldOf(codec), NetOf(0, Idle), e)]];
    events := [] + [e];
  }

  /** The ECHOs that member 1 holds: those of the correct members, and one of member 3. */
  function Held(codec: R.Codec, shards: seq<Bytes>, stray: R.ProofRequest): map<nat, R.ProofRequest> {
    map[0 := P(codec, shards, 0), 1 := P(codec, shards, 1), 2 := P(codec, shards, 2), 3 := stray]
  }

  /** All have echoed their own proofs. */
  lemma AllEcho(codec: R.Codec, data: Bytes, pick: R.Picker) returns (nets: seq<Net>, events: seq<Event>, s: Three)
    requires Proposal(codec, data) && R.Picks(pick)
    ensures Reached(codec, 0, nets, events, s)
    ensures var shards := codec.encode(data).value;
            var root := codec.rootOf(shards);
            && Holds(s.x, 0, map[0 := P(codec, shards, 0)], root, {})
            && Holds(s.y, 1, map[1 := P(codec, shards, 1)], root, {})
            && Holds(s.z, 2, map[2 := P(codec, shards, 2)], root, {})
  {
    hide IsRun, Reached, Holds, R.Codec.Lawful;
    var shards := codec.encode(data).value;
    var root := codec.rootOf(shards);
    HoldsNothing(1, root);
    HoldsNothing(2, root);
    nets, events, s := Begins(codec, data, pick);
    nets, events, s := TakesProof(codec, 0, nets, events, s, 1, P(codec, shards, 1), pick);
    nets, events, s := TakesProof(codec, 0, nets, events, s, 2, P(codec, shards, 2), pick);
  }

  /** Member 1 holds the four ECHOs, and has said READY. */
  lemma OneHolds(codec: R.Codec, data: Bytes, stray: R.ProofRequest, pick: R.Picker)
    returns (nets: seq<Net>, events: seq<Event>, s: Three)
    requires Proposal(codec, data) && R.Picks(pick)
    requires codec.verify(stray) && stray.root == codec.rootOf(codec.encode(data).value)
    ensures Reached(codec, 0, nets, events, s)
    ensures var shards := codec.encode(data).value;
            && Holds(s.x, 0, map[0 := P(codec, shards, 0)], stray.root, {})
            && Holds(s.y, 1, Held(codec, shards, stray), stray.root, {1})
            && Holds(s.z, 2, map[2 := P(codec, shards, 2)], stray.root, {})
  {
    hide IsRun, Reached, Holds, R.Codec.Lawful;
    var shards, root := codec.encode(data).value, stray.root;
    var p0, p1, p2 := P(codec, shards, 0), P(codec, shards, 1), P(codec, shards, 2);
    nets, events, s := AllEcho(codec, data, pick);
    Sayings(s.x, 0, map[0 := p0], root, {});
    Sayings(s.y, 1, map[1 := p1], root, {});
    Sayings(s.z, 2, map[2 := p2], root, {});
    nets, events, s := TakesEcho(codec, 0, nets, events, s, 1, 3, stray, map[1 := p1], {}, pick);
    var a := map[1 := p1][3 := stray];
    nets, events, s := TakesEcho(codec, 0, nets, events, s, 1, 0, p0, a, {}, pick);
    nets, events, s := TakesEcho(codec, 0, nets, events, s, 1, 2, p2, a[0 := p0], {1}, pick);
    assert a[0 := p0][2 := p2] == Held(codec, shards, stray);
  }

  /** So have the others, and member 1 lacks only the READYs of 2 and 3. */
  lemma AllButTwo(codec: R.Codec, data: Bytes, stray: R.ProofRequest, pick: R.Picker)
    returns (nets: seq<Net>, events: seq<Event>, s: Three)
    requires Proposal(codec, data) && R.Picks(pick)
    requires codec.verify(stray) && stray.root == codec.rootOf(codec.encode(data).value)
    ensures Reached(codec, 0, nets, events, s)
    ensures Holds(s.y, 1, Held(codec, codec.encode(data).value, stray), stray.root, {0, 1})
    ensures R.Ready(stray.root) in s.z.log
  {
    hide IsRun, Reached, Holds, R.Codec.Lawful;
    var shards, root := codec.encode(data).value, stray.root;
    var p0, p1, p2, held := P(codec, shards, 0), P(codec, shards, 1), P(codec, shards, 2), Held(codec, shards, stray);
    nets, events, s := OneHolds(codec, data, stray, pick);
    Sayings(s.x, 0, map[0 := p0], root, {});
    Sayings(s.y, 1, held, root, {1});
    Sayings(s.z, 2, map[2 := p2], root, {});
    nets, events, s := TakesEcho(codec, 0, nets, events, s, 2, 0, p0, map[2 := p2], {}, pick);
    nets, events, s := TakesEcho(codec, 0, nets, events, s, 2, 1, p1, map[2 := p2][0 := p0], {}, pick);
    Sayings(s.z, 2, map[2 := p2][0 := p0][1 := p1], root, {2});
    nets, events, s := TakesEcho(codec, 0, nets, events, s, 0, 1, p1, map[0 := p0], {}, pick);
    nets, events, s := TakesEcho(codec, 0, nets, events, s, 0, 3, stray, map[0 := p0][1 := p1], {}, pick);
    Sayings(s.x, 0, map[0 := p0][1 := p1][3 := stray], root, {0});
    nets, events, s := TakesReady(codec, 0, nets, events, s, 1, 0, root, held, {1}, pick);
    assert {1} + {0} == {0, 1};
  }

  /** One faulty ECHO with an index outside the vector, in a correct proposer's broadcast, stops a correct member. */
  lemma OneEchoStopsAMember(codec: R.Codec, data: Bytes, stray: R.ProofRequest, pick: R.Picker)
    returns (nets: seq<Net>, events: seq<Event>)
    requires Proposal(codec, data) && R.Picks(pick) && Stray(codec, stray)
    requires stray.root == codec.rootOf(codec.encode(data).value)
    ensures var w := WorldOf(codec);
            && IsRun(w, nets, events) && 0 in w.k.all - w.k.bad && 1 in w.k.all - w.k.bad && 1 in nets[|events|]
            && 0 in nets[|events|][1].rbcs && nets[|events|][1].rbcs[0].halted
  {
    hide IsRun, Reached, Holds, R.Codec.Lawful;
    var s;
    nets, events, s := AllButTwo(codec, data, stray, pick);
    var held := Held(codec, codec.encode(data).value, stray);
    Sayings(s.y, 1, held, stray.root, {0, 1});
    nets, events := StopsAt(codec, 0, nets, events, s, 1, 2, stray.root, held, {0, 1}, 3, pick);
  }

  /** A valid proof under the root of the proposal with an index inside the vector and a leaf of another. */
  ghost predicate Misled(codec: R.Codec, data: Bytes, stray: R.ProofRequest) {
    && Proposal(codec, data) && codec.verify(stray) && stray.root == codec.rootOf(codec.encode(data).value)
    && 0 <= stray.index < 4 && stray.proof != []
    && RD.Restores(codec, 4, 2) && RD.Completes(codec, 4, 2)
    && var shards := codec.encode(data).value;
       |shards| == 4 && stray.proof[0] != shards[stray.index]
  }

  /** With it among the ECHOs, some order in which they are sorted makes every attempt fail. */
  lemma MisledWaits(codec: R.Codec, data: Bytes, stray: R.ProofRequest, base: R.Picker, readiers: set<nat>)
    requires Misled(codec, data, stray) && R.Picks(base)
    ensures var pick := RD.Choose(stray.proof[0], stray.index, base);
            && R.Picks(pick)
            && Waits(For(codec, 0, 1), Held(codec, codec.encode(data).value, stray), stray.root, readiers, pick)
  {
    hide R.Attempt, R.Codec.Lawful, RD.Restores, RD.Completes;
    var held := Held(codec, codec.encode(data).value, stray);
    RD.UntrueCanFail(For(codec, 0, 1), held, data, base, 3);
  }

  /** One faulty ECHO with the leaf of another position, in the broadcast of a correct proposer, keeps a correct member
      from decoding: all have echoed and said READY, it holds all of that and has not stopped, and it never decodes. */
  lemma OneEchoBlocksAMember(codec: R.Codec, data: Bytes, stray: R.ProofRequest, base: R.Picker)
    returns (nets: seq<Net>, events: seq<Event>)
    requires Misled(codec, data, stray) && R.Picks(base)
    ensures var w := WorldOf(codec);
            && IsRun(w, nets, events) && 0 in w.k.all - w.k.bad && 1 in w.k.all - w.k.bad && 1 in nets[|events|]
            && AcsDelivery.Spent(w.At(1), nets[|events|][1], 0) && !nets[|events|][1].rbcs[0].halted
  {
    hide IsRun, Holds, R.Codec.Lawful, Waits, RD.Restores, RD.Completes;
    var root, pick := stray.root, RD.Choose(stray.proof[0], stray.index, base);
    var held := Held(codec, codec.encode(data).value, stray);
    MisledWaits(codec, data, stray, base, {0, 1} + {2});
    MisledWaits(codec, data, stray, base, {0, 1} + {2} + {3});
    var s;
    nets, events, s := AllButTwo(codec, data, stray, pick);
    Sayings(s.y, 1, held, root, {0, 1});
    nets, events, s := TakesReady(codec, 0, nets, events, s, 1, 2, root, held, {0, 1}, pick);
    nets, events, s := TakesReady(codec, 0, nets, events, s, 1, 3, root, held, {0, 1} + {2}, pick);
    SpentMember(codec, s.y, held, root);
  }

  lemma SpentMember(codec: R.Codec, x: R.Node, echoes: map<nat, R.ProofRequest>, root: Bytes)
    requires Holds(x, 1, echoes, root, {0, 1} + {2} + {3}) && echoes.Keys == All
    ensures AcsDelivery.Spent(WorldOf(codec).At(1), Member(0, x), 0) && !Member(0, x).rbcs[0].halted
  {
    assert {0, 1} + {2} + {3} == All;
    assert x.recvReadys.Keys == All;
  }
}
