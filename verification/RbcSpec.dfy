/** What one handler call of a reliable broadcast instance does to its state, as functions. */
module RbcSpec {
  import opened Options
  import opened Membership
  import opened Bytes

  datatype ProofRequest = ProofRequest(root: Bytes, proof: seq<Bytes>, index: int, leaves: int)

  /** Unknown stands for any payload the handler has no case for. */
  datatype Message = Proof(req: ProofRequest) | Echo(req: ProofRequest) | Ready(root: Bytes) | Unknown

  datatype Received = Received(sid: nat, msg: Message)

  /** The coding and hashing libraries: a proof check, the erasure code and the Merkle tree. */
  datatype Codec = Codec(
    verify: ProofRequest -> bool,
    encode: Bytes -> Option<seq<Bytes>>,
    reconstruct: seq<Option<Bytes>> -> Option<seq<Bytes>>,
    rootOf: seq<Bytes> -> Bytes,
    branch: (seq<Bytes>, nat) -> seq<Bytes>)
  {
    /** A valid proof carries a leaf, shard vectors have n entries, and the root of such a vector determines it. */
    ghost predicate Lawful(n: nat) {
      && (forall r :: verify(r) ==> |r.proof| > 0)
      && (forall d :: encode(d).Some? ==> |encode(d).value| == n)
      && (forall v :: reconstruct(v).Some? ==> |reconstruct(v).value| == n)
      && (forall a, b :: |a| == n && |b| == n && rootOf(a) == rootOf(b) ==> a == b)
    }
  }

  /** Which of the leaves claimed for a position ends up in the shard vector: sorting the
      echoed proofs by index leaves the order of equal indices open. */
  type Picker = (int, set<Bytes>) -> Bytes

  ghost predicate Picks(pick: Picker) {
    forall j, s :: s != {} ==> pick(j, s) in s
  }

  datatype Trigger = EchoQuorum | Relay

  datatype ReadyRecord = ReadyRecord(trigger: Trigger, echoes: nat, readys: nat)

  datatype Decoded = Decoded(root: Bytes, shards: seq<Bytes>)

  /** The fields of the instance; `halted` once an index outside the shard vector has stopped the
      process; then history: what was queued for others, what was handed in, the recorded READY
      trigger, the decoded shards and the shards of the own proposal. */
  datatype Node = Node(
    recvEchos: map<nat, ProofRequest>,
    recvReadys: map<nat, Bytes>,
    echoSent: bool,
    readySent: bool,
    outputDecoded: bool,
    output: Option<Bytes>,
    messages: seq<Message>,
    halted: bool,
    log: set<Message>,
    heard: set<Received>,
    trigger: Option<ReadyRecord>,
    decoded: Option<Decoded>,
    proposed: Option<seq<Bytes>>)

  const Fresh := Node(map[], map[], false, false, false, None, [], false, {}, {}, None, None, None)

  /** The instance after a call, and whether the call returned an error. */
  datatype Step = Step(node: Node, err: bool)

  /** One instance: the participant's view of the membership, the proposer, the libraries. */
  datatype Instance = Instance(cfg: Config, proposer: nat, codec: Codec) {
    ghost predicate Sound() {
      cfg.Sound() && codec.Lawful(cfg.n)
    }

    function DataShards(): int {
      cfg.n - 2 * cfg.f
    }
  }

  function EchoersOf(echoes: map<nat, ProofRequest>, root: Bytes): set<nat> {
    set q | q in echoes && echoes[q].root == root
  }

  function ReadiersOf(readys: map<nat, Bytes>, root: Bytes): set<nat> {
    set q | q in readys && readys[q] == root
  }

  function Say(s: Node, m: Message): Node {
    s.(messages := s.messages + [m], log := s.log + {m})
  }

  /** The leaves echoed under `root` for position i. */
  function Leaves(echoes: map<nat, ProofRequest>, root: Bytes, i: int): set<Bytes> {
    set q | q in echoes && echoes[q].root == root && echoes[q].index == i && |echoes[q].proof| > 0
      :: echoes[q].proof[0]
  }

  function Assembled(n: nat, echoes: map<nat, ProofRequest>, root: Bytes, pick: Picker): seq<Option<Bytes>> {
    seq(n, i => if Leaves(echoes, root, i) == {} then None else Some(pick(i, Leaves(echoes, root, i))))
  }

  ghost predicate InRange(n: nat, echoes: map<nat, ProofRequest>, root: Bytes) {
    forall q :: q in echoes && echoes[q].root == root ==> 0 <= echoes[q].index < n
  }

  /** The shards one decoding attempt accepts, if any: reconstructed, and committed to by the root. */
  function Attempt(i: Instance, echoes: map<nat, ProofRequest>, root: Bytes, pick: Picker): Option<seq<Bytes>> {
    var got := i.codec.reconstruct(Assembled(i.cfg.n, echoes, root, pick));
    if got.Some? && i.codec.rootOf(got.value) == root then got else None
  }

  function Concat(shards: seq<Bytes>): Bytes {
    if shards == [] then [] else shards[0] + Concat(shards[1..])
  }

  /** The value carried by a shard vector: its data shards in order. */
  function Value(i: Instance, shards: seq<Bytes>): Bytes {
    if 0 <= i.DataShards() <= |shards| then Concat(shards[..i.DataShards()]) else []
  }

  predicate Eligible(f: nat, echoes: map<nat, ProofRequest>, readys: map<nat, Bytes>, root: Bytes) {
    |ReadiersOf(readys, root)| > 2 * f && |EchoersOf(echoes, root)| > f
  }

  ghost function TryDecode(i: Instance, s: Node, root: Bytes, pick: Picker): Node {
    if s.outputDecoded || !Eligible(i.cfg.f, s.recvEchos, s.recvReadys, root) then s
    else if !InRange(i.cfg.n, s.recvEchos, root) then s.(halted := true)
    else
      var got := Attempt(i, s.recvEchos, root, pick);
      if got.None? then s
      else
        var value := Value(i, got.value);
        s.(output := if value == [] then None else Some(value), outputDecoded := true,
           decoded := Some(Decoded(root, got.value)))
  }

  ghost function EmitReady(i: Instance, s: Node, root: Bytes, t: Trigger, pick: Picker): Step {
    if s.readySent then Step(TryDecode(i, s, root, pick), false)
    else if i.cfg.id in s.recvReadys then Step(s, true)
    else
      var r := s.(recvReadys := s.recvReadys[i.cfg.id := root], readySent := true,
                  trigger := Some(ReadyRecord(t, |EchoersOf(s.recvEchos, root)|, |ReadiersOf(s.recvReadys, root)|)));
      Step(TryDecode(i, Say(r, Ready(root)), root, pick), false)
  }

  ghost function HandleEcho(i: Instance, s: Node, sid: nat, req: ProofRequest, pick: Picker): Step {
    if sid in s.recvEchos || !i.codec.verify(req) then Step(s, true)
    else
      var t := s.(recvEchos := s.recvEchos[sid := req]);
      if t.readySent || |EchoersOf(t.recvEchos, req.root)| < i.cfg.n - i.cfg.f
      then Step(TryDecode(i, t, req.root, pick), false)
      else EmitReady(i, t, req.root, EchoQuorum, pick)
  }

  ghost function HandleReady(i: Instance, s: Node, sid: nat, root: Bytes, pick: Picker): Step {
    if sid in s.recvReadys then Step(s, true)
    else
      var t := s.(recvReadys := s.recvReadys[sid := root]);
      if |ReadiersOf(t.recvReadys, root)| == i.cfg.f + 1 && !t.readySent
      then EmitReady(i, t, root, Relay, pick)
      else Step(TryDecode(i, t, root, pick), false)
  }

  ghost function HandleProof(i: Instance, s: Node, sid: nat, req: ProofRequest, pick: Picker): Step {
    if sid != i.proposer || s.echoSent || !i.codec.verify(req) then Step(s, true)
    else HandleEcho(i, Say(s.(echoSent := true), Echo(req)), i.cfg.id, req, pick)
  }

  ghost function HandleMessage(i: Instance, s: Node, sid: nat, m: Message, pick: Picker): Step {
    if s.halted then Step(s, true)
    else
      var h := s.(heard := s.heard + {Received(sid, m)});
      match m
      case Proof(req) => HandleProof(i, h, sid, req, pick)
      case Echo(req) => HandleEcho(i, h, sid, req, pick)
      case Ready(root) => HandleReady(i, h, sid, root, pick)
      case Unknown => Step(h, true)
  }

  /** The proof of position j, for the participant that gets it. */
  function ProofOf(i: Instance, shards: seq<Bytes>, j: nat): ProofRequest {
    ProofRequest(i.codec.rootOf(shards), i.codec.branch(shards, j), j, |shards|)
  }

  /** The proposer encodes its value and handles its own proof; the proofs for the others are then on their way. */
  ghost function InputValue(i: Instance, s: Node, data: Bytes, pick: Picker): Step {
    if s.halted || i.codec.encode(data).None? then Step(s, true)
    else
      var shards := i.codec.encode(data).value;
      var r := HandleProof(i, s, i.cfg.id, ProofOf(i, shards, 0), pick);
      if r.err then r
      else Step(r.node.(proposed := Some(shards),
                        log := r.node.log + set j | 1 <= j < |shards| :: Proof(ProofOf(i, shards, j))), false)
  }
}
