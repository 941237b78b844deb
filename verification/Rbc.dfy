/** The reliable broadcast instance: fields updated in place by its handlers. */
module Rbc {
  import opened Options
  import opened Membership
  import opened Bytes
  import opened RbcSpec

  /** Any choice of leaves, for calls that decode nothing. */
  ghost function SomePick(): (pick: Picker)
    ensures Picks(pick)
  {
    (j: int, s: set<Bytes>) => if s == {} then [] else var b :| b in s; b
  }

  /** The choice that put these leaves at their positions. */
  ghost function PickFrom(echoes: map<nat, ProofRequest>, root: Bytes, shards: seq<Option<Bytes>>): (pick: Picker)
    requires forall j :: 0 <= j < |shards| && shards[j].Some? ==> shards[j].value in Leaves(echoes, root, j)
    ensures Picks(pick)
    ensures forall j :: 0 <= j < |shards| && shards[j].Some? ==> pick(j, Leaves(echoes, root, j)) == shards[j].value
  {
    var some := SomePick();
    (j: int, s: set<Bytes>) =>
      if 0 <= j < |shards| && shards[j].Some? && s == Leaves(echoes, root, j) then shards[j].value
      else some(j, s)
  }

  lemma PlacedIsAssembled(n: nat, echoes: map<nat, ProofRequest>, root: Bytes, shards: seq<Option<Bytes>>)
    requires |shards| == n && InRange(n, echoes, root)
    requires forall q :: q in echoes ==> |echoes[q].proof| > 0
    requires forall q :: q in echoes && echoes[q].root == root ==> shards[echoes[q].index].Some?
    requires forall j :: 0 <= j < n && shards[j].Some? ==> shards[j].value in Leaves(echoes, root, j)
    ensures Assembled(n, echoes, root, PickFrom(echoes, root, shards)) == shards
  {
    hide PickFrom;
    var pick := PickFrom(echoes, root, shards);
    forall j | 0 <= j < n ensures Assembled(n, echoes, root, pick)[j] == shards[j] {
      if q :| q in echoes && echoes[q].root == root && echoes[q].index == j {
        assert echoes[q].proof[0] in Leaves(echoes, root, j);
      } else {
        assert Leaves(echoes, root, j) == {};
      }
    }
  }

  class RBC {
    const inst: Instance
    var recvEchos: map<nat, ProofRequest>
    var recvReadys: map<nat, Bytes>
    var echoSent: bool
    var readySent: bool
    var outputDecoded: bool
    var output: Option<Bytes>
    var messages: seq<Message>
    var halted: bool

    ghost var log: set<Message>
    ghost var heard: set<Received>
    ghost var trigger: Option<ReadyRecord>
    ghost var decoded: Option<Decoded>
    ghost var proposed: Option<seq<Bytes>>

    ghost function State(): Node
      reads this
    {
      Node(recvEchos, recvReadys, echoSent, readySent, outputDecoded, output, messages, halted,
           log, heard, trigger, decoded, proposed)
    }

    /** Every ECHO held passed the proof check. */
    ghost predicate Valid()
      reads this
    {
      inst.Sound() && forall q :: q in recvEchos ==> inst.codec.verify(recvEchos[q])
    }

    constructor (n: nat, f: nat, id: nat, proposer: nat, codec: Codec)
      requires n >= 1
      ensures inst == Instance(Config(n, if f == 0 then (n - 1) / 3 else f, id), proposer, codec)
      ensures State() == Fresh
    {
      inst := Instance(Config(n, if f == 0 then (n - 1) / 3 else f, id), proposer, codec);
      recvEchos, recvReadys := map[], map[];
      echoSent, readySent, outputDecoded, output := false, false, false, None;
      messages, halted := [], false;
      log, heard, trigger, decoded, proposed := {}, {}, None, None, None;
    }

    method Output() returns (out: Option<Bytes>)
      modifies this`output
      ensures out == old(output) && State() == old(State()).(output := None)
    {
      out := output;
      output := None;
    }

    method Messages() returns (out: seq<Message>)
      modifies this`messages
      ensures out == old(messages) && State() == old(State()).(messages := [])
    {
      out := messages;
      messages := [];
    }

    method AddMessage(m: Message)
      modifies this`messages, this`log
      ensures State() == Say(old(State()), m)
    {
      messages := messages + [m];
      log := log + {m};
    }

    /** Encodes the value and handles the first proof; the other proofs are returned for the other members. */
    method InputValue(data: Bytes) returns (reqs: Option<seq<ProofRequest>>, ghost pick: Picker)
      requires Valid()
      modifies this
      ensures Valid() && Picks(pick)
      ensures State() == RbcSpec.InputValue(inst, old(State()), data, pick).node
      ensures reqs.None? == RbcSpec.InputValue(inst, old(State()), data, pick).err
      ensures reqs.Some? ==>
        && inst.codec.encode(data).Some?
        && var shards := inst.codec.encode(data).value;
           reqs.value == seq(|shards| - 1, j requires 0 <= j < |shards| - 1 => ProofOf(inst, shards, j + 1))
    {
      pick := SomePick();
      if halted {
        return None, pick;
      }
      var encoded := inst.codec.encode(data);
      if encoded.None? {
        return None, pick;
      }
      var shards := encoded.value;
      var err;
      err, pick := HandleProofRequest(inst.cfg.id, ProofOf(inst, shards, 0));
      if err {
        return None, pick;
      }
      proposed := Some(shards);
      log := log + set j | 1 <= j < |shards| :: Proof(ProofOf(inst, shards, j));
      reqs := Some(seq(|shards| - 1, j requires 0 <= j < |shards| - 1 => ProofOf(inst, shards, j + 1)));
    }

    method HandleMessage(sid: nat, m: Message) returns (err: bool, ghost pick: Picker)
      requires Valid()
      modifies this
      ensures Valid() && Picks(pick)
      ensures Step(State(), err) == RbcSpec.HandleMessage(inst, old(State()), sid, m, pick)
    {
      pick := SomePick();
      if halted {
        return true, pick;
      }
      heard := heard + {Received(sid, m)};
      match m {
        case Proof(req) => err, pick := HandleProofRequest(sid, req);
        case Echo(req) => err, pick := HandleEchoRequest(sid, req);
        case Ready(root) => err, pick := HandleReadyRequest(sid, root);
        case Unknown => err := true;
      }
    }

    method HandleProofRequest(sid: nat, req: ProofRequest) returns (err: bool, ghost pick: Picker)
      requires Valid()
      modifies this
      ensures Valid() && Picks(pick)
      ensures Step(State(), err) == HandleProof(inst, old(State()), sid, req, pick)
    {
      pick := SomePick();
      if sid != inst.proposer {
        return true, pick;
      }
      if echoSent {
        return true, pick;
      }
      if !inst.codec.verify(req) {
        return true, pick;
      }
      echoSent := true;
      AddMessage(Echo(req));
      err, pick := HandleEchoRequest(inst.cfg.id, req);
    }

    method HandleEchoRequest(sid: nat, req: ProofRequest) returns (err: bool, ghost pick: Picker)
      requires Valid()
      modifies this
      ensures Valid() && Picks(pick)
      ensures Step(State(), err) == HandleEcho(inst, old(State()), sid, req, pick)
    {
      pick := SomePick();
      if sid in recvEchos {
        return true, pick;
      }
      if !inst.codec.verify(req) {
        return true, pick;
      }
      recvEchos := recvEchos[sid := req];
      var echoes := CountEchos(req.root);
      if readySent || echoes < inst.cfg.n - inst.cfg.f {
        pick := TryDecodeValue(req.root);
        return false, pick;
      }
      err, pick := EmitReady(req.root, EchoQuorum);
    }

    method HandleReadyRequest(sid: nat, root: Bytes) returns (err: bool, ghost pick: Picker)
      requires Valid()
      modifies this
      ensures Valid() && Picks(pick)
      ensures Step(State(), err) == HandleReady(inst, old(State()), sid, root, pick)
    {
      pick := SomePick();
      if sid in recvReadys {
        return true, pick;
      }
      recvReadys := recvReadys[sid := root];
      var readys := CountReadys(root);
      if readys == inst.cfg.f + 1 && !readySent {
        err, pick := EmitReady(root, Relay);
        return;
      }
      pick := TryDecodeValue(root);
      err := false;
    }

    method EmitReady(root: Bytes, t: Trigger) returns (err: bool, ghost pick: Picker)
      requires Valid()
      modifies this
      ensures Valid() && Picks(pick)
      ensures Step(State(), err) == RbcSpec.EmitReady(inst, old(State()), root, t, pick)
    {
      hide TryDecode;
      pick := SomePick();
      if readySent {
        pick := TryDecodeValue(root);
        return false, pick;
      }
      if inst.cfg.id in recvReadys {
        return true, pick;
      }
      var echoCount := CountEchos(root);
      var readyCount := CountReadys(root);
      recvReadys := recvReadys[inst.cfg.id := root];
      readySent := true;
      trigger := Some(ReadyRecord(t, echoCount, readyCount));
      AddMessage(Ready(root));
      pick := TryDecodeValue(root);
      err := false;
    }

    /** Decodes the value if the thresholds are met, the shards suffice and the root commits to them. */
    method TryDecodeValue(hash: Bytes) returns (ghost pick: Picker)
      requires Valid()
      modifies this
      ensures Valid() && Picks(pick)
      ensures State() == TryDecode(inst, old(State()), hash, pick)
    {
      hide Leaves, Concat, PickFrom, EchoersOf, ReadiersOf, InRange;
      pick := SomePick();
      if outputDecoded {
        return;
      }
      var readys := CountReadys(hash);
      var echoes := CountEchos(hash);
      if readys <= 2 * inst.cfg.f || echoes <= inst.cfg.f {
        return;
      }
      var shards: seq<Option<Bytes>>, inRange: bool;
      shards, inRange, pick := AssembleShards(hash);
      if !inRange {
        halted := true;
        return;
      }
      var reconstructed := inst.codec.reconstruct(shards);
      if reconstructed.None? {
        return;
      }
      if inst.codec.rootOf(reconstructed.value) != hash {
        return;
      }
      var value := JoinShards(reconstructed.value[..inst.cfg.n - 2 * inst.cfg.f]);
      output := if value == [] then None else Some(value);
      outputDecoded := true;
      decoded := Some(Decoded(hash, reconstructed.value));
    }

    method JoinShards(data: seq<Bytes>) returns (value: Bytes)
      ensures value == Concat(data)
    {
      value := [];
      for i := 0 to |data|
        invariant value + Concat(data[i..]) == Concat(data)
      {
        assert data[i..] == [data[i]] + data[i + 1..];
        assert (value + data[i]) + Concat(data[i + 1..]) == value + (data[i] + Concat(data[i + 1..]));
        value := value + data[i];
      }
    }

    /** Puts every leaf echoed under the root at its position; an index outside the vector is noticed. */
    method AssembleShards(hash: Bytes) returns (shards: seq<Option<Bytes>>, inRange: bool, ghost pick: Picker)
      requires Valid()
      ensures Picks(pick)
      ensures inRange <==> InRange(inst.cfg.n, recvEchos, hash)
      ensures inRange ==> shards == Assembled(inst.cfg.n, recvEchos, hash, pick)
    {
      hide PickFrom, Assembled;
      pick := SomePick();
      var vector := new Option<Bytes>[inst.cfg.n](_ => None);
      var todo := recvEchos.Keys;
      while todo != {}
        invariant todo <= recvEchos.Keys
        invariant forall q :: q in recvEchos && q !in todo && recvEchos[q].root == hash ==>
          0 <= recvEchos[q].index < vector.Length && vector[recvEchos[q].index].Some?
        invariant forall j :: 0 <= j < vector.Length && vector[j].Some? ==>
          vector[j].value in Leaves(recvEchos, hash, j)
        decreases todo
      {
        var q :| q in todo;
        var p := recvEchos[q];
        if p.root == hash {
          if !(0 <= p.index < vector.Length) {
            return [], false, pick;
          }
          vector[p.index] := Some(p.proof[0]);
        }
        todo := todo - {q};
      }
      shards, inRange := vector[..], true;
      pick := PickFrom(recvEchos, hash, shards);
      PlacedIsAssembled(inst.cfg.n, recvEchos, hash, shards);
    }

    method CountEchos(hash: Bytes) returns (n: nat)
      ensures n == |EchoersOf(recvEchos, hash)|
    {
      n := 0;
      var todo := recvEchos.Keys;
      ghost var counted: set<nat> := {};
      while todo != {}
        invariant todo <= recvEchos.Keys && n == |counted|
        invariant counted == set q | q in recvEchos && q !in todo && recvEchos[q].root == hash
        decreases todo
      {
        var q :| q in todo;
        if recvEchos[q].root == hash {
          n := n + 1;
          counted := counted + {q};
        }
        todo := todo - {q};
      }
      assert counted == EchoersOf(recvEchos, hash);
    }

    method CountReadys(hash: Bytes) returns (n: nat)
      ensures n == |ReadiersOf(recvReadys, hash)|
    {
      n := 0;
      var todo := recvReadys.Keys;
      ghost var counted: set<nat> := {};
      while todo != {}
        invariant todo <= recvReadys.Keys && n == |counted|
        invariant counted == set q | q in recvReadys && q !in todo && recvReadys[q] == hash
        decreases todo
      {
        var q :| q in todo;
        if recvReadys[q] == hash {
          n := n + 1;
          counted := counted + {q};
        }
        todo := todo - {q};
      }
      assert counted == ReadiersOf(recvReadys, hash);
    }
  }
}
