/** A cluster of operators: encryption of transactions, batch plans, decryption shares and their combination. */
module Cluster {
  import opened Options
  import opened Bytes
  import opened Zq
  import opened Groups
  import EG = ElGamal
  import Shamir
  import opened Btd
  import opened Wire
  import opened Arrange
  import opened Planner
  import opened Subsets

  /** The hash, and authenticated encryption under a key derived from a target-group element and a digest. */
  datatype Library = Library(
    codec: Codec,
    sha: Bytes -> Bytes,
    seal: (GT, Bytes, Bytes, Bytes) -> Bytes,
    open: (GT, Bytes, Bytes, Bytes) -> Option<Bytes>)
  {
    /** Sealing adds a tag, and the secret that sealed opens. */
    ghost predicate Lawful() {
      && codec.Canonical()
      && (forall s, d, n, p :: |seal(s, d, n, p)| == |p| + AEAD_TAG_SIZE)
      && (forall s, d, n, p :: open(s, d, n, seal(s, d, n, p)) == Some(p))
    }
  }

  datatype ClusterBTE = ClusterBTE(btd: BTD, bMax: nat, domain: nat, operators: nat, T: nat, lib: Library) {
    /** How the constructors set it up. */
    predicate Sized() {
      btd.Sized() && bMax == domain == btd.B
    }
  }

  datatype BatchPlan = BatchPlan(batchID: Bytes, alpha: nat, subBatches: seq<seq<BatchItem>>)

  datatype DecodedBatch = DecodedBatch(ciphertexts: seq<Ciphertext>, batchID: Bytes)

  datatype SecretShare = SecretShare(operator: int, share: EG.PriShare)

  datatype DecryptionShare = DecryptionShare(operator: int, batchID: Bytes, subBatch: int, share: Option<EG.PubShare>)

  // ----- transactions -----

  /** What an encryption draws besides the capsule's coins. */
  datatype Draw = Draw(secret: GT, coins: Coins, nonce: Bytes)

  function Digest(c: ClusterBTE, capsule: CT): Bytes {
    c.lib.sha(MarshalCT(c.lib.codec, capsule))
  }

  function EncryptTx(c: ClusterBTE, raw: Bytes, index: int, r: Draw): Option<Ciphertext>
    requires c.Sized()
  {
    var capsule := Enc(c.btd, c.btd.PK, index, r.secret, r.coins);
    if capsule.None? then None
    else Some(Ciphertext(capsule.value, r.nonce + c.lib.seal(r.secret, Digest(c, capsule.value), r.nonce, raw)))
  }

  function DecryptTx(c: ClusterBTE, secret: GT, ct: Ciphertext): Option<Bytes> {
    if |ct.encryptedTx| < AEAD_NONCE_SIZE + AEAD_TAG_SIZE then None
    else c.lib.open(secret, Digest(c, ct.capsule), ct.encryptedTx[..AEAD_NONCE_SIZE], ct.encryptedTx[AEAD_NONCE_SIZE..])
  }

  // ----- plans -----

  function BatchID(c: ClusterBTE, raws: seq<Bytes>): Bytes {
    c.lib.sha(BatchPreimage(raws))
  }

  function PlanOf(c: ClusterBTE, cts: seq<Ciphertext>, id: Bytes): Option<BatchPlan> {
    var p := Plan(c.bMax, c.domain, cts);
    if p.None? then None else Some(BatchPlan(id, p.value.0, p.value.1))
  }

  method PlanBatch(c: ClusterBTE, cts: seq<Ciphertext>) returns (plan: Option<BatchPlan>)
    ensures plan == PlanOf(c, cts, BatchID(c, MarshalAll(c.lib.codec, cts)))
  {
    hide Plan;
    var arranged := ArrangeBatch(c.bMax, c.domain, cts);
    if arranged.None? {
      return None;
    }
    var encoded: seq<Bytes> := [];
    for i := 0 to |cts|
      invariant encoded == MarshalAll(c.lib.codec, cts[..i])
    {
      encoded := encoded + [Marshal(c.lib.codec, cts[i])];
    }
    assert cts[..|cts|] == cts;
    plan := Some(BatchPlan(BatchID(c, encoded), arranged.value.0, arranged.value.1));
  }

  function UnmarshalAll(c: ClusterBTE, raws: seq<Bytes>): Option<seq<Ciphertext>> {
    if raws == [] then Some([])
    else
      var front := UnmarshalAll(c, raws[..|raws| - 1]);
      var ct := UnmarshalCiphertext(c.lib.codec, c.domain, raws[|raws| - 1]);
      if front.None? || ct.None? then None else Some(front.value + [ct.value])
  }

  method DecodeBatch(c: ClusterBTE, encoded: seq<Bytes>) returns (decoded: Option<DecodedBatch>)
    ensures decoded ==
      if |encoded| > c.bMax || UnmarshalAll(c, encoded).None? then None
      else Some(DecodedBatch(UnmarshalAll(c, encoded).value, BatchID(c, encoded)))
  {
    if |encoded| > c.bMax {
      return None;
    }
    var cts: seq<Ciphertext> := [];
    for i := 0 to |encoded|
      invariant UnmarshalAll(c, encoded[..i]) == Some(cts)
    {
      assert encoded[..i + 1][..i] == encoded[..i];
      var ct := UnmarshalCiphertext(c.lib.codec, c.domain, encoded[i]);
      if ct.None? {
        UnmarshalFails(c, encoded, i + 1);
        return None;
      }
      cts := cts + [ct.value];
    }
    assert encoded[..|encoded|] == encoded;
    decoded := Some(DecodedBatch(cts, BatchID(c, encoded)));
  }

  lemma {:induction false} UnmarshalFails(c: ClusterBTE, raws: seq<Bytes>, n: nat)
    requires n <= |raws| && UnmarshalAll(c, raws[..n]).None?
    ensures UnmarshalAll(c, raws).None?
    decreases |raws|
  {
    if n < |raws| {
      assert raws[..|raws| - 1][..n] == raws[..n];
      UnmarshalFails(c, raws[..|raws| - 1], n);
    } else {
      assert raws[..n] == raws;
    }
  }

  method PlanDecodedBatch(c: ClusterBTE, decoded: DecodedBatch) returns (plan: Option<BatchPlan>)
    ensures plan == PlanOf(c, decoded.ciphertexts, decoded.batchID)
  {
    hide Plan;
    var arranged := ArrangeBatch(c.bMax, c.domain, decoded.ciphertexts);
    if arranged.None? {
      return None;
    }
    plan := Some(BatchPlan(decoded.batchID, arranged.value.0, arranged.value.1));
  }

  /** What was parsed re-encodes to the bytes it was parsed from, so parsing once gives the plain plan. */
  lemma {:induction false} ParsedReencodes(c: ClusterBTE, raws: seq<Bytes>)
    requires c.lib.codec.Canonical() && UnmarshalAll(c, raws).Some?
    ensures MarshalAll(c.lib.codec, UnmarshalAll(c, raws).value) == raws
    ensures AllShaped(c.domain, UnmarshalAll(c, raws).value)
  {
    hide UnmarshalCiphertext, Marshal, ValidShape;
    if raws != [] {
      var n := |raws| - 1;
      ParsedReencodes(c, raws[..n]);
      CiphertextIsCanonical(c.lib.codec, c.domain, raws[n]);
      var front, all := UnmarshalAll(c, raws[..n]).value, UnmarshalAll(c, raws).value;
      assert all == front + [all[n]];
      assert MarshalAll(c.lib.codec, all) == MarshalAll(c.lib.codec, front) + [raws[n]];
    }
  }

  lemma ParseOncePlansTheSame(c: ClusterBTE, raws: seq<Bytes>)
    requires c.lib.codec.Canonical() && UnmarshalAll(c, raws).Some?
    ensures var cts := UnmarshalAll(c, raws).value;
            PlanOf(c, cts, BatchID(c, raws)) == PlanOf(c, cts, BatchID(c, MarshalAll(c.lib.codec, cts)))
  {
    ParsedReencodes(c, raws);
  }

  /** Every list of well-shaped ciphertexts is the parse of its encoding. */
  lemma {:induction false} EncodedParses(c: ClusterBTE, cts: seq<Ciphertext>)
    requires c.lib.codec.Canonical() && AllShaped(c.domain, cts)
    requires forall i :: 0 <= i < |cts| ==> Holdable(c.lib.codec, cts[i])
    ensures UnmarshalAll(c, MarshalAll(c.lib.codec, cts)) == Some(cts)
  {
    hide Holdable, ValidShape, Marshal, UnmarshalCiphertext;
    if cts != [] {
      var n := |cts| - 1;
      EncodedParses(c, cts[..n]);
      assert MarshalAll(c.lib.codec, cts)[..n] == MarshalAll(c.lib.codec, cts[..n]);
      CiphertextRoundTrip(c.lib.codec, c.domain, cts[n]);
      assert cts == cts[..n] + [cts[n]];
    }
  }

  // ----- shares -----

  function Capsules(items: seq<BatchItem>): seq<CT> {
    seq(|items|, i requires 0 <= i < |items| => items[i].ct.capsule)
  }

  /** The share of one operator for one sub-batch: of the sum of its ciphertexts, if there is such a sub-batch and it
      can be decrypted. */
  function ShareOf(c: ClusterBTE, sk: SecretShare, plan: BatchPlan, subBatch: int): Option<DecryptionShare>
    requires c.Sized()
  {
    if 0 <= subBatch < |plan.subBatches| && Admissible(c.btd, Capsules(plan.subBatches[subBatch]), true)
    then
      var share := EG.PDecWithShare(SumOf(Capsules(plan.subBatches[subBatch])), sk.share);
      Some(DecryptionShare(sk.operator, plan.batchID, subBatch, Some(share)))
    else None
  }

  method MakeShare(c: ClusterBTE, sk: SecretShare, plan: BatchPlan, subBatch: int) returns (d: Option<DecryptionShare>)
    requires c.Sized()
    ensures d == ShareOf(c, sk, plan, subBatch)
  {
    if subBatch < 0 || subBatch >= |plan.subBatches| {
      return None;
    }
    var share := BatchDecWithShare(c.btd, Capsules(plan.subBatches[subBatch]), sk.share, true);
    d := if share.None? then None else Some(DecryptionShare(sk.operator, plan.batchID, subBatch, share));
  }
}
