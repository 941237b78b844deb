/** The canonical wire format of ciphertexts, and the identity of a batch of them. */
module Wire {
  import opened Options
  import opened Bytes
  import opened Zq
  import opened Groups
  import EG = ElGamal
  import opened Btd

  // ----- numbers -----

  function Pow256(n: nat): nat {
    if n == 0 then 1 else 256 * Pow256(n - 1)
  }

  /** The n low bytes of x, the highest first. */
  function BigEndian(x: nat, n: nat): (r: Bytes)
    ensures |r| == n
  {
    if n == 0 then [] else BigEndian(x / 256, n - 1) + [(x % 256) as Byte]
  }

  function Number(b: Bytes): nat {
    if b == [] then 0 else Number(b[..|b| - 1]) * 256 + b[|b| - 1] as nat
  }

  lemma {:induction false} NumberOfBytes(x: nat, n: nat)
    requires x < Pow256(n)
    ensures Number(BigEndian(x, n)) == x
  {
    if n > 0 {
      NumberOfBytes(x / 256, n - 1);
      assert BigEndian(x, n)[..n - 1] == BigEndian(x / 256, n - 1);
    }
  }

  lemma {:induction false} BytesOfNumber(b: Bytes)
    ensures Number(b) < Pow256(|b|) && BigEndian(Number(b), |b|) == b
  {
    if b != [] {
      BytesOfNumber(b[..|b| - 1]);
      assert b == b[..|b| - 1] + [b[|b| - 1]];
    }
  }

  const TWO_TO_THE_63: nat := 0x8000_0000_0000_0000
  const TWO_TO_THE_64: nat := 0x1_0000_0000_0000_0000

  lemma EightBytes()
    ensures Pow256(8) == TWO_TO_THE_64
  {
    assert Pow256(4) == 0x1_0000_0000;
    assert Pow256(8) == 256 * Pow256(7) == 256 * (256 * Pow256(6)) == 256 * (256 * (256 * Pow256(5)));
  }

  /** A length the platform can hold. */
  predicate Fits(b: Bytes) {
    |b| < TWO_TO_THE_63
  }

  predicate IsInt64(i: int) {
    -(TWO_TO_THE_63 as int) <= i < TWO_TO_THE_63
  }

  function Int64(i: int): Bytes {
    BigEndian(i % TWO_TO_THE_64, 8)
  }

  function FromInt64(b: Bytes): int {
    var x := Number(b);
    if x < TWO_TO_THE_63 then x else x - TWO_TO_THE_64
  }

  lemma Int64RoundTrip(i: int)
    requires IsInt64(i)
    ensures FromInt64(Int64(i)) == i
  {
    EightBytes();
    NumberOfBytes(i % TWO_TO_THE_64, 8);
  }

  lemma Int64Canonical(b: Bytes)
    requires |b| == 8
    ensures IsInt64(FromInt64(b)) && Int64(FromInt64(b)) == b
  {
    EightBytes();
    BytesOfNumber(b);
    assert FromInt64(b) % TWO_TO_THE_64 == Number(b);
  }

  // ----- length-prefixed fields -----

  function Field(b: Bytes): Bytes {
    BigEndian(|b|, 8) + b
  }

  /** The next field and what follows it. */
  function ReadField(data: Bytes): Option<(Bytes, Bytes)> {
    if |data| < 8 || Number(data[..8]) > |data| - 8 then None
    else
      var size := Number(data[..8]);
      Some((data[8..8 + size], data[8 + size..]))
  }

  lemma ReadsField(b: Bytes, rest: Bytes)
    requires Fits(b)
    ensures ReadField(Field(b) + rest) == Some((b, rest))
  {
    EightBytes();
    NumberOfBytes(|b|, 8);
    var data := Field(b) + rest;
    assert data[..8] == BigEndian(|b|, 8);
    assert data[8..8 + |b|] == b && data[8 + |b|..] == rest;
  }

  lemma FieldIsCanonical(data: Bytes)
    requires ReadField(data).Some?
    ensures data == Field(ReadField(data).value.0) + ReadField(data).value.1
  {
    BytesOfNumber(data[..8]);
    var size := Number(data[..8]);
    assert data == data[..8] + data[8..8 + size] + data[8 + size..];
  }

  lemma Regroup(a: Bytes, b: Bytes, c: Bytes)
    ensures a + (b + c) == (a + b) + c
  {
  }

  // ----- group elements -----

  /** The element encodings of the curve library. */
  datatype Codec = Codec(
    encGT: GT -> Bytes, decGT: Bytes -> Option<GT>,
    encG1: G1 -> Bytes, decG1: Bytes -> Option<G1>,
    encS: Scalar -> Bytes, decS: Bytes -> Option<Scalar>)
  {
    /** Decoding undoes encoding, and accepts nothing but encodings. */
    ghost predicate Canonical() {
      && (forall p :: Fits(encGT(p)) && decGT(encGT(p)) == Some(p))
      && (forall p :: Fits(encG1(p)) && decG1(encG1(p)) == Some(p))
      && (forall s: Scalar :: Fits(encS(s)) && decS(encS(s)) == Some(s))
      && (forall b :: decGT(b).Some? ==> encGT(decGT(b).value) == b)
      && (forall b :: decG1(b).Some? ==> encG1(decG1(b).value) == b)
      && (forall b :: decS(b).Some? ==> encS(decS(b).value) == b)
    }
  }

  function WritePoints(e: Codec, ps: seq<G1>): Bytes {
    if ps == [] then [] else Field(e.encG1(ps[0])) + WritePoints(e, ps[1..])
  }

  function ReadPoints(e: Codec, data: Bytes, n: nat): Option<(seq<G1>, Bytes)> {
    if n == 0 then Some(([], data))
    else
      var f := ReadField(data);
      if f.None? then None
      else
        var p := e.decG1(f.value.0);
        if p.None? then None
        else
          var rest := ReadPoints(e, f.value.1, n - 1);
          if rest.None? then None else Some(([p.value] + rest.value.0, rest.value.1))
  }

  function WriteScalars(e: Codec, ss: seq<Scalar>): Bytes {
    if ss == [] then [] else Field(e.encS(ss[0])) + WriteScalars(e, ss[1..])
  }

  function ReadScalars(e: Codec, data: Bytes, n: nat): Option<(seq<Scalar>, Bytes)> {
    if n == 0 then Some(([], data))
    else
      var f := ReadField(data);
      if f.None? then None
      else
        var s := e.decS(f.value.0);
        if s.None? then None
        else
          var rest := ReadScalars(e, f.value.1, n - 1);
          if rest.None? then None else Some(([s.value] + rest.value.0, rest.value.1))
  }

  lemma {:induction false} ReadsPoints(e: Codec, ps: seq<G1>, rest: Bytes)
    requires e.Canonical()
    ensures ReadPoints(e, WritePoints(e, ps) + rest, |ps|) == Some((ps, rest))
  {
    if ps == [] {
      assert WritePoints(e, ps) + rest == rest;
    } else {
      var tail := WritePoints(e, ps[1..]) + rest;
      assert WritePoints(e, ps) + rest == Field(e.encG1(ps[0])) + tail;
      ReadsField(e.encG1(ps[0]), tail);
      ReadsPoints(e, ps[1..], rest);
      assert ps == [ps[0]] + ps[1..];
    }
  }

  lemma {:induction false} PointsAreCanonical(e: Codec, data: Bytes, n: nat)
    requires e.Canonical() && ReadPoints(e, data, n).Some?
    ensures var r := ReadPoints(e, data, n).value;
            |r.0| == n && data == WritePoints(e, r.0) + r.1
    decreases n
  {
    hide ReadField, Field;
    if n > 0 {
      var f := ReadField(data).value;
      FieldIsCanonical(data);
      PointsAreCanonical(e, f.1, n - 1);
      var r, rest := ReadPoints(e, data, n).value, ReadPoints(e, f.1, n - 1).value;
      assert r.0[1..] == rest.0;
      Regroup(Field(f.0), WritePoints(e, rest.0), rest.1);
    }
  }

  lemma {:induction false} ReadsScalars(e: Codec, ss: seq<Scalar>, rest: Bytes)
    requires e.Canonical()
    ensures ReadScalars(e, WriteScalars(e, ss) + rest, |ss|) == Some((ss, rest))
  {
    if ss == [] {
      assert WriteScalars(e, ss) + rest == rest;
    } else {
      var tail := WriteScalars(e, ss[1..]) + rest;
      assert WriteScalars(e, ss) + rest == Field(e.encS(ss[0])) + tail;
      ReadsField(e.encS(ss[0]), tail);
      ReadsScalars(e, ss[1..], rest);
      assert ss == [ss[0]] + ss[1..];
    }
  }

  lemma {:induction false} ScalarsAreCanonical(e: Codec, data: Bytes, n: nat)
    requires e.Canonical() && ReadScalars(e, data, n).Some?
    ensures var r := ReadScalars(e, data, n).value;
            |r.0| == n && data == WriteScalars(e, r.0) + r.1
    decreases n
  {
    hide ReadField, Field;
    if n > 0 {
      var f := ReadField(data).value;
      FieldIsCanonical(data);
      ScalarsAreCanonical(e, f.1, n - 1);
      var r, rest := ReadScalars(e, data, n).value, ReadScalars(e, f.1, n - 1).value;
      assert r.0[1..] == rest.0;
      Regroup(Field(f.0), WriteScalars(e, rest.0), rest.1);
    }
  }

  // ----- capsules -----

  function PointsOf(ct: CT): seq<G1> {
    [ct.Kp, ct.C.A, ct.C.B, ct.Pi.Ap, ct.Pi.Bp, ct.Pi.Yp]
  }

  function ScalarsOf(ct: CT): seq<Scalar> {
    [ct.Pi.KHat, ct.Pi.UHat]
  }

  function MarshalCT(e: Codec, ct: CT): Bytes {
    Int64(ct.I) + (Field(e.encGT(ct.Gamma)) + (WritePoints(e, PointsOf(ct)) + WriteScalars(e, ScalarsOf(ct))))
  }

  function UnmarshalCT(e: Codec, data: Bytes): Option<CT> {
    if |data| < 8 then None
    else
      var f := ReadField(data[8..]);
      if f.None? || e.decGT(f.value.0).None? then None
      else
        var ps := ReadPoints(e, f.value.1, 6);
        if ps.None? then None
        else
          var ss := ReadScalars(e, ps.value.1, 2);
          if ss.None? || ss.value.1 != [] || |ps.value.0| != 6 || |ss.value.0| != 2 then None
          else
            var p, s := ps.value.0, ss.value.0;
            Some(CT(FromInt64(data[..8]), e.decGT(f.value.0).value, p[0], EG.CT(p[1], p[2]),
                    Proof(p[3], p[4], p[5], s[0], s[1])))
  }

  lemma CapsuleRoundTrip(e: Codec, ct: CT)
    requires e.Canonical() && IsInt64(ct.I)
    ensures UnmarshalCT(e, MarshalCT(e, ct)) == Some(ct)
  {
    hide ReadField, Field, WritePoints, ReadPoints, WriteScalars, ReadScalars, FromInt64;
    var data := MarshalCT(e, ct);
    var ss := WriteScalars(e, ScalarsOf(ct));
    var tail := WritePoints(e, PointsOf(ct)) + ss;
    Int64RoundTrip(ct.I);
    assert data[..8] == Int64(ct.I) && data[8..] == Field(e.encGT(ct.Gamma)) + tail;
    ReadsField(e.encGT(ct.Gamma), tail);
    ReadsPoints(e, PointsOf(ct), ss);
    assert ss + [] == ss;
    ReadsScalars(e, ScalarsOf(ct), []);
  }

  lemma CapsuleIsCanonical(e: Codec, data: Bytes)
    requires e.Canonical() && UnmarshalCT(e, data).Some?
    ensures var ct := UnmarshalCT(e, data).value;
            IsInt64(ct.I) && MarshalCT(e, ct) == data
  {
    hide ReadField, Field, WritePoints, ReadPoints, WriteScalars, ReadScalars, FromInt64;
    var ct := UnmarshalCT(e, data).value;
    Int64Canonical(data[..8]);
    var f := ReadField(data[8..]).value;
    FieldIsCanonical(data[8..]);
    var ps := ReadPoints(e, f.1, 6).value;
    PointsAreCanonical(e, f.1, 6);
    ScalarsAreCanonical(e, ps.1, 2);
    assert PointsOf(ct) == ps.0;
    assert ScalarsOf(ct) == ReadScalars(e, ps.1, 2).value.0;
    assert WriteScalars(e, ScalarsOf(ct)) + [] == WriteScalars(e, ScalarsOf(ct));
    assert data == data[..8] + data[8..];
  }

  // ----- ciphertexts -----

  datatype Ciphertext = Ciphertext(capsule: CT, encryptedTx: Bytes)

  function VersionMagic(): Bytes {
    [0x62, 0x74, 0x65, 0x2d, 0x74, 0x78, 0x2d, 0x76, 0x32] // "bte-tx-v2"
  }

  const AEAD_NONCE_SIZE := 12
  const AEAD_TAG_SIZE := 16

  predicate ValidShape(n: nat, ct: Ciphertext) {
    0 <= ct.capsule.I < n && |ct.encryptedTx| >= AEAD_NONCE_SIZE + AEAD_TAG_SIZE
  }

  function Marshal(e: Codec, ct: Ciphertext): Bytes {
    VersionMagic() + (Field(MarshalCT(e, ct.capsule)) + Field(ct.encryptedTx))
  }

  function UnmarshalCiphertext(e: Codec, n: nat, data: Bytes): Option<Ciphertext> {
    if |data| < 9 || data[..9] != VersionMagic() then None
    else
      var f := ReadField(data[9..]);
      if f.None? then None
      else
        var capsule := UnmarshalCT(e, f.value.0);
        if capsule.None? then None
        else
          var g := ReadField(f.value.1);
          if g.None? || g.value.1 != [] then None
          else
            var ct := Ciphertext(capsule.value, g.value.0);
            if ValidShape(n, ct) then Some(ct) else None
  }

  /** What the platform can hold. */
  predicate Holdable(e: Codec, ct: Ciphertext) {
    IsInt64(ct.capsule.I) && Fits(ct.encryptedTx) && Fits(MarshalCT(e, ct.capsule))
  }

  /** Parsing undoes encoding, for exactly the ciphertexts of valid shape. */
  lemma CiphertextRoundTrip(e: Codec, n: nat, ct: Ciphertext)
    requires e.Canonical() && Holdable(e, ct)
    ensures UnmarshalCiphertext(e, n, Marshal(e, ct)) == if ValidShape(n, ct) then Some(ct) else None
  {
    hide ReadField, Field, MarshalCT, UnmarshalCT;
    var data := Marshal(e, ct);
    var c, x := MarshalCT(e, ct.capsule), ct.encryptedTx;
    assert data[..9] == VersionMagic() && data[9..] == Field(c) + Field(x);
    ReadsField(c, Field(x));
    CapsuleRoundTrip(e, ct.capsule);
    assert Field(x) + [] == Field(x);
    ReadsField(x, []);
  }

  /** Only bytes that re-encode to themselves are accepted. */
  lemma CiphertextIsCanonical(e: Codec, n: nat, data: Bytes)
    requires e.Canonical() && UnmarshalCiphertext(e, n, data).Some?
    ensures var ct := UnmarshalCiphertext(e, n, data).value;
            Marshal(e, ct) == data && ValidShape(n, ct)
  {
    hide ReadField, Field, MarshalCT, UnmarshalCT;
    var f := ReadField(data[9..]).value;
    FieldIsCanonical(data[9..]);
    CapsuleIsCanonical(e, f.0);
    FieldIsCanonical(f.1);
    var x := ReadField(f.1).value.0;
    assert Field(x) + [] == Field(x);
    assert data == data[..9] + data[9..];
  }

  // ----- the identity of a batch -----

  function BatchDomain(): Bytes {
    [0x62, 0x6c, 0x6f, 0x63, 0x2d, 0x62, 0x61, 0x74, 0x63, 0x68, 0x2d, 0x76, 0x32] // "bloc-batch-v2"
  }

  function Fields(raws: seq<Bytes>): Bytes {
    if raws == [] then [] else Field(raws[0]) + Fields(raws[1..])
  }

  /** What the batch id is the hash of. */
  function BatchPreimage(raws: seq<Bytes>): Bytes {
    BatchDomain() + Fields(raws)
  }

  ghost predicate AllFit(raws: seq<Bytes>) {
    forall i :: 0 <= i < |raws| ==> Fits(raws[i])
  }

  lemma {:induction false} FieldsInjective(a: seq<Bytes>, b: seq<Bytes>)
    requires AllFit(a) && AllFit(b) && Fields(a) == Fields(b)
    ensures a == b
  {
    if a == [] {
      assert b == [];
    } else {
      assert b != [];
      ReadsField(a[0], Fields(a[1..]));
      ReadsField(b[0], Fields(b[1..]));
      FieldsInjective(a[1..], b[1..]);
      assert a == [a[0]] + a[1..] && b == [b[0]] + b[1..];
    }
  }

  function MarshalAll(e: Codec, cts: seq<Ciphertext>): seq<Bytes> {
    seq(|cts|, i requires 0 <= i < |cts| => Marshal(e, cts[i]))
  }

  /** Different lists of ciphertexts have different preimages. */
  lemma PreimageInjective(e: Codec, n: nat, a: seq<Ciphertext>, b: seq<Ciphertext>)
    requires e.Canonical()
    requires forall ct :: ct in a || ct in b ==> Holdable(e, ct) && ValidShape(n, ct) && Fits(Marshal(e, ct))
    requires BatchPreimage(MarshalAll(e, a)) == BatchPreimage(MarshalAll(e, b))
    ensures a == b
  {
    hide Marshal, Fields, Holdable;
    var x, y := MarshalAll(e, a), MarshalAll(e, b);
    assert Fields(x) == BatchPreimage(x)[13..] && Fields(y) == BatchPreimage(y)[13..];
    assert forall i :: 0 <= i < |a| ==> a[i] in a;
    assert forall i :: 0 <= i < |b| ==> b[i] in b;
    FieldsInjective(x, y);
    assert |a| == |x| == |y| == |b|;
    forall i | 0 <= i < |a| ensures a[i] == b[i] {
      assert x[i] == y[i];
      CiphertextRoundTrip(e, n, a[i]);
      CiphertextRoundTrip(e, n, b[i]);
    }
  }
}
