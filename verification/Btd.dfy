/** Batched decryption: ciphertexts with a proof, decrypted together from shares of one sum. */
module Btd {
  import opened Options
  import opened Zq
  import opened Groups
  import EG = ElGamal
  import opened Prf
  import Shamir

  datatype Proof = Proof(Ap: G1, Bp: G1, Yp: G1, KHat: Scalar, UHat: Scalar)

  datatype CT = CT(I: int, Gamma: GT, Kp: G1, C: EG.CT, Pi: Proof)

  /** What the challenge is a hash of. */
  datatype Transcript = Transcript(B: nat, pk: G1, xi: G1, Ap: G1, Bp: G1, Yp: G1, I: int, Gamma: GT, Kp: G1, C: EG.CT)

  datatype BTD = BTD(prf: PRF, PK: G1, B: nat, challenge: Transcript -> Scalar) {
    ghost predicate Sound(d: Trapdoor) {
      prf.B == B && SetUp(prf, d)
    }

    /** What the code relies on when it indexes the reference string. */
    predicate Sized() {
      prf.B == B && |prf.G1xi| == |prf.g2zi| == |prf.gTzi| == B
    }
  }

  /** What an encryption draws. */
  datatype Coins = Coins(k: Scalar, u: Scalar, uN: Scalar, kN: Scalar)

  function SHash(b: BTD, pk: G1, ct: CT, Ap: G1, Bp: G1, Yp: G1): Scalar
    requires b.Sized() && 0 <= ct.I < b.B
  {
    b.challenge(Transcript(b.B, pk, b.prf.G1xi[ct.I], Ap, Bp, Yp, ct.I, ct.Gamma, ct.Kp, ct.C))
  }

  function Enc(b: BTD, pk: G1, i: int, m: GT, r: Coins): Option<CT>
    requires b.Sized()
  {
    var kp := Puncture(b.prf, r.k, i);
    var pad := Eval(b.prf, r.k, i);
    if kp.None? || pad.None? then None
    else
      var Ap := MulG1(r.uN, G1Base);
      var Bp := AddG1(MulG1(r.uN, b.PK), MulG1(r.kN, G1Base));
      var Yp := MulG1(r.kN, b.prf.G1xi[i]);
      var ct := CT(i, AddGT(pad.value, m), kp.value, EG.Enc(pk, MulG1(r.k, G1Base), r.u), Proof(Ap, Bp, Yp, 0, 0));
      var h := SHash(b, pk, ct, Ap, Bp, Yp);
      Some(ct.(Pi := Proof(Ap, Bp, Yp, Add(r.kN, Mul(r.k, h)), Add(r.uN, Mul(r.u, h)))))
  }

  /** The proof's three equations under challenge h. */
  predicate Accepts(b: BTD, ct: CT, h: Scalar)
    requires b.Sized() && 0 <= ct.I < b.B
  {
    && MulG1(ct.Pi.UHat, G1Base) == AddG1(ct.Pi.Ap, MulG1(h, ct.C.A))
    && AddG1(MulG1(ct.Pi.UHat, b.PK), MulG1(ct.Pi.KHat, G1Base)) == AddG1(ct.Pi.Bp, MulG1(h, ct.C.B))
    && MulG1(ct.Pi.KHat, b.prf.G1xi[ct.I]) == AddG1(ct.Pi.Yp, MulG1(h, ct.Kp))
  }

  /** An index out of the domain is an error. */
  function VerifyCT(b: BTD, ct: CT): Option<bool>
    requires b.Sized()
  {
    if 0 <= ct.I < b.B
    then Some(Accepts(b, ct, SHash(b, b.PK, ct, ct.Pi.Ap, ct.Pi.Bp, ct.Pi.Yp)))
    else None
  }

  // ----- the proof -----

  /** The ciphertext hides m under the pad of key k, with the punctured and the encrypted key to match. */
  ghost predicate Hides(b: BTD, ct: CT, k: Scalar, u: Scalar, m: GT)
    requires b.Sized()
  {
    && 0 <= ct.I < b.B
    && ct.Kp == MulG1(k, b.prf.G1xi[ct.I])
    && ct.C == EG.Enc(b.PK, MulG1(k, G1Base), u)
    && ct.Gamma == AddGT(MulGT(k, b.prf.gTzi[ct.I]), m)
  }

  /** (n + s h) g == n g + h (s g) */
  lemma Response(n: Scalar, s: Scalar, h: Scalar, g: Scalar)
    ensures Mul(Add(n, Mul(s, h)), g) == Add(Mul(n, g), Mul(h, Mul(s, g)))
  {
    hide Mul, Add;
    MulAdd(n, Mul(s, h), g);
    MulComm(s, h);
    MulAssoc(h, s, g);
  }

  /** An encryption under the cluster's key is accepted, and hides its message. */
  lemma EncVerifies(b: BTD, i: int, m: GT, r: Coins)
    requires b.Sized() && 0 <= i < b.B
    ensures Enc(b, b.PK, i, m, r).Some?
    ensures var ct := Enc(b, b.PK, i, m, r).value;
            VerifyCT(b, ct) == Some(true) && Hides(b, ct, r.k, r.u, m) && ct.I == i
  {
    hide Mul, Add;
    var ct := Enc(b, b.PK, i, m, r).value;
    var h := SHash(b, b.PK, ct, ct.Pi.Ap, ct.Pi.Bp, ct.Pi.Yp);
    Response(r.uN, r.u, h, 1);
    Response(r.uN, r.u, h, b.PK.log);
    Response(r.kN, r.k, h, 1);
    Response(r.kN, r.k, h, b.prf.G1xi[i].log);
    MulAdd(Mul(r.u, b.PK.log), Mul(r.k, 1), h);
    Shamir.Shuffle(Mul(r.uN, b.PK.log), Mul(h, Mul(r.u, b.PK.log)), Mul(r.kN, 1), Mul(h, Mul(r.k, 1)));
  }

  /** From two answers to different challenges the scalar behind a point is computed. */
  lemma Extract(p: Scalar, q: Scalar, g: Scalar, a: Scalar, h: Scalar, s: Scalar, y: Scalar)
    requires Shamir.IsField() && h != s
    requires Mul(p, g) == Add(a, Mul(h, y)) && Mul(q, g) == Add(a, Mul(s, y))
    ensures Sub(h, s) != 0 && y == Mul(Mul(Sub(p, q), Shamir.Inv(Sub(h, s))), g)
  {
    hide Mul, Add, Sub;
    Shamir.SubZero(h, s);
    var d, i := Sub(h, s), Shamir.Inv(Sub(h, s));
    MulSub(p, q, g);
    MulSub(h, s, y);
    Difference(a, Mul(h, y), Mul(s, y));
    assert Mul(Sub(p, q), g) == Mul(d, y);
    calc {
      Mul(Mul(Sub(p, q), i), g);
      { MulComm(Sub(p, q), i); MulAssoc(i, Sub(p, q), g); }
      Mul(i, Mul(d, y));
      { MulAssoc(i, d, y); MulComm(i, d); MulOne(y); }
      y;
    }
  }

  /** (a + x) - (a + y) == x - y */
  lemma Difference(a: Scalar, x: Scalar, y: Scalar)
    ensures Sub(Add(a, x), Add(a, y)) == Sub(x, y)
  {
    hide Add, Sub;
    var d := Sub(x, y);
    SubAdd(x, y);
    AddComm(d, y);
    AddAssoc(a, y, d);
    AddComm(Add(a, y), d);
    SubAdd(d, Add(a, y));
  }

  /** The same for a point with two scalars behind it. */
  lemma ExtractTwo(u: Scalar, v: Scalar, g: Scalar, k: Scalar, l: Scalar, a: Scalar, h: Scalar, s: Scalar, y: Scalar)
    requires Shamir.IsField() && h != s
    requires Add(Mul(u, g), Mul(k, 1)) == Add(a, Mul(h, y)) && Add(Mul(v, g), Mul(l, 1)) == Add(a, Mul(s, y))
    ensures Sub(h, s) != 0
    ensures var i := Shamir.Inv(Sub(h, s));
            y == Add(Mul(Mul(Sub(u, v), i), g), Mul(Mul(Sub(k, l), i), 1))
  {
    hide Mul, Add, Sub;
    Shamir.SubZero(h, s);
    var d, i := Sub(h, s), Shamir.Inv(Sub(h, s));
    Difference(a, Mul(h, y), Mul(s, y));
    MulSub(h, s, y);
    DifferenceOfSums(Mul(u, g), Mul(k, 1), Mul(v, g), Mul(l, 1));
    MulSub(u, v, g);
    MulSub(k, l, 1);
    assert Mul(d, y) == Add(Mul(Sub(u, v), g), Mul(Sub(k, l), 1));
    calc {
      y;
      { MulAssoc(i, d, y); MulComm(i, d); MulOne(y); }
      Mul(i, Add(Mul(Sub(u, v), g), Mul(Sub(k, l), 1)));
      { MulAdd(Mul(Sub(u, v), g), Mul(Sub(k, l), 1), i); }
      Add(Mul(i, Mul(Sub(u, v), g)), Mul(i, Mul(Sub(k, l), 1)));
      { MulAssoc(i, Sub(u, v), g); MulComm(i, Sub(u, v)); MulAssoc(i, Sub(k, l), 1); MulComm(i, Sub(k, l)); }
      Add(Mul(Mul(Sub(u, v), i), g), Mul(Mul(Sub(k, l), i), 1));
    }
  }

  /** (a + b) - (x + y) == (a - x) + (b - y) */
  lemma DifferenceOfSums(a: Scalar, b: Scalar, x: Scalar, y: Scalar)
    ensures Sub(Add(a, b), Add(x, y)) == Add(Sub(a, x), Sub(b, y))
  {
    hide Add, Sub;
    Shamir.Shuffle(Sub(a, x), Sub(b, y), x, y);
    SubAdd(a, x);
    SubAdd(b, y);
    SubAdd(Add(Sub(a, x), Sub(b, y)), Add(x, y));
  }

  /** The proof is one of knowledge: answers to two challenges on the same commitments reveal the key
      and the randomness with which the ciphertext was made, so it hides a message. */
  lemma TwoAnswersReveal(b: BTD, ct: CT, h: Scalar, K: Scalar, U: Scalar, s: Scalar)
    requires Shamir.IsField() && b.Sized() && 0 <= ct.I < b.B && h != s
    requires Accepts(b, ct, h) && Accepts(b, ct.(Pi := ct.Pi.(KHat := K, UHat := U)), s)
    ensures Sub(h, s) != 0
    ensures var i := Shamir.Inv(Sub(h, s));
            var k, u := Mul(Sub(ct.Pi.KHat, K), i), Mul(Sub(ct.Pi.UHat, U), i);
            Hides(b, ct, k, u, SubGT(ct.Gamma, MulGT(k, b.prf.gTzi[ct.I])))
  {
    hide Mul, Add, Sub;
    Extract(ct.Pi.UHat, U, 1, ct.Pi.Ap.log, h, s, ct.C.A.log);
    Extract(ct.Pi.KHat, K, b.prf.G1xi[ct.I].log, ct.Pi.Yp.log, h, s, ct.Kp.log);
    ExtractTwo(ct.Pi.UHat, U, b.PK.log, ct.Pi.KHat, K, ct.Pi.Bp.log, h, s, ct.C.B.log);
    var k := Mul(Sub(ct.Pi.KHat, K), Shamir.Inv(Sub(h, s)));
    var pad := MulGT(k, b.prf.gTzi[ct.I]).log;
    SubAdd(ct.Gamma.log, pad);
    AddComm(pad, Sub(ct.Gamma.log, pad));
  }

  // ----- batches -----

  function Indices(cts: seq<CT>): seq<int> {
    seq(|cts|, i requires 0 <= i < |cts| => cts[i].I)
  }

  predicate Distinct(s: seq<int>) {
    forall i, j :: 0 <= i < j < |s| ==> s[i] != s[j]
  }

  predicate AllVerify(b: BTD, cts: seq<CT>)
    requires b.Sized()
  {
    forall i :: 0 <= i < |cts| ==> VerifyCT(b, cts[i]) == Some(true)
  }

  function SumOf(cts: seq<CT>): EG.CT {
    if cts == [] then EG.NullCT else EG.AddCT(SumOf(cts[..|cts| - 1]), cts[|cts| - 1].C)
  }

  /** What the two batch operations ask of a batch before they work on its sum. */
  predicate Admissible(b: BTD, cts: seq<CT>, verify: bool)
    requires b.Sized()
  {
    |cts| <= b.B && Distinct(Indices(cts)) && (verify ==> AllVerify(b, cts))
  }

  method ValidateDistinctIndices(cts: seq<CT>) returns (err: bool)
    ensures err <==> !Distinct(Indices(cts))
  {
    var seen: set<int> := {};
    for i := 0 to |cts|
      invariant forall x :: x in seen <==> x in Indices(cts)[..i]
      invariant Distinct(Indices(cts)[..i])
    {
      if cts[i].I in seen {
        var j :| 0 <= j < i && Indices(cts)[..i][j] == cts[i].I;
        assert Indices(cts)[j] == Indices(cts)[i];
        return true;
      }
      assert Indices(cts)[..i + 1] == Indices(cts)[..i] + [cts[i].I];
      seen := seen + {cts[i].I};
    }
    assert Indices(cts)[..|cts|] == Indices(cts);
    err := false;
  }

  method SumEGCt(b: BTD, cts: seq<CT>, verify: bool) returns (sum: Option<EG.CT>)
    requires b.Sized()
    ensures sum == if verify ==> AllVerify(b, cts) then Some(SumOf(cts)) else None
  {
    var acc := EG.NullCT;
    for i := 0 to |cts|
      invariant acc == SumOf(cts[..i])
      invariant verify ==> AllVerify(b, cts[..i])
    {
      if verify {
        var ok := VerifyCT(b, cts[i]);
        if ok != Some(true) {
          return None;
        }
      }
      assert cts[..i + 1][..i] == cts[..i];
      acc := EG.AddCT(acc, cts[i].C);
    }
    assert cts[..|cts|] == cts;
    sum := Some(acc);
  }

  function BatchDec(b: BTD, cts: seq<CT>, sk: EG.PriShare, verify: bool): Option<EG.PubShare>
    requires b.Sized()
  {
    if Admissible(b, cts, verify) then Some(EG.PDecWithShare(SumOf(cts), sk)) else None
  }

  method BatchDecWithShare(b: BTD, cts: seq<CT>, sk: EG.PriShare, verify: bool) returns (r: Option<EG.PubShare>)
    requires b.Sized()
    ensures r == BatchDec(b, cts, sk, verify)
  {
    if |cts| > b.B {
      return None;
    }
    var err := ValidateDistinctIndices(cts);
    if err {
      return None;
    }
    var C := SumEGCt(b, cts, verify);
    r := if C.Some? then Some(EG.PDecWithShare(C.value, sk)) else None;
  }

  /** The punctured evaluations at index i of the first n ciphertexts, but for those punctured at i. */
  function Pads(b: BTD, cts: seq<CT>, i: int, n: nat): Option<GT>
    requires n <= |cts|
  {
    if n == 0 then Some(GT(0))
    else
      var rest := Pads(b, cts, i, n - 1);
      var j := cts[n - 1].I;
      if rest.None? || j == i then rest
      else
        var e := PEval(b.prf, cts[n - 1].Kp, j, i);
        if e.None? then None else Some(AddGT(rest.value, e.value))
  }

  /** The message of one ciphertext, given the sum's decryption K. */
  function Unpad(b: BTD, cts: seq<CT>, K: G1, ct: CT): Option<GT>
    requires b.Sized()
  {
    var whole := ExpEval(b.prf, K, ct.I);
    var others := Pads(b, cts, ct.I, |cts|);
    if whole.None? || others.None? then None
    else Some(SubGT(AddGT(ct.Gamma, others.value), whole.value))
  }

  function UnpadAll(b: BTD, cts: seq<CT>, K: G1, n: nat): Option<seq<GT>>
    requires b.Sized() && n <= |cts|
  {
    if n == 0 then Some([])
    else
      var rest := UnpadAll(b, cts, K, n - 1);
      var m := Unpad(b, cts, K, cts[n - 1]);
      if rest.None? || m.None? then None else Some(rest.value + [m.value])
  }

  function BatchCombine(b: BTD, cts: seq<CT>, shares: seq<EG.PubShare>, verify: bool): Option<seq<GT>>
    requires b.Sized() && Shamir.IsField()
  {
    if Admissible(b, cts, verify) then UnpadAll(b, cts, EG.Combine(SumOf(cts), shares), |cts|) else None
  }

  method BatchCombineMessages(b: BTD, cts: seq<CT>, shares: seq<EG.PubShare>, verify: bool) returns (r: Option<seq<GT>>)
    requires b.Sized() && Shamir.IsField()
    ensures r == BatchCombine(b, cts, shares, verify)
  {
    if |cts| > b.B {
      return None;
    }
    var err := ValidateDistinctIndices(cts);
    if err {
      return None;
    }
    var C := SumEGCt(b, cts, verify);
    if C.None? {
      return None;
    }
    var K := EG.Combine(C.value, shares);
    var msgs: seq<GT> := [];
    for idx := 0 to |cts|
      invariant UnpadAll(b, cts, K, idx) == Some(msgs)
    {
      var m := UnpadOne(b, cts, K, cts[idx]);
      if m.None? {
        UnpadFails(b, cts, K, idx, |cts|);
        return None;
      }
      msgs := msgs + [m.value];
    }
    r := Some(msgs);
  }

  lemma {:induction false} UnpadFails(b: BTD, cts: seq<CT>, K: G1, i: nat, n: nat)
    requires b.Sized() && i < n <= |cts| && Unpad(b, cts, K, cts[i]).None?
    ensures UnpadAll(b, cts, K, n).None?
  {
    if i < n - 1 { UnpadFails(b, cts, K, i, n - 1); }
  }

  method UnpadOne(b: BTD, cts: seq<CT>, K: G1, ct: CT) returns (m: Option<GT>)
    requires b.Sized()
    ensures m == Unpad(b, cts, K, ct)
  {
    var whole := ExpEval(b.prf, K, ct.I);
    if whole.None? {
      return None;
    }
    var sum := GT(0);
    for j := 0 to |cts|
      invariant Pads(b, cts, ct.I, j) == Some(sum)
    {
      var ji := cts[j].I;
      if ji == ct.I {
        continue;
      }
      var peval := PEval(b.prf, cts[j].Kp, ji, ct.I);
      if peval.None? {
        PadsFail(b, cts, ct.I, j + 1, |cts|);
        return None;
      }
      sum := AddGT(sum, peval.value);
    }
    m := Some(SubGT(AddGT(ct.Gamma, sum), whole.value));
  }

  lemma {:induction false} PadsFail(b: BTD, cts: seq<CT>, i: int, k: nat, n: nat)
    requires k <= n <= |cts| && Pads(b, cts, i, k).None?
    ensures Pads(b, cts, i, n).None?
  {
    if k < n { PadsFail(b, cts, i, k, n - 1); }
  }
}
