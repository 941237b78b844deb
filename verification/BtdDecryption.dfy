/** Decrypting a batch: with enough correct shares the pads cancel and every message comes out. */
module BtdDecryption {
  import opened Options
  import opened Zq
  import opened Groups
  import EG = ElGamal
  import opened Prf
  import Shamir
  import opened Btd

  /** What a ciphertext was made of. */
  datatype Opening = Opening(k: Scalar, u: Scalar, m: GT)

  ghost predicate Opens(b: BTD, cts: seq<CT>, w: seq<Opening>)
    requires b.Sized()
  {
    |w| == |cts| && forall i :: 0 <= i < |cts| ==> Hides(b, cts[i], w[i].k, w[i].u, w[i].m)
  }

  function SumK(w: seq<Opening>): Scalar {
    if w == [] then 0 else Add(SumK(w[..|w| - 1]), w[|w| - 1].k)
  }

  function SumU(w: seq<Opening>): Scalar {
    if w == [] then 0 else Add(SumU(w[..|w| - 1]), w[|w| - 1].u)
  }

  /** The sum of the ciphertexts encrypts the power of the sum of their keys. */
  lemma {:induction false} SumEncrypts(b: BTD, cts: seq<CT>, w: seq<Opening>)
    requires b.Sized() && Opens(b, cts, w)
    ensures SumOf(cts) == EG.Enc(b.PK, MulG1(SumK(w), G1Base), SumU(w))
  {
    hide Mul, Add;
    if cts == [] {
      MulOne(1);
      MulOne(b.PK.log);
      AddZero(0);
    } else {
      var n := |cts| - 1;
      SumEncrypts(b, cts[..n], w[..n]);
      EG.EncAdds(b.PK, MulG1(SumK(w[..n]), G1Base), SumU(w[..n]), MulG1(w[n].k, G1Base), w[n].u);
      MulAdd(SumK(w[..n]), w[n].k, 1);
    }
  }

  lemma {:induction false} InDomain(b: BTD, cts: seq<CT>, w: seq<Opening>, i: nat)
    requires b.Sized() && Opens(b, cts, w) && i < |cts|
    ensures 0 <= cts[i].I < b.B
  {
  }

  /** The punctured evaluations of the first n, and the own pad if it is among them. */
  lemma {:induction false} PadsSum(b: BTD, d: Trapdoor, cts: seq<CT>, w: seq<Opening>, i: nat, n: nat)
    requires b.Sound(d) && b.Sized() && Opens(b, cts, w) && Distinct(Indices(cts)) && i < |cts| && n <= |cts|
    ensures Pads(b, cts, cts[i].I, n).Some?
    ensures var z := d.zi[cts[i].I];
            Add(Pads(b, cts, cts[i].I, n).value.log, if i < n then Mul(w[i].k, z) else 0) == Mul(SumK(w[..n]), z)
  {
    hide Mul, Add, Hides;
    InDomain(b, cts, w, i);
    var z := d.zi[cts[i].I];
    if n == 0 {
      MulOne(z);
      AddZero(0);
    } else {
      var j := n - 1;
      PadsSum(b, d, cts, w, i, j);
      assert w[..n][..j] == w[..j];
      MulAdd(SumK(w[..j]), w[j].k, z);
      var rest := Pads(b, cts, cts[i].I, j).value.log;
      if j == i {
        AddZero(rest);
      } else {
        assert Indices(cts)[i] != Indices(cts)[j];
        KeyOf(b, cts[j], w[j]);
        EvaluationsAgree(b.prf, d, w[j].k, cts[j].I, cts[i].I);
        if i < j {
          Shamir.Rotate(rest, Mul(w[i].k, z), Mul(w[j].k, z));
        } else {
          AddZero(rest);
          AddZero(Add(rest, Mul(w[j].k, z)));
        }
      }
    }
  }

  lemma {:induction false} KeyOf(b: BTD, ct: CT, w: Opening)
    requires b.Sized() && Hides(b, ct, w.k, w.u, w.m)
    ensures Puncture(b.prf, w.k, ct.I) == Some(ct.Kp)
    ensures Eval(b.prf, w.k, ct.I).Some? && ct.Gamma == AddGT(Eval(b.prf, w.k, ct.I).value, w.m)
  {
    hide Mul, Add;
  }

  /** (p + m) + o - s == m if o + p == s */
  lemma {:induction false} PadsCancel(p: Scalar, m: Scalar, o: Scalar, s: Scalar)
    requires Add(o, p) == s
    ensures Sub(Add(Add(p, m), o), s) == m
  {
    hide Add, Sub;
    Shamir.Rotate(p, m, o);
    AddComm(p, o);
    AddComm(s, m);
    SubAdd(m, s);
  }

  lemma {:induction false} UnpadsTo(b: BTD, d: Trapdoor, cts: seq<CT>, w: seq<Opening>, i: nat)
    requires b.Sound(d) && b.Sized() && Opens(b, cts, w) && Distinct(Indices(cts)) && i < |cts|
    ensures Unpad(b, cts, MulG1(SumK(w), G1Base), cts[i]) == Some(w[i].m)
  {
    hide Mul, Add, Sub, Hides;
    InDomain(b, cts, w, i);
    PadsSum(b, d, cts, w, i, |cts|);
    assert w[..|cts|] == w;
    KeyOf(b, cts[i], w[i]);
    EvaluationsAgree(b.prf, d, w[i].k, cts[i].I, cts[i].I);
    EvaluationsAgree(b.prf, d, SumK(w), cts[i].I, cts[i].I);
    var z := d.zi[cts[i].I];
    PadsCancel(Mul(w[i].k, z), w[i].m.log, Pads(b, cts, cts[i].I, |cts|).value.log, Mul(SumK(w), z));
  }

  function Messages(w: seq<Opening>): seq<GT> {
    seq(|w|, i requires 0 <= i < |w| => w[i].m)
  }

  lemma {:induction false} AllUnpad(b: BTD, d: Trapdoor, cts: seq<CT>, w: seq<Opening>, n: nat)
    requires b.Sound(d) && b.Sized() && Opens(b, cts, w) && Distinct(Indices(cts)) && n <= |cts|
    ensures UnpadAll(b, cts, MulG1(SumK(w), G1Base), n) == Some(Messages(w)[..n])
  {
    hide Unpad, Opens;
    SameLength(b, cts, w);
    if n > 0 {
      AllUnpad(b, d, cts, w, n - 1);
      UnpadsTo(b, d, cts, w, n - 1);
      assert Messages(w)[..n] == Messages(w)[..n - 1] + [w[n - 1].m];
    }
  }

  /** With t correct shares of distinct operators, every ciphertext of the batch gives its message. */
  lemma {:induction false} BatchDecrypts(b: BTD, d: Trapdoor, key: EG.Sharing, t: nat, cts: seq<CT>, w: seq<Opening>,
                                         shares: seq<EG.PubShare>)
    requires Shamir.IsField() && b.Sound(d) && b.Sized() && key.Sound(t) && b.PK == key.PublicKey()
    requires Opens(b, cts, w) && Admissible(b, cts, true)
    requires |shares| == t && EG.Correct(key, SumOf(cts), shares)
    ensures BatchCombine(b, cts, shares, true) == Some(Messages(w))
  {
    hide Mul, Add, Sub, Opens;
    SumEncrypts(b, cts, w);
    EG.CombineUndoesEnc(key, t, MulG1(SumK(w), G1Base), SumU(w), shares);
    AllUnpad(b, d, cts, w, |cts|);
    SameLength(b, cts, w);
    assert Messages(w)[..|cts|] == Messages(w);
  }

  lemma {:induction false} SameLength(b: BTD, cts: seq<CT>, w: seq<Opening>)
    requires b.Sized() && Opens(b, cts, w)
    ensures |w| == |cts|
  {
  }
}
