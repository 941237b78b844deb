/** The puncturable pseudorandom function and its reference string. */
module Prf {
  import opened Options
  import opened Zq
  import opened Groups

  /** What the setup publishes. */
  datatype PRF = PRF(
    B: nat,
    G1xi: seq<G1>,
    g2zi: seq<G2>,
    gTzi: seq<GT>,
    g2zixj: map<(int, int), G2>)

  /** What the setup draws; xInv holds the inverses of xi, by which it divides. */
  datatype Trapdoor = Trapdoor(xi: seq<Scalar>, xInv: seq<Scalar>, zi: seq<Scalar>) {
    ghost predicate Sound(B: nat) {
      && |xi| == |xInv| == |zi| == B
      && forall i :: 0 <= i < B ==> Mul(xi[i], xInv[i]) == 1
    }
  }

  /** The reference string was set up with this trapdoor. */
  ghost predicate SetUp(f: PRF, d: Trapdoor) {
    && d.Sound(f.B)
    && |f.G1xi| == |f.g2zi| == |f.gTzi| == f.B
    && (forall i :: 0 <= i < f.B ==>
          f.G1xi[i] == G1(d.xi[i]) && f.g2zi[i] == G2(d.zi[i]) && f.gTzi[i] == GT(d.zi[i]))
    && (forall i, j :: (i, j) in f.g2zixj <==> 0 <= i < f.B && 0 <= j < f.B)
    && (forall i, j :: 0 <= i < f.B && 0 <= j < f.B ==> f.g2zixj[(i, j)] == G2(Mul(d.zi[i], d.xInv[j])))
  }

  /** Fills the arrays and the table of the reference string from what was drawn. */
  method PRFSetup(d: Trapdoor, B: nat) returns (f: PRF)
    requires d.Sound(B)
    ensures f.B == B && SetUp(f, d)
  {
    var G1xi, g2zi, gTzi := new G1[B](_ => G1(0)), new G2[B](_ => G2(0)), new GT[B](_ => GT(0));
    for i := 0 to B
      invariant forall k :: 0 <= k < i ==> G1xi[k] == G1(d.xi[k]) && g2zi[k] == G2(d.zi[k]) && gTzi[k] == GT(d.zi[k])
    {
      G1xi[i], g2zi[i], gTzi[i] := G1(d.xi[i]), G2(d.zi[i]), GT(d.zi[i]);
    }
    var cross := CrossTable(d, B);
    f := PRF(B, G1xi[..], g2zi[..], gTzi[..], cross);
  }

  method CrossTable(d: Trapdoor, B: nat) returns (cross: map<(int, int), G2>)
    requires d.Sound(B)
    ensures forall i, j :: (i, j) in cross <==> 0 <= i < B && 0 <= j < B
    ensures forall i, j :: (i, j) in cross ==> cross[(i, j)] == G2(Mul(d.zi[i], d.xInv[j]))
  {
    cross := map[];
    for i := 0 to B
      invariant forall a, b :: (a, b) in cross <==> 0 <= a < i && 0 <= b < B
      invariant forall a, b :: (a, b) in cross ==> cross[(a, b)] == G2(Mul(d.zi[a], d.xInv[b]))
    {
      for j := 0 to B
        invariant forall a, b :: (a, b) in cross <==> (0 <= a < i && 0 <= b < B) || (a == i && 0 <= b < j)
        invariant forall a, b :: (a, b) in cross ==> cross[(a, b)] == G2(Mul(d.zi[a], d.xInv[b]))
      {
        cross := cross[(i, j) := G2(Mul(d.zi[i], d.xInv[j]))];
      }
    }
  }

  function Puncture(f: PRF, k: Scalar, i: int): Option<G1>
    requires |f.G1xi| == f.B
  {
    if 0 <= i < f.B then Some(MulG1(k, f.G1xi[i])) else None
  }

  function Eval(f: PRF, k: Scalar, i: int): Option<GT>
    requires |f.gTzi| == f.B
  {
    if 0 <= i < f.B then Some(MulGT(k, f.gTzi[i])) else None
  }

  function PEval(f: PRF, kp: G1, pi: int, i: int): Option<GT> {
    if 0 <= i < f.B && 0 <= pi < f.B && pi != i && (i, pi) in f.g2zixj then Some(Pair(kp, f.g2zixj[(i, pi)])) else None
  }

  function ExpEval(f: PRF, K: G1, i: int): Option<GT>
    requires |f.g2zi| == f.B
  {
    if 0 <= i < f.B then Some(Pair(K, f.g2zi[i])) else None
  }

  lemma Cancel(k: Scalar, x: Scalar, y: Scalar, z: Scalar)
    requires Mul(x, y) == 1
    ensures Mul(Mul(k, x), Mul(z, y)) == Mul(k, z)
  {
    hide Mul;
    calc {
      Mul(Mul(k, x), Mul(z, y));
      { MulComm(z, y); MulAssoc(k, x, Mul(y, z)); }
      Mul(k, Mul(x, Mul(y, z)));
      { MulAssoc(x, y, z); MulOne(z); }
      Mul(k, z);
    }
  }

  /** The three ways to evaluate agree: with the key, with its power, and, away from the
      punctured index, with the punctured key. */
  lemma EvaluationsAgree(f: PRF, d: Trapdoor, k: Scalar, pi: int, i: int)
    requires SetUp(f, d) && 0 <= i < f.B
    ensures ExpEval(f, MulG1(k, G1Base), i) == Eval(f, k, i) == Some(GT(Mul(k, d.zi[i])))
    ensures 0 <= pi < f.B && pi != i ==>
      Puncture(f, k, pi).Some? && PEval(f, Puncture(f, k, pi).value, pi, i) == Eval(f, k, i)
  {
    hide Mul;
    MulOne(k);
    if 0 <= pi < f.B && pi != i {
      Cancel(k, d.xi[pi], d.xInv[pi], d.zi[i]);
    }
  }
}
