/** Threshold ElGamal: ciphertexts add up, and shares of a decryption combine. */
module ElGamal {
  import opened Zq
  import opened Groups
  import Shamir

  datatype CT = CT(A: G1, B: G1)

  datatype PriShare = PriShare(I: nat, V: Scalar)
  datatype PubShare = PubShare(I: nat, V: G1)

  const NullCT := CT(G1(0), G1(0))

  function AddCT(a: CT, b: CT): CT {
    CT(AddG1(a.A, b.A), AddG1(a.B, b.B))
  }

  /** The randomness u is the caller's. */
  function Enc(pk: G1, m: G1, u: Scalar): CT {
    CT(MulG1(u, G1Base), AddG1(MulG1(u, pk), m))
  }

  function PDecWithShare(c: CT, s: PriShare): PubShare {
    PubShare(s.I, MulG1(s.V, c.A))
  }

  /** Share I is the polynomial's value here. */
  function Abscissa(i: nat): Scalar {
    Red(i + 1)
  }

  function Abscissas(shares: seq<PubShare>): seq<Scalar> {
    seq(|shares|, i requires 0 <= i < |shares| => Abscissa(shares[i].I))
  }

  /** The share library's interpolation at zero, through all the shares given. */
  function RecoverFrom(X: seq<Scalar>, shares: seq<PubShare>): G1
    requires Shamir.IsField()
  {
    if shares == [] then G1(0)
    else
      var s := shares[|shares| - 1];
      AddG1(RecoverFrom(X, shares[..|shares| - 1]), MulG1(Shamir.Weight(X, Abscissa(s.I)), s.V))
  }

  function RecoverCommit(shares: seq<PubShare>): G1
    requires Shamir.IsField()
  {
    RecoverFrom(Abscissas(shares), shares)
  }

  function Combine(c: CT, shares: seq<PubShare>): G1
    requires Shamir.IsField()
  {
    SubG1(c.B, RecoverCommit(shares))
  }

  // ----- key sharing -----

  /** The operators' shares of the key sk under a polynomial of t coefficients. */
  datatype Sharing = Sharing(poly: seq<Scalar>, n: nat) {
    ghost predicate Sound(t: nat) {
      |poly| == t >= 1 && n < Q
    }

    function Secret(): Scalar {
      Shamir.Eval(poly, 0)
    }

    function ShareOf(i: nat): PriShare {
      PriShare(i, Shamir.Eval(poly, Abscissa(i)))
    }

    function PublicKey(): G1 {
      MulG1(Secret(), G1Base)
    }
  }

  /** Shares of distinct operators, each the right one for this ciphertext. */
  ghost predicate Correct(d: Sharing, c: CT, shares: seq<PubShare>) {
    && (forall i :: 0 <= i < |shares| ==> shares[i].I < d.n && shares[i] == PDecWithShare(c, d.ShareOf(shares[i].I)))
    && (forall i, j :: 0 <= i < j < |shares| ==> shares[i].I != shares[j].I)
  }

  lemma DistinctAbscissas(d: Sharing, shares: seq<PubShare>)
    requires d.n < Q && forall i :: 0 <= i < |shares| ==> shares[i].I < d.n
    requires forall i, j :: 0 <= i < j < |shares| ==> shares[i].I != shares[j].I
    ensures Shamir.Points(Abscissas(shares))
  {
    forall i | 0 <= i < |shares| ensures Abscissas(shares)[i] == shares[i].I + 1 {
      RedSmall(shares[i].I + 1);
    }
  }

  lemma {:induction false} RecoverIsSum(d: Sharing, c: CT, X: seq<Scalar>, shares: seq<PubShare>, f: Scalar -> Scalar)
    requires Shamir.IsField() && Correct(d, c, shares)
    requires forall x: Scalar :: f(x) == Shamir.Eval(d.poly, x)
    ensures RecoverFrom(X, shares) == G1(Mul(Shamir.WSum(X, Abscissas(shares), f), c.A.log))
  {
    hide Mul, Add, Shamir.Weight, Shamir.Eval;
    if shares == [] {
      MulOne(c.A.log);
    } else {
      var r, s := shares[..|shares| - 1], shares[|shares| - 1];
      RecoverIsSum(d, c, X, r, f);
      assert Abscissas(shares)[..|shares| - 1] == Abscissas(r);
      var x := Abscissa(s.I);
      MulAdd(Shamir.WSum(X, Abscissas(r), f), Mul(Shamir.Weight(X, x), f(x)), c.A.log);
      MulAssoc(Shamir.Weight(X, x), f(x), c.A.log);
    }
  }

  /** t correct shares of distinct operators recover the masking point. */
  lemma RecoverGivesMask(d: Sharing, t: nat, c: CT, shares: seq<PubShare>)
    requires Shamir.IsField() && d.Sound(t) && Correct(d, c, shares) && |shares| == t
    ensures RecoverCommit(shares) == MulG1(d.Secret(), c.A)
  {
    hide Mul, Add, Shamir.Weight, Shamir.Eval;
    var f: Scalar -> Scalar := x => Shamir.Eval(d.poly, x);
    RecoverIsSum(d, c, Abscissas(shares), shares, f);
    DistinctAbscissas(d, shares);
    Shamir.InterpolatesUpTo(Abscissas(shares), d.poly, f);
  }

  /** Decryption with t correct shares undoes encryption under the shared key. */
  lemma CombineUndoesEnc(d: Sharing, t: nat, m: G1, u: Scalar, shares: seq<PubShare>)
    requires Shamir.IsField() && d.Sound(t) && |shares| == t
    requires Correct(d, Enc(d.PublicKey(), m, u), shares)
    ensures Combine(Enc(d.PublicKey(), m, u), shares) == m
  {
    hide Mul, Add, Sub;
    var c, sk := Enc(d.PublicKey(), m, u), d.Secret();
    RecoverGivesMask(d, t, c, shares);
    MulOne(u);
    MulOne(sk);
    MulComm(sk, u);
    AddComm(Mul(u, sk), m.log);
    SubAdd(m.log, Mul(u, sk));
  }

  /** The sum of encryptions under one key encrypts the sum. */
  lemma EncAdds(pk: G1, m: G1, u: Scalar, n: G1, v: Scalar)
    ensures AddCT(Enc(pk, m, u), Enc(pk, n, v)) == Enc(pk, AddG1(m, n), Add(u, v))
  {
    hide Mul, Add;
    MulAdd(u, v, 1);
    MulAdd(u, v, pk.log);
    Shamir.Shuffle(Mul(u, pk.log), m.log, Mul(v, pk.log), n.log);
  }
}
