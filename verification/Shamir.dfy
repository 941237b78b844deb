/** Polynomial sharing: enough distinct shares interpolate to the shared value. */
module Shamir {
  import opened Zq

  predicate Inverts(a: Scalar, b: Scalar) {
    Mul(a, b) == 1
  }

  ghost predicate Invertible(a: Scalar) {
    exists b: Scalar :: Inverts(a, b)
  }

  /** As for a prime group order: what is not zero has an inverse. */
  ghost predicate IsField() {
    forall a: Scalar :: a != 0 ==> Invertible(a)
  }

  lemma OneInverse(a: Scalar, b: Scalar, c: Scalar)
    requires Inverts(a, b) && Inverts(a, c)
    ensures b == c
  {
    hide Mul;
    MulComm(a, b);
    MulAssoc(b, a, c);
    MulOne(b);
    MulOne(c);
  }

  function Inv(a: Scalar): (r: Scalar)
    requires IsField() && a != 0
    ensures Mul(a, r) == 1
  {
    assert Invertible(a);
    assert forall b: Scalar, c: Scalar :: Inverts(a, b) && Inverts(a, c) ==> b == c by {
      forall b: Scalar, c: Scalar | Inverts(a, b) && Inverts(a, c) ensures b == c {
        OneInverse(a, b, c);
      }
    }
    var b: Scalar :| Inverts(a, b); b
  }

  /** The polynomial with these coefficients, the constant one first. */
  function Eval(p: seq<Scalar>, x: Scalar): Scalar {
    if p == [] then 0 else Add(p[0], Mul(x, Eval(p[1..], x)))
  }

  ghost predicate Points(X: seq<Scalar>) {
    && (forall i :: 0 <= i < |X| ==> X[i] != 0)
    && (forall i, j :: 0 <= i < j < |X| ==> X[i] != X[j])
  }

  lemma SubZero(a: Scalar, b: Scalar)
    ensures Sub(a, b) == 0 <==> a == b
  {
    SubAdd(a, b);
    AddZero(b);
    RedSmall(0);
  }

  /** The weight of point x at zero: the product of y / (y - x) over the other points y. */
  function Weight(X: seq<Scalar>, x: Scalar): Scalar
    requires IsField()
  {
    if X == [] then 1
    else
      var y := X[|X| - 1];
      var w := Weight(X[..|X| - 1], x);
      SubZero(y, x);
      if y == x then w else Mul(w, Mul(y, Inv(Sub(y, x))))
  }

  /** The values of f at the points xs, weighted within X. */
  function WSum(X: seq<Scalar>, xs: seq<Scalar>, f: Scalar -> Scalar): Scalar
    requires IsField()
  {
    if xs == [] then 0
    else
      var x := xs[|xs| - 1];
      Add(WSum(X, xs[..|xs| - 1], f), Mul(Weight(X, x), f(x)))
  }

  // ----- weights -----

  /** Dropping a point y divides the weight of x by y / (y - x). */
  lemma DropFactor(u: Scalar, y: Scalar, d: Scalar, i: Scalar)
    requires Mul(d, i) == 1
    ensures Mul(Mul(u, Mul(y, i)), d) == Mul(y, u)
  {
    hide Mul;
    calc {
      Mul(Mul(u, Mul(y, i)), d);
      { MulAssoc(u, y, i); MulAssoc(Mul(u, y), i, d); MulComm(i, d); }
      Mul(Mul(u, y), 1);
      { MulOne(Mul(u, y)); MulComm(u, y); }
      Mul(y, u);
    }
  }

  lemma DropLast(X: seq<Scalar>, x: Scalar)
    requires IsField() && X != [] && X[|X| - 1] != x
    ensures var y := X[|X| - 1];
            Mul(Weight(X, x), Sub(y, x)) == Mul(y, Weight(X[..|X| - 1], x))
  {
    hide Mul, Sub;
    var y := X[|X| - 1];
    SubZero(y, x);
    DropFactor(Weight(X[..|X| - 1], x), y, Sub(y, x), Inv(Sub(y, x)));
  }

  lemma {:induction false} DropFirst(X: seq<Scalar>, x: Scalar)
    requires IsField() && X != [] && X[0] != x
    ensures Mul(Weight(X, x), Sub(X[0], x)) == Mul(X[0], Weight(X[1..], x))
  {
    hide Mul, Sub;
    if |X| == 1 {
      DropLast(X, x);
      assert X[..0] == X[1..] == [];
    } else {
      var y, R := X[|X| - 1], X[..|X| - 1];
      DropFirst(R, x);
      assert R[1..] == X[1..][..|X| - 2] && X[1..][|X| - 2] == y;
      if y != x {
        SubZero(y, x);
        var g := Mul(y, Inv(Sub(y, x)));
        var w, v, d := Weight(R, x), Weight(R[1..], x), Sub(X[0], x);
        calc {
          Mul(Mul(w, g), d);
          { MulAssoc(w, g, d); MulComm(g, d); MulAssoc(w, d, g); }
          Mul(Mul(w, d), g);
          { MulAssoc(X[0], v, g); }
          Mul(X[0], Mul(v, g));
        }
      }
    }
  }

  // ----- sums -----

  lemma {:induction false} SumScales(X: seq<Scalar>, xs: seq<Scalar>, f: Scalar -> Scalar, g: Scalar -> Scalar,
                                     c: Scalar)
    requires IsField() && forall x: Scalar :: g(x) == Mul(c, f(x))
    ensures WSum(X, xs, g) == Mul(c, WSum(X, xs, f))
  {
    hide Mul, Add, Weight;
    if xs == [] {
      MulOne(c);
    } else {
      var r, x := xs[..|xs| - 1], xs[|xs| - 1];
      SumScales(X, r, f, g, c);
      MulAdd(WSum(X, r, f), Mul(Weight(X, x), f(x)), c);
      MulAssoc(Weight(X, x), c, f(x));
      MulAssoc(c, Weight(X, x), f(x));
      MulComm(c, Weight(X, x));
    }
  }

  lemma {:induction false} SumAdds(X: seq<Scalar>, xs: seq<Scalar>, f: Scalar -> Scalar, g: Scalar -> Scalar,
                                   h: Scalar -> Scalar)
    requires IsField() && forall x: Scalar :: h(x) == Add(f(x), g(x))
    ensures WSum(X, xs, h) == Add(WSum(X, xs, f), WSum(X, xs, g))
  {
    hide Mul, Add, Weight;
    if xs == [] {
      AddZero(0);
    } else {
      var r, x := xs[..|xs| - 1], xs[|xs| - 1];
      SumAdds(X, r, f, g, h);
      MulAdd(f(x), g(x), Weight(X, x));
      Shuffle(WSum(X, r, f), WSum(X, r, g), Mul(Weight(X, x), f(x)), Mul(Weight(X, x), g(x)));
    }
  }

  lemma Shuffle(a: Scalar, b: Scalar, c: Scalar, d: Scalar)
    ensures Add(Add(a, b), Add(c, d)) == Add(Add(a, c), Add(b, d))
  {
    hide Add;
    calc {
      Add(Add(a, b), Add(c, d));
      { AddAssoc(a, b, Add(c, d)); AddAssoc(b, c, d); AddComm(b, c); AddAssoc(c, b, d); }
      Add(a, Add(c, Add(b, d)));
      { AddAssoc(a, c, Add(b, d)); }
      Add(Add(a, c), Add(b, d));
    }
  }

  // ----- x = b - (b - x) -----

  lemma OneTerm(w: Scalar, u: Scalar, x: Scalar, b: Scalar, v: Scalar)
    requires Mul(w, Sub(b, x)) == Mul(b, u)
    ensures Add(Mul(w, Mul(x, v)), Mul(b, Mul(u, v))) == Mul(b, Mul(w, v))
  {
    hide Mul, Add, Sub;
    calc {
      Mul(b, Mul(u, v));
      { MulAssoc(b, u, v); MulAssoc(w, Sub(b, x), v); }
      Mul(w, Mul(Sub(b, x), v));
    }
    calc {
      Add(Mul(w, Mul(x, v)), Mul(w, Mul(Sub(b, x), v)));
      { MulAdd(Mul(x, v), Mul(Sub(b, x), v), w); MulAdd(x, Sub(b, x), v); AddComm(x, Sub(b, x)); SubAdd(b, x); }
      Mul(w, Mul(b, v));
      { MulAssoc(w, b, v); MulComm(w, b); MulAssoc(b, w, v); }
      Mul(b, Mul(w, v));
    }
  }

  /** Summing x f(x) over some points other than the last of X, against the weights without that point. */
  lemma {:induction false} Deflate(X: seq<Scalar>, xs: seq<Scalar>, f: Scalar -> Scalar, g: Scalar -> Scalar)
    requires IsField() && X != [] && (forall x: Scalar :: g(x) == Mul(x, f(x)))
    requires forall i :: 0 <= i < |xs| ==> xs[i] != X[|X| - 1]
    ensures var b := X[|X| - 1];
            Add(WSum(X, xs, g), Mul(b, WSum(X[..|X| - 1], xs, f))) == Mul(b, WSum(X, xs, f))
  {
    hide Mul, Add, Sub, Weight;
    var b, Y := X[|X| - 1], X[..|X| - 1];
    if xs == [] {
      MulOne(b);
      AddZero(0);
    } else {
      var r, x := xs[..|xs| - 1], xs[|xs| - 1];
      Deflate(X, r, f, g);
      DropLast(X, x);
      var w, u, v := Weight(X, x), Weight(Y, x), f(x);
      OneTerm(w, u, x, b, v);
      calc {
        Add(WSum(X, xs, g), Mul(b, WSum(Y, xs, f)));
        { MulAdd(WSum(Y, r, f), Mul(u, v), b); }
        Add(Add(WSum(X, r, g), Mul(w, Mul(x, v))), Add(Mul(b, WSum(Y, r, f)), Mul(b, Mul(u, v))));
        { Shuffle(WSum(X, r, g), Mul(w, Mul(x, v)), Mul(b, WSum(Y, r, f)), Mul(b, Mul(u, v))); }
        Add(Mul(b, WSum(X, r, f)), Mul(b, Mul(w, v)));
        { MulAdd(WSum(X, r, f), Mul(w, v), b); }
        Mul(b, WSum(X, xs, f));
      }
    }
  }

  // ----- the weights sum to one -----

  function One(x: Scalar): Scalar {
    1
  }

  /** The term of a point other than the first and the last. */
  lemma InnerTerm(X: seq<Scalar>, x: Scalar)
    requires IsField() && |X| >= 2 && X[0] != x && X[|X| - 1] != x
    ensures var a, b := X[0], X[|X| - 1];
            Add(Mul(Sub(b, a), Weight(X, x)), Mul(a, Weight(X[1..], x))) == Mul(b, Weight(X[..|X| - 1], x))
  {
    hide Mul, Add, Sub, Weight;
    var a, b, w := X[0], X[|X| - 1], Weight(X, x);
    DropFirst(X, x);
    DropLast(X, x);
    MulComm(w, Sub(b, a));
    MulAdd(Sub(b, a), Sub(a, x), w);
    Telescope(b, a, x);
  }

  lemma Telescope(b: Scalar, a: Scalar, x: Scalar)
    ensures Add(Sub(b, a), Sub(a, x)) == Sub(b, x)
  {
    hide Add, Sub;
    var d := Add(Sub(b, a), Sub(a, x));
    SubAdd(d, x);
    AddAssoc(Sub(b, a), Sub(a, x), x);
    SubAdd(a, x);
    SubAdd(b, a);
    SubAdd(b, x);
  }

  lemma {:induction false} InnerSum(X: seq<Scalar>, xs: seq<Scalar>)
    requires IsField() && |X| >= 2
    requires forall i :: 0 <= i < |xs| ==> xs[i] != X[0] && xs[i] != X[|X| - 1]
    ensures var a, b := X[0], X[|X| - 1];
            Add(Mul(Sub(b, a), WSum(X, xs, One)), Mul(a, WSum(X[1..], xs, One))) == Mul(b, WSum(X[..|X| - 1], xs, One))
  {
    hide Mul, Add, Sub, Weight;
    var a, b, S, P := X[0], X[|X| - 1], X[1..], X[..|X| - 1];
    var D := Sub(b, a);
    if xs == [] {
      MulOne(a);
      MulOne(b);
      MulOne(D);
      AddZero(0);
    } else {
      var r, x := xs[..|xs| - 1], xs[|xs| - 1];
      InnerSum(X, r);
      InnerTerm(X, x);
      LastOne(X, xs);
      LastOne(S, xs);
      LastOne(P, xs);
      MulAdd(WSum(X, r, One), Weight(X, x), D);
      MulAdd(WSum(S, r, One), Weight(S, x), a);
      MulAdd(WSum(P, r, One), Weight(P, x), b);
      Shuffle(Mul(D, WSum(X, r, One)), Mul(D, Weight(X, x)), Mul(a, WSum(S, r, One)), Mul(a, Weight(S, x)));
    }
  }

  lemma LastOne(X: seq<Scalar>, xs: seq<Scalar>)
    requires IsField() && xs != []
    ensures WSum(X, xs, One) == Add(WSum(X, xs[..|xs| - 1], One), Weight(X, xs[|xs| - 1]))
  {
    hide Mul, Add, Weight;
    MulOne(Weight(X, xs[|xs| - 1]));
  }

  lemma {:induction false} FirstOne(X: seq<Scalar>, xs: seq<Scalar>)
    requires IsField() && xs != []
    ensures WSum(X, xs, One) == Add(Weight(X, xs[0]), WSum(X, xs[1..], One))
  {
    hide Mul, Add, Weight;
    LastOne(X, xs);
    if |xs| == 1 {
      AddZero(Weight(X, xs[0]));
    } else {
      FirstOne(X, xs[..|xs| - 1]);
      LastOne(X, xs[1..]);
      assert xs[..|xs| - 1][1..] == xs[1..][..|xs| - 2];
      AddAssoc(Weight(X, xs[0]), WSum(X, xs[1..][..|xs| - 2], One), Weight(X, xs[|xs| - 1]));
    }
  }

  lemma {:induction false} WeightsSumToOne(X: seq<Scalar>)
    requires IsField() && Points(X) && X != []
    ensures WSum(X, X, One) == 1
    decreases |X|
  {
    hide Mul, Add, Sub, Weight;
    if |X| == 1 {
      SingleWeight(X);
      LastOne(X, X);
      AddZero(1);
    } else {
      var a, b, S, P, M := X[0], X[|X| - 1], X[1..], X[..|X| - 1], X[1..|X| - 1];
      WeightsSumToOne(S);
      WeightsSumToOne(P);
      InnerSum(X, M);
      assert P[0] == a && P[1..] == M && S[|S| - 1] == b && S[..|S| - 1] == M;
      FirstOne(P, P);
      LastOne(S, S);
      LastOne(X, X);
      FirstOne(X, P);
      DropLast(X, a);
      DropFirst(X, b);
      EndsMeet(a, b, Weight(X, a), Weight(P, a), Weight(X, b), Weight(S, b),
               WSum(X, M, One), WSum(S, M, One), WSum(P, M, One));
    }
  }

  lemma SingleWeight(X: seq<Scalar>)
    requires IsField() && |X| == 1
    ensures Weight(X, X[0]) == 1
  {
    assert X[..0] == [];
    assert Weight(X[..0], X[0]) == 1;
  }

  /** The first point, the inner points and the last one, put together. */
  lemma EndsMeet(a: Scalar, b: Scalar, wa: Scalar, pa: Scalar, wb: Scalar, sb: Scalar, m: Scalar, s: Scalar, p: Scalar)
    requires IsField() && a != b
    requires Mul(wa, Sub(b, a)) == Mul(b, pa) && Mul(wb, Sub(a, b)) == Mul(a, sb)
    requires Add(Mul(Sub(b, a), m), Mul(a, s)) == Mul(b, p)
    requires Add(pa, p) == 1 && Add(s, sb) == 1
    ensures Add(Add(wa, m), wb) == 1
  {
    hide Mul, Add, Sub;
    var D := Sub(b, a);
    var all := Add(Add(wa, m), wb);
    MulComm(wa, D);
    MulComm(wb, D);
    assert Add(Mul(D, wb), Mul(a, sb)) == 0 by {
      MulAdd(D, Sub(a, b), wb);
      Telescope(b, a, b);
      SubZero(b, b);
      MulOne(wb);
    }
    calc {
      Add(Mul(D, all), a);
      { MulAdd(Add(wa, m), wb, D); MulAdd(wa, m, D); MulOne(a); MulAdd(s, sb, a); }
      Add(Add(Add(Mul(D, wa), Mul(D, m)), Mul(D, wb)), Add(Mul(a, s), Mul(a, sb)));
      { Shuffle(Add(Mul(D, wa), Mul(D, m)), Mul(D, wb), Mul(a, s), Mul(a, sb)); }
      Add(Add(Add(Mul(D, wa), Mul(D, m)), Mul(a, s)), 0);
      { AddZero(Add(Add(Mul(D, wa), Mul(D, m)), Mul(a, s))); AddAssoc(Mul(D, wa), Mul(D, m), Mul(a, s)); }
      Add(Mul(b, pa), Mul(b, p));
      { MulAdd(pa, p, b); MulOne(b); }
      b;
    }
    SubAdd(Mul(D, all), a);
    assert Mul(D, all) == D;
    SubZero(b, a);
    Cancel(D, all);
  }

  lemma Cancel(d: Scalar, x: Scalar)
    requires IsField() && d != 0 && Mul(d, x) == d
    ensures x == 1
  {
    hide Mul;
    MulComm(d, x);
    MulAssoc(x, d, Inv(d));
    MulOne(x);
  }

  // ----- interpolation -----

  lemma {:induction false} HighTerms(X: seq<Scalar>, q: seq<Scalar>, f: Scalar -> Scalar, g: Scalar -> Scalar)
    requires IsField() && Points(X) && |q| < |X|
    requires forall x: Scalar :: f(x) == Eval(q, x)
    requires forall x: Scalar :: g(x) == Mul(x, f(x))
    ensures WSum(X, X, g) == 0
    decreases |X|, |q|, 1
  {
    hide Mul, Add, Sub, Weight, Eval;
    var b, Y := X[|X| - 1], X[..|X| - 1];
    Deflate(X, Y, f, g);
    InterpolatesUpTo(X, q, f);
    var v := Eval(q, 0);
    assert WSum(Y, Y, f) == v by {
      if |X| == 1 {
        assert Eval(q, 0) == 0 by { EvalNothing(0); }
      } else {
        InterpolatesUpTo(Y, q, f);
      }
    }
    var w := Weight(X, b);
    var A := WSum(X, Y, f);
    calc {
      Add(WSum(X, X, g), Mul(b, v));
      Add(Add(WSum(X, Y, g), Mul(w, Mul(b, f(b)))), Mul(b, v));
      { Rotate(WSum(X, Y, g), Mul(w, Mul(b, f(b))), Mul(b, v)); }
      Add(Mul(b, A), Mul(w, Mul(b, f(b))));
      { MulAssoc(w, b, f(b)); MulComm(w, b); MulAssoc(b, w, f(b)); MulAdd(A, Mul(w, f(b)), b); }
      Mul(b, v);
    }
    SubAdd(WSum(X, X, g), Mul(b, v));
    SubZero(Mul(b, v), Mul(b, v));
  }

  lemma EvalNothing(x: Scalar)
    ensures Eval([], x) == 0
  {
  }

  lemma Rotate(a: Scalar, b: Scalar, c: Scalar)
    ensures Add(Add(a, b), c) == Add(Add(a, c), b)
  {
    hide Add;
    AddAssoc(a, b, c);
    AddComm(b, c);
    AddAssoc(a, c, b);
  }

  /** A polynomial with no more coefficients than points is interpolated at zero. */
  lemma {:induction false} InterpolatesUpTo(X: seq<Scalar>, p: seq<Scalar>, f: Scalar -> Scalar)
    requires IsField() && Points(X) && X != [] && |p| <= |X|
    requires forall x: Scalar :: f(x) == Eval(p, x)
    ensures WSum(X, X, f) == Eval(p, 0)
    decreases |X|, |p|, 0
  {
    hide Mul, Add, Sub, Weight;
    if p == [] {
      forall x: Scalar ensures f(x) == Mul(0, One(x)) {
        MulOne(One(x));
      }
      SumScales(X, X, One, f, 0);
      MulOne(WSum(X, X, One));
    } else {
      var q: Scalar -> Scalar := x => Eval(p[1..], x);
      var g: Scalar -> Scalar := x => Mul(x, Eval(p[1..], x));
      var k: Scalar -> Scalar := x => Mul(p[0], One(x));
      HighTerms(X, p[1..], q, g);
      SumScales(X, X, One, k, p[0]);
      WeightsSumToOne(X);
      forall x: Scalar ensures f(x) == Add(k(x), g(x)) {
        MulOne(p[0]);
      }
      SumAdds(X, X, k, g, f);
      MulOne(p[0]);
      MulOne(Eval(p[1..], 0));
      AddZero(p[0]);
    }
  }
}
