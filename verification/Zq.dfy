/** Scalars: the integers modulo the order of the groups. */
module Zq {

  type Order = x: nat | x >= 2 witness 2

  /** The order of the groups; nothing below depends on its value. */
  const Q: Order

  type Scalar = x: nat | x < Q witness 0

  function Red(x: int): Scalar {
    x % Q
  }

  function Add(a: Scalar, b: Scalar): Scalar {
    Red(a + b)
  }

  function Sub(a: Scalar, b: Scalar): Scalar {
    Red(a - b)
  }

  function Mul(a: Scalar, b: Scalar): Scalar {
    Red(a * b)
  }

  // ----- reduction -----

  lemma Multiple(q: nat, d: int)
    requires -(q as int) < q * d < q
    ensures d == 0
  {
    assert d >= 1 ==> q * d == q + q * (d - 1) && q * (d - 1) >= 0;
    assert d <= -1 ==> q * d == -(q as int) + q * (d + 1) && q * (-1 - d) >= 0;
  }

  lemma Quotient(x: int, k: int, r: Scalar)
    requires x == Q * k + r
    ensures Red(x) == r
  {
    assert Q * (x / Q - k) == Q * (x / Q) - Q * k;
    Multiple(Q, x / Q - k);
  }

  lemma RedShift(x: int, k: int)
    ensures Red(x + Q * k) == Red(x)
  {
    assert Q * (x / Q) + Q * k == Q * (x / Q + k);
    Quotient(x + Q * k, x / Q + k, Red(x));
  }

  lemma RedRest(a: int)
    ensures Red(a) + Q * (a / Q) == a
  {
  }

  lemma RedAdd(a: int, b: int)
    ensures Red(Red(a) + b) == Red(a + b) && Red(b + Red(a)) == Red(b + a)
    ensures Red(Red(a) - b) == Red(a - b)
  {
    hide Red;
    RedRest(a);
    var k := a / Q;
    assert Red(a) + b + Q * k == a + b && Red(a) - b + Q * k == a - b;
    RedShift(Red(a) + b, k);
    RedShift(Red(a) - b, k);
  }

  lemma RedSub(a: int, b: int)
    ensures Red(b - Red(a)) == Red(b - a)
  {
    hide Red;
    RedRest(a);
    var k := a / Q;
    assert b - a + Q * k == b - Red(a);
    RedShift(b - a, k);
  }

  lemma RedMul(a: int, b: int)
    ensures Red(Red(a) * b) == Red(a * b) && Red(b * Red(a)) == Red(b * a)
  {
    assert a * b == Red(a) * b + Q * (a / Q * b) by {
      assert a == Red(a) + Q * (a / Q);
      assert (Red(a) + Q * (a / Q)) * b == Red(a) * b + Q * (a / Q) * b;
      assert Q * (a / Q) * b == Q * (a / Q * b);
    }
    RedShift(Red(a) * b, a / Q * b);
    assert b * Red(a) == Red(a) * b && b * a == a * b;
  }

  lemma RedSmall(a: Scalar)
    ensures Red(a) == a
  {
  }

  // ----- the ring laws -----

  lemma AddComm(a: Scalar, b: Scalar)
    ensures Add(a, b) == Add(b, a)
  {
  }

  lemma AddAssoc(a: Scalar, b: Scalar, c: Scalar)
    ensures Add(Add(a, b), c) == Add(a, Add(b, c))
  {
    hide Red;
    RedAdd(a + b, c);
    RedAdd(b + c, a);
  }

  lemma AddZero(a: Scalar)
    ensures Add(a, 0) == a && Add(0, a) == a
  {
    RedSmall(a);
  }

  lemma SubAdd(a: Scalar, b: Scalar)
    ensures Sub(Add(a, b), b) == a && Add(Sub(a, b), b) == a
  {
    hide Red;
    RedAdd(a + b, b);
    RedAdd(a - b, b);
    RedSmall(a);
  }

  lemma MulComm(a: Scalar, b: Scalar)
    ensures Mul(a, b) == Mul(b, a)
  {
    assert a * b == b * a;
  }

  lemma MulAssoc(a: Scalar, b: Scalar, c: Scalar)
    ensures Mul(Mul(a, b), c) == Mul(a, Mul(b, c))
  {
    hide Red;
    RedMul(a * b, c);
    RedMul(b * c, a);
    assert (a * b) * c == a * (b * c);
  }

  lemma MulAdd(a: Scalar, b: Scalar, c: Scalar)
    ensures Mul(Add(a, b), c) == Add(Mul(a, c), Mul(b, c))
    ensures Mul(c, Add(a, b)) == Add(Mul(c, a), Mul(c, b))
  {
    hide Red;
    RedMul(a + b, c);
    RedAdd(a * c, Mul(b, c));
    RedAdd(b * c, a * c);
    assert (a + b) * c == a * c + b * c;
    MulComm(Add(a, b), c);
    MulComm(a, c);
    MulComm(b, c);
  }

  lemma MulSub(a: Scalar, b: Scalar, c: Scalar)
    ensures Mul(Sub(a, b), c) == Sub(Mul(a, c), Mul(b, c))
  {
    hide Red;
    RedMul(a - b, c);
    assert (a - b) * c == a * c - b * c;
    var x: int, y: int := a * c, b * c;
    RedAdd(x, Red(y));
    RedSub(y, x);
  }

  lemma MulOne(a: Scalar)
    ensures Mul(a, 1) == a && Mul(1, a) == a && Mul(a, 0) == 0 && Mul(0, a) == 0
  {
    RedSmall(a);
    RedSmall(0);
  }
}
