/** The pairing groups; an element is known by its exponent with respect to the group's base. */
module Groups {
  import opened Zq

  datatype G1 = G1(log: Scalar)
  datatype G2 = G2(log: Scalar)
  datatype GT = GT(log: Scalar)

  const G1Base := G1(1)

  function AddG1(a: G1, b: G1): G1 {
    G1(Add(a.log, b.log))
  }

  function SubG1(a: G1, b: G1): G1 {
    G1(Sub(a.log, b.log))
  }

  function MulG1(s: Scalar, p: G1): G1 {
    G1(Mul(s, p.log))
  }

  function AddGT(a: GT, b: GT): GT {
    GT(Add(a.log, b.log))
  }

  function SubGT(a: GT, b: GT): GT {
    GT(Sub(a.log, b.log))
  }

  function MulGT(s: Scalar, p: GT): GT {
    GT(Mul(s, p.log))
  }

  function Pair(a: G1, b: G2): GT {
    GT(Mul(a.log, b.log))
  }
}
