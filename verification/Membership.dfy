/** Who takes part, who is faulty, and what quorums of them have in common. */
module Membership {

  /** What one participant knows of the membership: its size, the fault bound, its own id. */
  datatype Config = Config(n: nat, f: nat, id: nat) {
    ghost predicate Sound() {
      f >= 1 && n >= 3 * f + 1
    }
  }

  /** The membership as an observer sees it; the faulty members are fixed but arbitrary. */
  datatype Cluster = Cluster(f: nat, all: set<nat>, bad: set<nat>) {
    ghost predicate Sound() {
      f >= 1 && |all| >= 3 * f + 1 && bad <= all && |bad| <= f
    }

    function At(id: nat): Config {
      Config(|all|, f, id)
    }
  }

  lemma SubsetSize<T>(a: set<T>, b: set<T>)
    requires a <= b
    ensures |a| <= |b|
  {
    assert b == a + (b - a);
  }

  lemma {:induction false} UnionSize<T>(a: set<T>, b: set<T>)
    ensures |a + b| + |a * b| == |a| + |b|
  {
    assert a + b == (a - b) + b;
    assert a == (a - b) + (a * b);
  }

  /** A set bigger than the faulty set has a correct member. */
  lemma HasCorrect<T>(s: set<T>, bad: set<T>) returns (x: T)
    requires |s| > |bad|
    ensures x in s && x !in bad
  {
    if s <= bad {
      SubsetSize(s, bad);
      assert false;
    }
    x :| x in s && x !in bad;
  }

  /** Two quorums of n - f have a correct member in common. */
  lemma QuorumsMeet(k: Cluster, a: set<nat>, b: set<nat>) returns (x: nat)
    requires k.Sound() && a <= k.all && b <= k.all
    requires |a| >= |k.all| - k.f && |b| >= |k.all| - k.f
    ensures x in a && x in b && x in k.all - k.bad
  {
    UnionSize(a, b);
    SubsetSize(a + b, k.all);
    x := HasCorrect(a * b, k.bad);
  }
}
