/** Agreement and validity of one binary agreement among correct and faulty members. */
module BbaSafety {
  import opened Options
  import opened Membership
  import opened BbaSpec
  import opened BbaInvariant

  /** The states of the correct members. What they have broadcast is in their logs. */
  type Net = map<nat, Node>

  /** A member other than p can have said m: a faulty one says anything, a correct one what it broadcast. */
  ghost predicate Said(k: Cluster, net: Net, q: nat, m: Message) {
    q in k.all && (q in net ==> m in net[q].log)
  }

  /** Some correct member entered epoch e with estimate v. */
  ghost predicate Held(net: Net, e: nat, v: bool) {
    exists q :: q in net && Holds(net[q], e, v)
  }

  ghost predicate Holds(s: Node, e: nat, v: bool) {
    e <= |s.trail| && Own(s, e) == Some(v)
  }

  ghost predicate Consistent(k: Cluster, net: Net) {
    && k.Sound()
    && net.Keys == k.all - k.bad
    && (forall p :: p in net ==> Valid(k.At(p), net[p]))
    && (forall p :: p in net ==> forall d :: d in net[p].heard ==> Said(k, net, d.sid, d.msg))
    && (forall p :: p in net ==> forall e: nat, v: bool :: Message(e, Bval(v)) in net[p].log ==> Held(net, e, v))
  }

  /** Member p moved to state r having been handed only messages the others can have said. */
  ghost predicate Moved(k: Cluster, net: Net, p: nat, r: Node) {
    && p in net
    && Valid(k.At(p), r)
    && Grows(net[p], r)
    && forall d :: d in r.heard - net[p].heard ==> Said(k, net, d.sid, d.msg) && d.sid != p
  }

  /** f + 1 voices contain a correct one. */
  lemma CorrectVoice(k: Cluster, net: Net, p: nat, e: nat, v: bool, voices: set<nat>) returns (x: nat)
    requires Consistent(k, net) && p in net && |voices| >= k.f + 1
    requires forall q :: q in voices ==> From(k.At(p), net[p], q, Message(e, Bval(v)))
    ensures x in voices && x in net && Message(e, Bval(v)) in net[x].log
  {
    x := HasCorrect(voices, k.bad);
    assert From(k.At(p), net[p], x, Message(e, Bval(v)));
    if x != p {
      assert Said(k, net, x, Message(e, Bval(v)));
    }
  }

  lemma HoldsLater(s: Node, r: Node, e: nat, v: bool)
    requires Grows(s, r) && Holds(s, e, v)
    ensures Holds(r, e, v)
  {
    if e > 0 { assert r.trail[e - 1] == s.trail[e - 1]; }
  }

  lemma MoveKeepsHeld(k: Cluster, net: Net, p: nat, r: Node, q: nat, e: nat, v: bool)
    requires Consistent(k, net) && Moved(k, net, p, r)
    requires q in net && Message(e, Bval(v)) in net[p := r][q].log
    ensures Held(net[p := r], e, v)
  {
    var m := Message(e, Bval(v));
    if m in net[q].log {
      HeldLater(net, p, r, e, v);
    } else {
      assert Logged(k.At(p), r, m);
      if Own(r, e) == Some(v) {
        assert Holds(net[p := r][p], e, v);
      } else {
        NewVoice(k, net, p, r, e, v);
      }
    }
  }

  lemma MoveKeepsSaid(k: Cluster, net: Net, p: nat, r: Node)
    requires Consistent(k, net) && Moved(k, net, p, r)
    ensures forall q :: q in net ==> forall d :: d in net[p := r][q].heard ==> Said(k, net[p := r], d.sid, d.msg)
  {
    forall q, d | q in net && d in net[p := r][q].heard ensures Said(k, net[p := r], d.sid, d.msg) {
      assert Said(k, net, d.sid, d.msg);
    }
  }

  /** Any move of one correct member keeps the net consistent. */
  lemma MoveKeeps(k: Cluster, net: Net, p: nat, r: Node)
    requires Consistent(k, net) && Moved(k, net, p, r)
    ensures Consistent(k, net[p := r])
  {
    hide Valid, Held, Said;
    var after := net[p := r];
    assert after.Keys == net.Keys;
    MoveKeepsSaid(k, net, p, r);
    forall q, e: nat, v: bool | q in after && Message(e, Bval(v)) in after[q].log
      ensures Held(after, e, v)
    {
      MoveKeepsHeld(k, net, p, r, q, e, v);
    }
  }

  lemma HeldLater(net: Net, p: nat, r: Node, e: nat, v: bool)
    requires p in net && Grows(net[p], r) && Held(net, e, v)
    ensures Held(net[p := r], e, v)
  {
    var x :| x in net && Holds(net[x], e, v);
    if x == p { HoldsLater(net[p], r, e, v); }
    assert Holds(net[p := r][x], e, v);
  }

  /** A BVAL relayed by p was first said by another correct member. */
  lemma NewVoice(k: Cluster, net: Net, p: nat, r: Node, e: nat, v: bool)
    requires Consistent(k, net) && Moved(k, net, p, r)
    requires e <= |r.trail| && |BvalsAt(r, e).Of(v) - {p}| >= k.f + 1
    ensures Held(net[p := r], e, v)
  {
    var m := Message(e, Bval(v));
    var x := HasCorrect(BvalsAt(r, e).Of(v) - {p}, k.bad);
    assert e < |r.trail| ==> Closed(k.At(p), r, e);
    assert Votes(k.At(p), r, e, BvalsAt(r, e), if e < |r.trail| then r.trail[e].aux else r.recvAux);
    assert From(k.At(p), r, x, m);
    assert Said(k, net, x, m);
    assert m in net[x].log;
    HeldLater(net, p, r, e, v);
  }

  // ----- one epoch, seen by two correct members -----

  lemma AuxVoters(k: Cluster, net: Net, p: nat, r: nat)
    requires Consistent(k, net) && p in net && r < |net[p].trail|
    ensures k.Sound() && net.Keys == k.all - k.bad
    ensures var t := net[p].trail[r];
            ValidAux(t.aux, t.bin) <= k.all && |ValidAux(t.aux, t.bin)| >= |k.all| - k.f
    ensures forall x :: x in net[p].trail[r].aux && x in net ==>
      Message(r, Aux(net[p].trail[r].aux[x])) in net[x].log
  {
    var t := net[p].trail[r];
    assert Closed(k.At(p), net[p], r);
    forall x | x in t.aux ensures x in k.all && (x in net ==> Message(r, Aux(t.aux[x])) in net[x].log) {
      assert From(k.At(p), net[p], x, Message(r, Aux(t.aux[x])));
      assert x != p ==> Said(k, net, x, Message(r, Aux(t.aux[x])));
    }
  }

  lemma OneAux(k: Cluster, net: Net, x: nat, r: nat, v: bool, w: bool)
    requires Consistent(k, net) && x in net
    requires Message(r, Aux(v)) in net[x].log && Message(r, Aux(w)) in net[x].log
    ensures v == w
  {
    assert Logged(k.At(x), net[x], Message(r, Aux(v)));
  }

  /** If p closed epoch r having accepted v alone, every other correct member that closed r accepted v. */
  lemma QuorumSeesValue(k: Cluster, net: Net, p: nat, q: nat, r: nat, v: bool)
    requires Consistent(k, net) && p in net && q in net
    requires r < |net[p].trail| && r < |net[q].trail|
    requires Values(net[p].trail[r].aux, net[p].trail[r].bin) == [v]
    ensures Seen(net[q].trail[r].aux, net[q].trail[r].bin, v)
  {
    hide Consistent;
    AuxVoters(k, net, p, r);
    AuxVoters(k, net, q, r);
    var tp, tq := net[p].trail[r], net[q].trail[r];
    var x := QuorumsMeet(k, ValidAux(tp.aux, tp.bin), ValidAux(tq.aux, tq.bin));
    OneAux(k, net, x, r, tp.aux[x], tq.aux[x]);
    assert Seen(tp.aux, tp.bin, tp.aux[x]) && Seen(tq.aux, tq.bin, tq.aux[x]);
    assert tp.aux[x] in Values(tp.aux, tp.bin);
  }

  /** What q admitted to its binValues in epoch e, whether it has left that epoch or not. */
  function BinAt(s: Node, e: nat): seq<bool> {
    if e < |s.trail| then s.trail[e].bin else s.binValues
  }

  lemma AdmittedVoters(c: Config, s: Node, e: nat, v: bool)
    requires Valid(c, s) && e <= |s.trail| && v in BinAt(s, e)
    ensures |BvalsAt(s, e).Of(v)| >= c.f + 1
    ensures forall q :: q in BvalsAt(s, e).Of(v) ==> From(c, s, q, Message(e, Bval(v)))
  {
    if e < |s.trail| {
      assert Closed(c, s, e);
    }
  }

  lemma SaidWasHeld(k: Cluster, net: Net, x: nat, e: nat, v: bool)
    requires Consistent(k, net) && x in net && Message(e, Bval(v)) in net[x].log
    ensures Held(net, e, v)
  {
    hide Valid, Held, Said;
  }

  lemma MemberIsValid(k: Cluster, net: Net, q: nat)
    requires Consistent(k, net) && q in net
    ensures Valid(k.At(q), net[q])
  {
    hide Valid, Held, Said;
  }

  /** A value admitted in an epoch was some correct member's estimate in it. */
  lemma AdmittedWasHeld(k: Cluster, net: Net, q: nat, e: nat, v: bool)
    requires Consistent(k, net) && q in net && e <= |net[q].trail| && v in BinAt(net[q], e)
    ensures Held(net, e, v)
  {
    hide Consistent, Valid, From, Held;
    MemberIsValid(k, net, q);
    AdmittedVoters(k.At(q), net[q], e, v);
    var x := CorrectVoice(k, net, q, e, v, BvalsAt(net[q], e).Of(v));
    SaidWasHeld(k, net, x, e, v);
  }

  /** A closed epoch accepted something, and only values a correct member said as BVAL. */
  lemma AcceptedWasSaid(k: Cluster, net: Net, q: nat, e: nat)
    requires Consistent(k, net) && q in net && e < |net[q].trail|
    ensures var t := net[q].trail[e];
            && Values(t.aux, t.bin) != []
            && forall w: bool :: w in Values(t.aux, t.bin) ==> Held(net, e, w)
  {
    hide Consistent;
    var t := net[q].trail[e];
    AuxVoters(k, net, q, e);
    var x :| x in ValidAux(t.aux, t.bin);
    assert Seen(t.aux, t.bin, t.aux[x]);
    forall w: bool | w in Values(t.aux, t.bin) ensures Held(net, e, w) {
      AdmittedWasHeld(k, net, q, e, w);
    }
  }

  // ----- agreement -----

  lemma SingleValue(aux: map<nat, bool>, bin: seq<bool>, v: bool)
    requires Values(aux, bin) != [] && forall w: bool :: w in Values(aux, bin) ==> w == v
    ensures Values(aux, bin) == [v]
  {
    assert Seen(aux, bin, !v) ==> !v in Values(aux, bin);
  }

  lemma DecisionOf(k: Cluster, net: Net, p: nat)
    requires Consistent(k, net) && p in net && (net[p].decision.Some? || net[p].decidedAt.Some?)
    ensures net[p].decidedAt.Some?
    ensures var r := net[p].decidedAt.value;
            && r < |net[p].trail| && net[p].decision == Some(Coin(r))
            && Values(net[p].trail[r].aux, net[p].trail[r].bin) == [Coin(r)]
  {
    assert Decided(net[p]);
  }

  /** Once p decided v in epoch r, every correct member enters every later epoch with estimate v. */
  lemma {:induction false} DecisionLocks(k: Cluster, net: Net, p: nat, r: nat, q: nat, e: nat)
    requires Consistent(k, net) && p in net && q in net
    requires net[p].decidedAt == Some(r) && r < e <= |net[q].trail|
    ensures Own(net[q], e) == net[p].decision
    decreases e
  {
    hide Consistent;
    DecisionOf(k, net, p);
    var v := Coin(r);
    var t := net[q].trail[e - 1];
    if e == r + 1 {
      QuorumSeesValue(k, net, p, q, r, v);
    } else {
      AcceptedWasSaid(k, net, q, e - 1);
      forall w: bool | w in Values(t.aux, t.bin) ensures w == v {
        var x :| x in net && Holds(net[x], e - 1, w);
        DecisionLocks(k, net, p, r, x, e - 1);
      }
      SingleValue(t.aux, t.bin, v);
    }
  }

  /** Once p decided in epoch r, only its decision enters any correct member's binValues in a later epoch. */
  lemma DecisionAlone(k: Cluster, net: Net, p: nat, r: nat, q: nat, e: nat, v: bool)
    requires Consistent(k, net) && p in net && q in net
    requires net[p].decidedAt == Some(r) && r < e <= |net[q].trail| && v in BinAt(net[q], e)
    ensures net[p].decision == Some(v)
  {
    hide Consistent;
    AdmittedWasHeld(k, net, q, e, v);
    var x :| x in net && Holds(net[x], e, v);
    DecisionLocks(k, net, p, r, x, e);
  }

  /** No two correct members decide differently. */
  lemma Agreement(k: Cluster, net: Net, p: nat, q: nat)
    requires Consistent(k, net) && p in net && q in net
    requires net[p].decision.Some? && net[q].decision.Some?
    ensures net[p].decision == net[q].decision
  {
    hide Consistent;
    DecisionOf(k, net, p);
    DecisionOf(k, net, q);
    if net[p].decidedAt.value < net[q].decidedAt.value {
      LaterDecision(k, net, p, q);
    } else if net[q].decidedAt.value < net[p].decidedAt.value {
      LaterDecision(k, net, q, p);
    }
  }

  lemma LaterDecision(k: Cluster, net: Net, p: nat, q: nat)
    requires Consistent(k, net) && p in net && q in net
    requires net[p].decidedAt.Some? && net[q].decidedAt.Some?
    requires net[p].decidedAt.value < net[q].decidedAt.value
    ensures net[p].decision == net[q].decision
  {
    hide Consistent;
    DecisionOf(k, net, q);
    DecisionLocks(k, net, p, net[p].decidedAt.value, q, net[q].decidedAt.value + 1);
  }

  // ----- validity -----

  /** An estimate held anywhere is some correct member's input. */
  lemma {:induction false} HeldWasInput(k: Cluster, net: Net, q: nat, e: nat, v: bool) returns (x: nat)
    requires Consistent(k, net) && q in net && Holds(net[q], e, v)
    ensures x in net && net[x].input == Some(v)
    decreases e
  {
    hide Consistent;
    if e == 0 {
      x := q;
    } else {
      AcceptedWasSaid(k, net, q, e - 1);
      var t := net[q].trail[e - 1];
      assert v in Values(t.aux, t.bin);
      var y :| y in net && Holds(net[y], e - 1, v);
      x := HeldWasInput(k, net, y, e - 1, v);
    }
  }

  /** A decided value is some correct member's input. */
  lemma DecisionWasInput(k: Cluster, net: Net, p: nat) returns (x: nat)
    requires Consistent(k, net) && p in net && net[p].decision.Some?
    ensures x in net && net[x].input == net[p].decision
  {
    hide Consistent;
    DecisionOf(k, net, p);
    x := HeldWasInput(k, net, p, net[p].decidedAt.value + 1, net[p].decision.value);
  }
}
