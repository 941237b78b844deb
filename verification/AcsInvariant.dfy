/** What every event of a common subset instance keeps. */
module AcsInvariant {
  import opened Options
  import opened Membership
  import opened Bytes
  import B = BbaSpec
  import BI = BbaInvariant
  import R = RbcSpec
  import RI = RbcInvariant
  import opened AcsSpec

  function Get<V>(m: map<nat, V>, j: nat): Option<V> {
    if j in m then Some(m[j]) else None
  }

  ghost predicate Quorum(c: Setup, results: map<nat, bool>) {
    |Truthy(results)| >= c.cfg.n - c.cfg.f
  }

  /** One proposer's pair of children against the results: rv and bv are its stored results, and
      `quorum` says whether n - f agreements are known to have decided true. */
  ghost predicate ChildCore(c: Setup, j: nat, r: R.Node, b: B.Node, rv: Option<Bytes>, bv: Option<bool>, quorum: bool) {
    && RI.Valid(c.For(j), r)
    && BI.Valid(c.cfg, b)
    && b.output.None? && b.messages == []
    && bv == b.decision
    && (rv.Some? ==> r.decoded.Some? && rv.value == R.Value(c.For(j), r.decoded.value.shards))
    && (b.input == Some(true) ==> rv.Some?)
    && (b.input == Some(false) ==> quorum)
    && (quorum ==> !B.AcceptsInput(b))
  }

  ghost predicate ChildOk(c: Setup, j: nat, r: R.Node, b: B.Node, rv: Option<Bytes>, bv: Option<bool>, quorum: bool) {
    ChildCore(c, j, r, b, rv, bv, quorum) && (rv.Some? ==> !B.AcceptsInput(b))
  }

  ghost predicate Keyed(c: Setup, s: Node) {
    && s.rbcs.Keys == c.nodes && s.bbas.Keys == c.nodes
    && s.rbcResults.Keys <= c.nodes && s.bbaResults.Keys <= c.nodes
  }

  ghost predicate Child(c: Setup, s: Node, j: nat)
    requires Keyed(c, s) && j in c.nodes
  {
    ChildOk(c, j, s.rbcs[j], s.bbas[j], Get(s.rbcResults, j), Get(s.bbaResults, j), Quorum(c, s.bbaResults))
  }

  /** A decided subset has every agreement's result, the true ones' values, and n - f entries. */
  ghost predicate Agreed(c: Setup, s: Node)
    requires Keyed(c, s)
  {
    && (s.decided <==> s.agreed.Some?)
    && (s.output.Some? ==> s.output == s.agreed)
    && (s.agreed.Some? ==>
          var m := s.agreed.value;
          && s.bbaResults.Keys == c.nodes
          && m.Keys == Truthy(s.bbaResults) && |m| >= c.cfg.n - c.cfg.f
          && forall j :: j in m ==>
               s.rbcs[j].decoded.Some? && m[j] == R.Value(c.For(j), s.rbcs[j].decoded.value.shards))
  }

  ghost predicate Valid(c: Setup, s: Node) {
    Keyed(c, s) && (forall j :: j in c.nodes ==> Child(c, s, j)) && Agreed(c, s)
  }

  /** Children only move forward, having been handed nothing but the listed messages. */
  ghost predicate Follows(s: Node, t: Node, bh: set<(nat, B.Delayed)>, rh: set<(nat, R.Received)>) {
    && t.rbcs.Keys == s.rbcs.Keys && t.bbas.Keys == s.bbas.Keys
    && (forall j :: j in s.bbas ==> BI.Grows(s.bbas[j], t.bbas[j]))
    && (forall j :: j in s.bbas ==> forall d :: d in t.bbas[j].heard ==> d in s.bbas[j].heard || (j, d) in bh)
    && (forall j :: j in s.rbcs ==> RI.Grows(s.rbcs[j], t.rbcs[j]))
    && (forall j :: j in s.rbcs ==> forall d :: d in t.rbcs[j].heard ==> d in s.rbcs[j].heard || (j, d) in rh)
    && (s.agreed.Some? ==> t.agreed == s.agreed)
  }

  lemma SameChildren(s: Node, t: Node, bh: set<(nat, B.Delayed)>, rh: set<(nat, R.Received)>)
    requires t.rbcs == s.rbcs && t.bbas == s.bbas && (s.agreed.Some? ==> t.agreed == s.agreed)
    ensures Follows(s, t, bh, rh)
  {
  }

  lemma FollowsOn(s: Node, t: Node, u: Node, bh: set<(nat, B.Delayed)>, rh: set<(nat, R.Received)>)
    requires Follows(s, t, bh, rh) && Follows(t, u, {}, {})
    ensures Follows(s, u, bh, rh)
  {
    forall j | j in s.bbas ensures BI.Grows(s.bbas[j], u.bbas[j]) {
      assert BI.Grows(s.bbas[j], t.bbas[j]) && BI.Grows(t.bbas[j], u.bbas[j]);
    }
    forall j | j in s.rbcs ensures RI.Grows(s.rbcs[j], u.rbcs[j]) {
      assert RI.Grows(s.rbcs[j], t.rbcs[j]) && RI.Grows(t.rbcs[j], u.rbcs[j]);
    }
  }

  lemma FreshIsValid(c: Setup)
    requires c.Sound()
    ensures Valid(c, Fresh(c.nodes))
  {
    BI.FreshIsValid(c.cfg);
    assert Truthy(map[]) == {};
    forall j | j in c.nodes ensures Child(c, Fresh(c.nodes), j) {
      RI.FreshIsValid(c.For(j));
    }
  }

  // ----- one agreement -----

  ghost predicate Handed(b: B.Node, r: B.Node, a: Action) {
    r.heard <= b.heard + if a.Hand? then {B.Delayed(a.sid, a.msg)} else {}
  }

  lemma ActKeeps(c: Setup, b: B.Node, a: Action)
    requires c.Sound() && BI.Valid(c.cfg, b) && (a.Hand? ==> a.sid != c.cfg.id)
    ensures var r := Act(c, b, a);
            && BI.Valid(c.cfg, r) && BI.Grows(b, r) && BI.Announces(b, r) && Handed(b, r, a)
            && (if a.Provide? && B.AcceptsInput(b) then r.input == Some(a.value) && !B.AcceptsInput(r)
                else r.input == b.input)
            && (!B.AcceptsInput(b) ==> !B.AcceptsInput(r))
  {
    hide BI.Valid;
    if a.Provide? {
      StillNothing(c, b);
      if B.AcceptsInput(b) {
        BI.InputKeeps(c.cfg, b, a.value);
      }
    } else {
      BI.HandleKeeps(c.cfg, b, a.sid, a.msg);
      InputStays(c, b, B.Handle(c.cfg, b, a.sid, a.msg));
    }
  }

  lemma StillNothing(c: Setup, b: B.Node)
    requires BI.Valid(c.cfg, b)
    ensures BI.Announces(b, b)
    ensures B.AcceptsInput(b) ==> b.decision.None? && b.input.None?
  {
  }

  lemma InputStays(c: Setup, b: B.Node, r: B.Node)
    requires BI.Valid(c.cfg, b) && BI.Valid(c.cfg, r) && BI.Grows(b, r) && r.input == b.input
    ensures !B.AcceptsInput(b) ==> !B.AcceptsInput(r)
  {
  }

  lemma SettleKeeps(c: Setup, b: B.Node)
    requires BI.Valid(c.cfg, b)
    ensures BI.Valid(c.cfg, Settle(b)) && BI.Grows(b, Settle(b))
  {
    BI.CollectKeeps(c.cfg, b);
    BI.CollectKeeps(c.cfg, b.(messages := []));
  }

  // ----- false inputs -----

  lemma RefusedKeeps(c: Setup, j: nat, r: R.Node, b: B.Node, rv: Option<Bytes>, bv: Option<bool>)
    requires c.Sound() && ChildOk(c, j, r, b, rv, bv, false) && B.AcceptsInput(b)
    ensures var t := Refused(c, b);
            && ChildOk(c, j, r, Settle(t), rv, t.decision, true)
            && t.decision == t.output && bv.None?
            && BI.Grows(b, Settle(t)) && Settle(t).heard == b.heard
  {
    StillNothing(c, b);
    BI.InputKeeps(c.cfg, b, false);
    SettleKeeps(c, Refused(c, b));
  }

  lemma TruthyGrows(a: map<nat, bool>, b: map<nat, bool>)
    requires forall j :: j in a ==> j in b && b[j] == a[j]
    ensures |Truthy(a)| <= |Truthy(b)|
  {
    SubsetSize(Truthy(a), Truthy(b));
  }

  /** Every child as before the quorum of true results was known, which the results now hold. */
  ghost predicate QuorumNow(c: Setup, s: Node) {
    && Keyed(c, s) && Quorum(c, s.bbaResults) && s.agreed.None? && s.output.None? && !s.decided
    && forall j :: j in c.nodes ==>
         ChildOk(c, j, s.rbcs[j], s.bbas[j], Get(s.rbcResults, j), Get(s.bbaResults, j), false)
  }

  lemma InjectShape(c: Setup, s: Node)
    requires c.Sound() && Keyed(c, s)
    ensures var t := InjectFalse(c, s);
            && Keyed(c, t) && t.rbcs == s.rbcs && t.rbcResults == s.rbcResults
            && t.output == s.output && t.decided == s.decided && t.agreed == s.agreed
  {
  }

  /** Once n - f agreements decided true, no agreement accepts an input any more. */
  lemma InjectFalseKeeps(c: Setup, s: Node)
    requires c.Sound() && QuorumNow(c, s)
    ensures var t := InjectFalse(c, s);
            Valid(c, t) && Follows(s, t, {}, {})
  {
    hide ChildOk, BI.Grows, RI.Grows, InjectFalse, Truthy, R.Value;
    var t := InjectFalse(c, s);
    InjectShape(c, s);
    assert forall j :: j in s.rbcs ==> RI.Grows(s.rbcs[j], t.rbcs[j]) by { SameChildren(s, s, {}, {}); }
    forall j | j in c.nodes
      ensures ChildOk(c, j, t.rbcs[j], t.bbas[j], Get(t.rbcResults, j), Get(t.bbaResults, j), true)
      ensures BI.Grows(s.bbas[j], t.bbas[j]) && t.bbas[j].heard == s.bbas[j].heard
      ensures j in s.bbaResults ==> j in t.bbaResults && t.bbaResults[j] == s.bbaResults[j]
    {
      InjectedChild(c, s, j);
    }
    TruthyGrows(s.bbaResults, t.bbaResults);
  }

  lemma InjectedChild(c: Setup, s: Node, j: nat)
    requires c.Sound() && QuorumNow(c, s) && j in c.nodes
    ensures var t := InjectFalse(c, s);
            && ChildOk(c, j, t.rbcs[j], t.bbas[j], Get(t.rbcResults, j), Get(t.bbaResults, j), true)
            && BI.Grows(s.bbas[j], t.bbas[j]) && t.bbas[j].heard == s.bbas[j].heard
            && (j in s.bbaResults ==> j in t.bbaResults && t.bbaResults[j] == s.bbaResults[j])
  {
    hide BI.Valid, RI.Valid;
    StillNothing(c, s.bbas[j]);
    if B.AcceptsInput(s.bbas[j]) {
      RefusedKeeps(c, j, s.rbcs[j], s.bbas[j], Get(s.rbcResults, j), Get(s.bbaResults, j));
    }
  }

  // ----- results -----

  /** All but `pid` in order; pid has decided v, which is not among the results yet. */
  ghost predicate ResultDue(c: Setup, s: Node, pid: nat, v: bool) {
    && Keyed(c, s) && Agreed(c, s) && pid in c.nodes && pid !in s.bbaResults
    && (forall j :: j in c.nodes && j != pid ==> Child(c, s, j))
    && ChildOk(c, pid, s.rbcs[pid], s.bbas[pid], Get(s.rbcResults, pid), Some(v), Quorum(c, s.bbaResults))
  }

  lemma TruthyAdds(results: map<nat, bool>, pid: nat, v: bool)
    requires pid !in results
    ensures |Truthy(results[pid := v])| == |Truthy(results)| + if v then 1 else 0
  {
    assert Truthy(results[pid := v]) == Truthy(results) + if v then {pid} else {};
  }

  lemma TakeResultKeeps(c: Setup, s: Node, pid: nat, v: bool)
    requires c.Sound() && ResultDue(c, s, pid, v)
    ensures var t := TakeResult(c, s, pid, v);
            Valid(c, t) && Follows(s, t, {}, {})
  {
    hide ChildOk, ResultDue, Valid, QuorumNow, InjectFalse, TryComplete, Follows;
    var t := s.(bbaResults := s.bbaResults[pid := v]);
    if v && |Truthy(t.bbaResults)| == c.cfg.n - c.cfg.f {
      ResultExact(c, s, pid);
      InjectFalseKeeps(c, t);
      TryCompleteKeeps(c, InjectFalse(c, t));
      NotLast(c, s, pid, v);
      SameChildren(s, t, {}, {});
      FollowsOn(s, t, InjectFalse(c, t), {}, {});
      FollowsOn(s, InjectFalse(c, t), TakeResult(c, s, pid, v), {}, {});
    } else {
      ResultStored(c, s, pid, v);
      TryCompleteKeeps(c, t);
      FollowsOn(s, t, TakeResult(c, s, pid, v), {}, {});
    }
  }

  lemma NotLast(c: Setup, s: Node, pid: nat, v: bool)
    requires ResultDue(c, s, pid, v)
    ensures s.agreed.None? && s.output.None? && !s.decided
  {
  }

  lemma ResultExact(c: Setup, s: Node, pid: nat)
    requires c.Sound() && ResultDue(c, s, pid, true)
    requires |Truthy(s.bbaResults[pid := true])| == c.cfg.n - c.cfg.f
    ensures QuorumNow(c, s.(bbaResults := s.bbaResults[pid := true]))
  {
    hide ChildOk;
    TruthyAdds(s.bbaResults, pid, true);
    NotLast(c, s, pid, true);
    assert forall j :: j in c.nodes && j != pid ==> Child(c, s, j);
  }

  lemma ResultStored(c: Setup, s: Node, pid: nat, v: bool)
    requires c.Sound() && ResultDue(c, s, pid, v)
    requires !(v && |Truthy(s.bbaResults[pid := v])| == c.cfg.n - c.cfg.f)
    ensures var t := s.(bbaResults := s.bbaResults[pid := v]);
            Valid(c, t) && Follows(s, t, {}, {})
  {
    hide ChildOk, Follows;
    TruthyAdds(s.bbaResults, pid, v);
    NotLast(c, s, pid, v);
    var t := s.(bbaResults := s.bbaResults[pid := v]);
    SameChildren(s, t, {}, {});
    assert Quorum(c, t.bbaResults) == Quorum(c, s.bbaResults);
    forall j | j in c.nodes ensures Child(c, t, j) {
      if j != pid { assert Child(c, s, j); }
    }
  }

  lemma TryCompleteKeeps(c: Setup, s: Node)
    requires c.Sound() && Valid(c, s)
    ensures Valid(c, TryComplete(c, s)) && Follows(s, TryComplete(c, s), {}, {})
  {
    hide ChildOk, Follows;
    var t := TryComplete(c, s);
    SameChildren(s, t, {}, {});
    if !s.decided && Complete(c, s) {
      AllResults(s.bbaResults.Keys, c.nodes);
      forall j | j in Truthy(s.bbaResults)
        ensures s.rbcs[j].decoded.Some? && s.rbcResults[j] == R.Value(c.For(j), s.rbcs[j].decoded.value.shards)
      {
        StoredValue(c, s, j);
      }
      assert t.agreed.value.Keys == Truthy(s.bbaResults);
      assert |t.agreed.value| == |t.agreed.value.Keys|;
    }
    forall j | j in c.nodes ensures Child(c, t, j) {
      assert Child(c, s, j);
    }
  }

  lemma AllResults(got: set<nat>, all: set<nat>)
    requires got <= all && |got| >= |all|
    ensures got == all
  {
    assert all == got + (all - got);
  }

  lemma StoredValue(c: Setup, s: Node, j: nat)
    requires Valid(c, s) && j in s.rbcResults
    ensures s.rbcs[j].decoded.Some? && s.rbcResults[j] == R.Value(c.For(j), s.rbcs[j].decoded.value.shards)
    ensures !B.AcceptsInput(s.bbas[j])
  {
    assert Child(c, s, j);
  }

  // ----- events of one proposer -----

  /** All in order, but when a broadcast has just delivered, its agreement may still lack the input. */
  ghost predicate Due(c: Setup, s: Node, pid: nat, a: Action) {
    && Keyed(c, s) && Agreed(c, s) && pid in c.nodes
    && (forall j :: j in c.nodes && j != pid ==> Child(c, s, j))
    && ChildCore(c, pid, s.rbcs[pid], s.bbas[pid],
                 Get(s.rbcResults, pid), Get(s.bbaResults, pid), Quorum(c, s.bbaResults))
    && (if a.Provide? then a.value && pid in s.rbcResults else a.sid != c.cfg.id && Child(c, s, pid))
  }

  /** The child of an action, before the result it may have put out is stored. */
  lemma ActedChild(c: Setup, j: nat, r: R.Node, b: B.Node, rv: Option<Bytes>, bv: Option<bool>, quorum: bool, a: Action)
    requires c.Sound() && ChildCore(c, j, r, b, rv, bv, quorum)
    requires if a.Provide? then a.value && rv.Some? else a.sid != c.cfg.id && (rv.Some? ==> !B.AcceptsInput(b))
    ensures var t := Act(c, b, a);
            && ChildOk(c, j, r, Settle(t), rv, t.decision, quorum)
            && t.output == (if bv.None? then t.decision else None) && (bv.Some? ==> t.decision == bv)
            && BI.Grows(b, Settle(t)) && Handed(b, t, a)
  {
    ActKeeps(c, b, a);
    SettleKeeps(c, Act(c, b, a));
  }

  lemma DoneChild(c: Setup, j: nat, r: R.Node, b: B.Node, rv: Option<Bytes>, bv: Option<bool>, quorum: bool)
    requires ChildCore(c, j, r, b, rv, bv, quorum) && b.done
    ensures ChildOk(c, j, r, b, rv, bv, quorum)
  {
    assert BI.Decided(b);
  }

  /** A message the child rejects changes nothing but what it has heard. */
  lemma RejectedChild(c: Setup, b: B.Node, a: Action)
    requires c.cfg.Sound() && Fails(b, a)
    ensures Act(c, b, a) == b.(heard := b.heard + {B.Delayed(a.sid, a.msg)})
  {
  }

  /** What an agreement may have heard from an action. */
  ghost function HeardOf(pid: nat, a: Action): set<(nat, B.Delayed)> {
    if a.Hand? then {(pid, B.Delayed(a.sid, a.msg))} else {}
  }

  lemma MovedChild(c: Setup, s: Node, pid: nat, a: Action, b: B.Node)
    requires pid in s.bbas && BI.Grows(s.bbas[pid], b) && Handed(s.bbas[pid], b, a)
    ensures Follows(s, s.(bbas := s.bbas[pid := b]), HeardOf(pid, a), {})
  {
  }

  lemma ProcessAgreementKeeps(c: Setup, s: Node, pid: nat, a: Action)
    requires c.Sound() && Due(c, s, pid, a)
    ensures var r := ProcessAgreement(c, s, pid, a);
            && Valid(c, r.node) && Follows(s, r.node, HeardOf(pid, a), {})
            && (r.err <==> !s.bbas[pid].done && Fails(s.bbas[pid], a))
  {
    hide ChildCore, ChildOk, Follows, Act, TakeResult, Valid, BI.Grows, Handed;
    if s.bbas[pid].done {
      PidDone(c, s, pid, a);
      SameChildren(s, s, HeardOf(pid, a), {});
    } else {
      PidActed(c, s, pid, a);
      var b := Act(c, s.bbas[pid], a);
      var t := s.(bbas := s.bbas[pid := Settle(b)]);
      MovedChild(c, s, pid, a, Settle(b));
      if b.output.Some? {
        TakeResultKeeps(c, t, pid, b.output.value);
        FollowsOn(s, t, TakeResult(c, t, pid, b.output.value), HeardOf(pid, a), {});
      }
    }
  }

  lemma PidDone(c: Setup, s: Node, pid: nat, a: Action)
    requires c.Sound() && Due(c, s, pid, a) && s.bbas[pid].done
    ensures Valid(c, s)
  {
    hide ChildCore, ChildOk;
    DoneChild(c, pid, s.rbcs[pid], s.bbas[pid],
              Get(s.rbcResults, pid), Get(s.bbaResults, pid), Quorum(c, s.bbaResults));
  }

  lemma PidActed(c: Setup, s: Node, pid: nat, a: Action)
    requires c.Sound() && Due(c, s, pid, a)
    ensures var b := Act(c, s.bbas[pid], a);
            var t := s.(bbas := s.bbas[pid := Settle(b)]);
            && BI.Grows(s.bbas[pid], Settle(b)) && Handed(s.bbas[pid], Settle(b), a)
            && (b.output.None? ==> Valid(c, t))
            && (b.output.Some? ==> ResultDue(c, t, pid, b.output.value))
            && (Fails(s.bbas[pid], a) ==> b == Settle(b) && b.output.None?)
  {
    hide ChildCore, ChildOk, Act, BI.Grows, BI.Valid, RI.Valid;
    PidNotFailed(c, s, pid, a);
    ActedChild(c, pid, s.rbcs[pid], s.bbas[pid], Get(s.rbcResults, pid), Get(s.bbaResults, pid),
               Quorum(c, s.bbaResults), a);
    var t := s.(bbas := s.bbas[pid := Settle(Act(c, s.bbas[pid], a))]);
    OthersStay(c, s, t, pid);
  }

  /** The rest of the instance does not depend on one agreement's state. */
  lemma OthersStay(c: Setup, s: Node, t: Node, pid: nat)
    requires Keyed(c, s) && Agreed(c, s) && pid in c.nodes && (forall j :: j in c.nodes && j != pid ==> Child(c, s, j))
    requires pid in t.bbas && t == s.(bbas := s.bbas[pid := t.bbas[pid]])
    ensures Keyed(c, t) && Agreed(c, t) && forall j :: j in c.nodes && j != pid ==> Child(c, t, j)
  {
    hide ChildOk;
    forall j | j in c.nodes && j != pid ensures Child(c, t, j) {
      assert Child(c, s, j);
    }
  }

  lemma PidNotFailed(c: Setup, s: Node, pid: nat, a: Action)
    requires c.Sound() && Due(c, s, pid, a)
    ensures a.Hand? ==> Get(s.rbcResults, pid).Some? ==> !B.AcceptsInput(s.bbas[pid])
    ensures var b := Act(c, s.bbas[pid], a);
            Fails(s.bbas[pid], a) ==> b == Settle(b) && b.output.None?
  {
    if Fails(s.bbas[pid], a) {
      RejectedChild(c, s.bbas[pid], a);
    }
  }

  // ----- broadcasts -----

  /** What a broadcast may have heard from a message. */
  ghost function HeardBy(pid: nat, sid: nat, m: R.Message): set<(nat, R.Received)> {
    {(pid, R.Received(sid, m))}
  }

  lemma MovedBroadcast(s: Node, pid: nat, r: R.Node, rh: set<(nat, R.Received)>)
    requires pid in s.rbcs && RI.Grows(s.rbcs[pid], r)
    requires forall d :: d in r.heard ==> d in s.rbcs[pid].heard || (pid, d) in rh
    ensures Follows(s, s.(rbcs := s.rbcs[pid := r]), {}, rh)
  {
  }

  lemma ChildMoves(c: Setup, j: nat, r: R.Node, t: R.Node, b: B.Node, rv: Option<Bytes>, bv: Option<bool>, quorum: bool)
    requires ChildOk(c, j, r, b, rv, bv, quorum) && RI.Valid(c.For(j), t) && RI.Grows(r, t)
    ensures ChildOk(c, j, t, b, rv, bv, quorum)
  {
    hide BI.Valid, RI.Valid;
  }

  /** A broadcast that moved on leaves the rest of the instance in order. */
  lemma BroadcastKeeps(c: Setup, s: Node, pid: nat, r: R.Node)
    requires c.Sound() && Valid(c, s) && pid in s.rbcs && RI.Valid(c.For(pid), r) && RI.Grows(s.rbcs[pid], r)
    ensures Valid(c, s.(rbcs := s.rbcs[pid := r]))
  {
    hide ChildOk, RI.Valid;
    var t := s.(rbcs := s.rbcs[pid := r]);
    forall j | j in c.nodes ensures Child(c, t, j) {
      assert Child(c, s, j);
      if j == pid {
        ChildMoves(c, j, s.rbcs[j], r, s.bbas[j], Get(s.rbcResults, j), Get(s.bbaResults, j), Quorum(c, s.bbaResults));
      }
    }
  }

  lemma ChildStores(c: Setup, j: nat, r: R.Node, b: B.Node, rv: Option<Bytes>, bv: Option<bool>, quorum: bool)
    requires ChildOk(c, j, r, b, rv, bv, quorum) && r.decoded.Some?
    ensures ChildCore(c, j, r, b, Some(R.Value(c.For(j), r.decoded.value.shards)), bv, quorum)
  {
    hide BI.Valid, RI.Valid;
  }

  /** A value delivered by the broadcast of pid is stored, and makes the input of its agreement due. */
  lemma StoreDue(c: Setup, s: Node, pid: nat)
    requires c.Sound() && Valid(c, s) && pid in s.rbcs && s.rbcs[pid].decoded.Some?
    ensures var v := R.Value(c.For(pid), s.rbcs[pid].decoded.value.shards);
            Due(c, s.(rbcResults := s.rbcResults[pid := v]), pid, Provide(true))
  {
    hide ChildOk, ChildCore;
    var t := s.(rbcResults := s.rbcResults[pid := R.Value(c.For(pid), s.rbcs[pid].decoded.value.shards)]);
    assert Child(c, s, pid);
    ChildStores(c, pid, s.rbcs[pid], s.bbas[pid],
                Get(s.rbcResults, pid), Get(s.bbaResults, pid), Quorum(c, s.bbaResults));
    forall j | j in c.nodes && j != pid ensures Child(c, t, j) {
      assert Child(c, s, j);
    }
  }

  /** What a broadcast puts out is the value of the shards it decoded. */
  lemma PutOut(c: Setup, pid: nat, r: R.Node)
    requires RI.Valid(c.For(pid), r)
    ensures var t := r.(messages := [], output := None);
            && RI.Valid(c.For(pid), t)
            && (forall s :: RI.Grows(s, r) ==> RI.Grows(s, t))
            && (r.output.Some? ==> r.decoded.Some? && r.output.value == R.Value(c.For(pid), r.decoded.value.shards))
  {
    RI.CollectKeeps(c.For(pid), r);
    RI.CollectKeeps(c.For(pid), r.(messages := []));
  }

  /** A broadcast takes a step, and a value it put out is stored and voted for. */
  lemma ProcessBroadcastKeeps(c: Setup, s: Node, pid: nat, r: R.Step, rh: set<(nat, R.Received)>)
    requires c.Sound() && Valid(c, s) && pid in s.rbcs && RI.Valid(c.For(pid), r.node) && RI.Grows(s.rbcs[pid], r.node)
    requires forall d :: d in r.node.heard ==> d in s.rbcs[pid].heard || (pid, d) in rh
    ensures var u := ProcessBroadcast(c, s, pid, r);
            Valid(c, u.node) && Follows(s, u.node, {}, rh)
  {
    hide Valid, Follows, RI.Valid, RI.Grows, ProcessAgreement, TryComplete, Due;
    BroadcastKeeps(c, s, pid, r.node);
    MovedBroadcast(s, pid, r.node, rh);
    var n := r.node.(messages := [], output := None);
    PutOut(c, pid, r.node);
    var t := s.(rbcs := s.rbcs[pid := n]);
    BroadcastKeeps(c, s, pid, n);
    MovedBroadcast(s, pid, n, rh);
    if !r.err && !r.node.halted && r.node.output.Some? {
      StoreDue(c, t, pid);
      var d := t.(rbcResults := t.rbcResults[pid := r.node.output.value]);
      ProcessAgreementKeeps(c, d, pid, Provide(true));
      var u := ProcessAgreement(c, d, pid, Provide(true)).node;
      SameChildren(t, d, {}, {});
      FollowsOn(s, t, d, {}, rh);
      FollowsOn(s, d, u, {}, rh);
      TryCompleteKeeps(c, u);
      FollowsOn(s, u, TryComplete(c, u), {}, rh);
    }
  }

  // ----- the entry points -----

  lemma HandleMessageKeeps(c: Setup, s: Node, sid: nat, m: Message, pick: R.Picker)
    requires c.Sound() && R.Picks(pick) && Valid(c, s) && sid != c.cfg.id
    ensures var r := HandleMessage(c, s, sid, m, pick);
            && Valid(c, r.node)
            && Follows(s, r.node,
                       if m.payload.Agreement? then HeardOf(m.proposer, Hand(sid, m.payload.bba)) else {},
                       if m.payload.Broadcast? then HeardBy(m.proposer, sid, m.payload.rbc) else {})
  {
    hide Valid, Follows, RI.Valid, RI.Grows, ProcessAgreement, ProcessBroadcast, R.HandleMessage;
    match m.payload
    case Agreement(b) =>
      HandDue(c, s, m.proposer, sid, b);
      if m.proposer in s.bbas {
        ProcessAgreementKeeps(c, s, m.proposer, Hand(sid, b));
      } else {
        NoAgreement(c, s, m.proposer, Hand(sid, b));
      }
    case Broadcast(r) =>
      SameChildren(s, s, {}, HeardBy(m.proposer, sid, r));
      if m.proposer in s.rbcs {
        RbcValid(c, s, m.proposer);
        RI.HandleMessageKeeps(c.For(m.proposer), s.rbcs[m.proposer], sid, r, pick);
        ProcessBroadcastKeeps(c, s, m.proposer, R.HandleMessage(c.For(m.proposer), s.rbcs[m.proposer], sid, r, pick),
                              HeardBy(m.proposer, sid, r));
      }
    case Unknown =>
      SameChildren(s, s, {}, {});
  }

  lemma RbcValid(c: Setup, s: Node, pid: nat)
    requires Valid(c, s) && pid in s.rbcs
    ensures RI.Valid(c.For(pid), s.rbcs[pid])
  {
    assert Child(c, s, pid);
  }

  lemma NoAgreement(c: Setup, s: Node, pid: nat, a: Action)
    requires c.Sound() && pid !in s.bbas
    ensures Follows(s, ProcessAgreement(c, s, pid, a).node, HeardOf(pid, a), {})
    ensures ProcessAgreement(c, s, pid, a).node == s
  {
    SameChildren(s, s, HeardOf(pid, a), {});
  }

  lemma HandDue(c: Setup, s: Node, pid: nat, sid: nat, m: B.Message)
    requires c.Sound() && Valid(c, s) && sid != c.cfg.id
    ensures pid in s.bbas ==> Due(c, s, pid, Hand(sid, m))
  {
    hide BI.Valid, RI.Valid;
    if pid in s.bbas {
      assert Child(c, s, pid);
    }
  }

  lemma InputValueKeeps(c: Setup, s: Node, data: Bytes, pick: R.Picker)
    requires c.Sound() && R.Picks(pick) && Valid(c, s)
    ensures var r := InputValue(c, s, data, pick);
            Valid(c, r.node) && Follows(s, r.node, {}, {})
  {
    hide Valid, Follows, RI.Valid, RI.Grows, ProcessAgreement, R.InputValue, Due;
    var id := c.cfg.id;
    OwnChild(c, s);
    RI.InputValueKeeps(c.For(id), s.rbcs[id], data, pick);
    var r := R.InputValue(c.For(id), s.rbcs[id], data, pick);
    BroadcastKeeps(c, s, id, r.node);
    MovedBroadcast(s, id, r.node, {});
    var n := r.node.(messages := [], output := None);
    PutOut(c, id, r.node);
    var t := s.(rbcs := s.rbcs[id := n]);
    BroadcastKeeps(c, s, id, n);
    MovedBroadcast(s, id, n, {});
    if !r.err && !r.node.halted && r.node.output.Some? {
      StoreDue(c, t, id);
      var d := t.(rbcResults := t.rbcResults[id := r.node.output.value]);
      ProcessAgreementKeeps(c, d, id, Provide(true));
      SameChildren(t, d, {}, {});
      FollowsOn(s, t, d, {}, {});
      FollowsOn(s, d, ProcessAgreement(c, d, id, Provide(true)).node, {}, {});
    }
  }

  lemma OwnChild(c: Setup, s: Node)
    requires c.Sound() && Valid(c, s)
    ensures c.cfg.id in s.rbcs && RI.Valid(c.For(c.cfg.id), s.rbcs[c.cfg.id])
  {
    assert Child(c, s, c.cfg.id);
  }

  lemma OutputTakenKeeps(c: Setup, s: Node)
    requires Valid(c, s)
    ensures Valid(c, s.(output := None)) && Follows(s, s.(output := None), {}, {})
  {
    hide ChildOk;
    SameChildren(s, s.(output := None), {}, {});
    forall j | j in c.nodes ensures Child(c, s.(output := None), j) {
      assert Child(c, s, j);
    }
  }
}
