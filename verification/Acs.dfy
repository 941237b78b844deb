/** The common subset instance: it drives one broadcast and one agreement object per proposer in place. */
module Acs {
  import opened Options
  import opened Membership
  import opened Bytes
  import B = BbaSpec
  import R = RbcSpec
  import Bba
  import Rbc
  import opened AcsSpec

  ghost function RbcStates(rs: map<nat, Rbc.RBC>): map<nat, R.Node>
    reads rs.Values
  {
    map j | j in rs :: rs[j].State()
  }

  ghost function BbaStates(bs: map<nat, Bba.BBA>): map<nat, B.Node>
    reads bs.Values
  {
    map j | j in bs :: bs[j].State()
  }

  lemma KeysOfStates(bs: map<nat, Bba.BBA>)
    ensures BbaStates(bs).Keys == bs.Keys
  {
  }

  /** Every proposer has a broadcast of its own. */
  ghost predicate RbcsValid(c: Setup, rs: map<nat, Rbc.RBC>)
    reads rs.Values
  {
    && (forall j :: j in rs ==> rs[j].Valid() && rs[j].inst == c.For(j))
    && (forall i, j :: i in rs && j in rs && i != j ==> rs[i] != rs[j])
  }

  /** And an agreement of its own. */
  ghost predicate BbasValid(c: Setup, bs: map<nat, Bba.BBA>)
    reads bs.Values
  {
    && (forall j :: j in bs ==> bs[j].cfg == c.cfg)
    && (forall i, j :: i in bs && j in bs && i != j ==> bs[i] != bs[j])
  }

  // ----- false inputs, one agreement at a time -----

  ghost predicate Refuses(c: Setup, s: Node, done: set<nat>, j: nat)
    requires c.cfg.Sound()
  {
    j in s.bbas && j in done && B.AcceptsInput(s.bbas[j])
  }

  /** What an agreement that got false has put out at once. */
  ghost function Retorts(c: Setup, s: Node, done: set<nat>): map<nat, bool>
    requires c.cfg.Sound()
  {
    map j | j in s.bbas && Refuses(c, s, done, j) && Refused(c, s.bbas[j]).output.Some?
      :: Refused(c, s.bbas[j]).output.value
  }

  /** Those of `done` that accepted an input have got false. */
  ghost function Injected(c: Setup, s: Node, done: set<nat>): Node
    requires c.cfg.Sound()
  {
    s.(bbas := map j | j in s.bbas :: if Refuses(c, s, done, j) then Settle(Refused(c, s.bbas[j])) else s.bbas[j],
       bbaResults := s.bbaResults + Retorts(c, s, done))
  }

  ghost function InjectOne(c: Setup, s: Node, id: nat): Node
    requires c.cfg.Sound() && id in s.bbas
  {
    if !B.AcceptsInput(s.bbas[id]) then s
    else
      var b := Refused(c, s.bbas[id]);
      s.(bbas := s.bbas[id := Settle(b)],
         bbaResults := if b.output.Some? then s.bbaResults[id := b.output.value] else s.bbaResults)
  }

  lemma InjectedNone(c: Setup, s: Node)
    requires c.cfg.Sound()
    ensures Injected(c, s, {}) == s
  {
    hide Refused, B.AcceptsInput;
    assert Injected(c, s, {}).bbas == s.bbas;
    assert Injected(c, s, {}).bbaResults == s.bbaResults;
  }

  lemma MoreRetorts(c: Setup, s: Node, done: set<nat>, id: nat)
    requires c.cfg.Sound() && id in s.bbas && id !in done
    ensures Retorts(c, s, done + {id}) ==
      if B.AcceptsInput(s.bbas[id]) && Refused(c, s.bbas[id]).output.Some?
      then Retorts(c, s, done)[id := Refused(c, s.bbas[id]).output.value] else Retorts(c, s, done)
  {
    hide Refused, B.AcceptsInput;
  }

  lemma MoreRefused(c: Setup, s: Node, done: set<nat>, id: nat)
    requires c.cfg.Sound() && id in s.bbas && id !in done
    ensures Injected(c, s, done).bbas.Keys == s.bbas.Keys && Injected(c, s, done).bbas[id] == s.bbas[id]
    ensures Injected(c, s, done + {id}).bbas == InjectOne(c, Injected(c, s, done), id).bbas
  {
    hide Refused, B.AcceptsInput, Retorts, Settle;
  }

  lemma MoreResults(results: map<nat, bool>, more: map<nat, bool>, id: nat, v: bool)
    ensures results + more[id := v] == (results + more)[id := v]
  {
  }

  lemma InjectedMore(c: Setup, s: Node, done: set<nat>, id: nat)
    requires c.cfg.Sound() && id in s.bbas && id !in done
    ensures id in Injected(c, s, done).bbas
    ensures Injected(c, s, done + {id}) == InjectOne(c, Injected(c, s, done), id)
  {
    hide Refused, B.AcceptsInput, Retorts, Settle, Refuses;
    MoreRetorts(c, s, done, id);
    MoreRefused(c, s, done, id);
    if Refused(c, s.bbas[id]).output.Some? {
      MoreResults(s.bbaResults, Retorts(c, s, done), id, Refused(c, s.bbas[id]).output.value);
    }
  }

  lemma InjectedAll(c: Setup, s: Node)
    requires c.cfg.Sound()
    ensures Injected(c, s, s.bbas.Keys) == InjectFalse(c, s)
  {
    hide Refused, B.AcceptsInput;
    assert Injected(c, s, s.bbas.Keys).bbas == InjectFalse(c, s).bbas;
    assert Injected(c, s, s.bbas.Keys).bbaResults == InjectFalse(c, s).bbaResults;
  }

  // ----- objects -----

  method NewBroadcasts(c: Setup) returns (rs: map<nat, Rbc.RBC>)
    requires c.cfg.Sound() && c.codec.Lawful(c.cfg.n)
    ensures fresh(rs.Values) && RbcsValid(c, rs) && RbcStates(rs) == Fresh(c.nodes).rbcs
  {
    rs := map[];
    var todo := c.nodes;
    while todo != {}
      invariant todo <= c.nodes && rs.Keys == c.nodes - todo
      invariant forall j :: j in rs ==> fresh(rs[j]) && rs[j].State() == R.Fresh && rs[j].inst == c.For(j)
      invariant forall i, j :: i in rs && j in rs && i != j ==> rs[i] != rs[j]
      decreases todo
    {
      var j :| j in todo;
      var r := new Rbc.RBC(c.cfg.n, c.cfg.f, c.cfg.id, j, c.codec);
      rs, todo := rs[j := r], todo - {j};
    }
  }

  method NewAgreements(c: Setup) returns (bs: map<nat, Bba.BBA>)
    requires c.cfg.Sound()
    ensures fresh(bs.Values) && BbasValid(c, bs) && BbaStates(bs) == Fresh(c.nodes).bbas
  {
    bs := map[];
    var todo := c.nodes;
    while todo != {}
      invariant todo <= c.nodes && bs.Keys == c.nodes - todo
      invariant forall j :: j in bs ==> fresh(bs[j]) && bs[j].State() == B.Fresh && bs[j].cfg == c.cfg
      invariant forall i, j :: i in bs && j in bs && i != j ==> bs[i] != bs[j]
      decreases todo
    {
      var j :| j in todo;
      var b := new Bba.BBA(c.cfg.n, c.cfg.f, c.cfg.id);
      bs, todo := bs[j := b], todo - {j};
    }
  }

  class ACS {
    const setup: Setup
    const rbcInstances: map<nat, Rbc.RBC>
    const bbaInstances: map<nat, Bba.BBA>
    var rbcResults: map<nat, Bytes>
    var bbaResults: map<nat, bool>
    var output: Option<map<nat, Bytes>>
    var decided: bool

    ghost var agreed: Option<map<nat, Bytes>>

    ghost predicate Valid()
      reads this, rbcInstances.Values, bbaInstances.Values
    {
      setup.cfg.Sound() && RbcsValid(setup, rbcInstances) && BbasValid(setup, bbaInstances)
    }

    ghost function State(): Node
      reads this, rbcInstances.Values, bbaInstances.Values
    {
      Node(RbcStates(rbcInstances), BbaStates(bbaInstances), rbcResults, bbaResults, output, decided, agreed)
    }

    constructor (n: nat, f: nat, id: nat, nodes: set<nat>, codec: R.Codec)
      requires n == |nodes| && codec.Lawful(n)
      requires if f == 0 then n >= 4 else n >= 3 * f + 1
      ensures setup == Setup(Config(n, if f == 0 then (n - 1) / 3 else f, id), nodes, codec)
      ensures Valid() && fresh(rbcInstances.Values) && fresh(bbaInstances.Values)
      ensures State() == Fresh(nodes)
    {
      hide RbcStates, BbaStates, RbcsValid, BbasValid;
      var c := Setup(Config(n, if f == 0 then (n - 1) / 3 else f, id), nodes, codec);
      var rs := NewBroadcasts(c);
      var bs := NewAgreements(c);
      setup, rbcInstances, bbaInstances := c, rs, bs;
      rbcResults, bbaResults, output, decided, agreed := map[], map[], None, false, None;
    }

    method Output() returns (out: Option<map<nat, Bytes>>)
      modifies this`output
      ensures out == old(output) && State() == old(State()).(output := None)
    {
      out := output;
      output := None;
    }

    method CountTruthyAgreements() returns (count: nat)
      ensures count == |Truthy(bbaResults)|
    {
      count := 0;
      var todo := bbaResults.Keys;
      ghost var counted: set<nat> := {};
      while todo != {}
        invariant todo <= bbaResults.Keys && count == |counted|
        invariant counted == set j | j in bbaResults && j !in todo && bbaResults[j]
        decreases todo
      {
        var j :| j in todo;
        if bbaResults[j] {
          count := count + 1;
          counted := counted + {j};
        }
        todo := todo - {j};
      }
      assert counted == Truthy(bbaResults);
    }

    /** The values of the proposers that got true, unless one is still missing. */
    method CollectResults() returns (results: Option<map<nat, Bytes>>)
      ensures results.None? <==> !(Truthy(bbaResults) <= rbcResults.Keys)
      ensures results.Some? ==> results.value == map j | j in Truthy(bbaResults) && j in rbcResults :: rbcResults[j]
    {
      var bcResults: map<nat, Bytes> := map[];
      var todo := Truthy(bbaResults);
      while todo != {}
        invariant todo <= Truthy(bbaResults)
        invariant Truthy(bbaResults) - todo <= rbcResults.Keys
        invariant bcResults == map j | j in Truthy(bbaResults) && j !in todo && j in rbcResults :: rbcResults[j]
        decreases todo
      {
        var j :| j in todo;
        if j !in rbcResults {
          return None;
        }
        bcResults := bcResults[j := rbcResults[j]];
        todo := todo - {j};
      }
      results := Some(bcResults);
    }

    method TryCompleteAgreement()
      modifies this`output, this`decided, this`agreed
      ensures State() == TryComplete(setup, old(State()))
    {
      hide Truthy, RbcStates, BbaStates;
      var count := CountTruthyAgreements();
      if decided || count < setup.cfg.n - setup.cfg.f {
        return;
      }
      if |bbaResults| < setup.cfg.n {
        return;
      }
      var results := CollectResults();
      ghost var s := State();
      if results.None? {
        return;
      }
      assert results.value == Subset(s);
      output, decided, agreed := results, true, results;
    }

    /** Only the agreement of pid and the instance's own fields have changed. */
    twostate lemma OneAgreement(pid: nat)
      requires old(Valid()) && pid in bbaInstances
      requires unchanged(rbcInstances.Values) && unchanged(bbaInstances.Values - {bbaInstances[pid]})
      ensures Valid()
      ensures RbcStates(rbcInstances) == old(RbcStates(rbcInstances))
      ensures BbaStates(bbaInstances) == old(BbaStates(bbaInstances))[pid := bbaInstances[pid].State()]
    {
    }

    /** Only the broadcast of pid and the instance's own fields have changed. */
    twostate lemma OneBroadcast(pid: nat)
      requires old(Valid()) && pid in rbcInstances
      requires rbcInstances[pid].Valid()
      requires unchanged(bbaInstances.Values) && unchanged(rbcInstances.Values - {rbcInstances[pid]})
      ensures Valid()
      ensures BbaStates(bbaInstances) == old(BbaStates(bbaInstances))
      ensures RbcStates(rbcInstances) == old(RbcStates(rbcInstances))[pid := rbcInstances[pid].State()]
    {
    }

    /** Takes what an agreement has to say; its messages are then on their way. */
    method Collect(bba: Bba.BBA) returns (out: Option<bool>)
      modifies bba
      ensures out == old(bba.output) && bba.State() == Settle(old(bba.State()))
    {
      var _ := bba.Messages();
      out := bba.Output();
    }

    method RefuseInput(id: nat)
      requires Valid() && id in bbaInstances
      modifies this`bbaResults, bbaInstances[id]
      ensures Valid() && State() == InjectOne(setup, old(State()), id)
    {
      hide RbcStates, RbcsValid;
      var bba := bbaInstances[id];
      if !bba.AcceptInput() {
        return;
      }
      bba.InputValue(false);
      var out := Collect(bba);
      if out.Some? {
        bbaResults := bbaResults[id := out.value];
      }
      OneAgreement(id);
    }

    /** Gives false to every agreement that still accepts an input, in no particular order. */
    method InjectFalseInputs()
      requires Valid()
      modifies this`bbaResults, bbaInstances.Values
      ensures Valid() && State() == InjectFalse(setup, old(State()))
    {
      hide RbcStates, RbcsValid, BbaStates, BbasValid, Injected, InjectOne, InjectFalse;
      ghost var before := State();
      var todo := bbaInstances.Keys;
      InjectedNone(setup, before);
      assert before.bbas.Keys == bbaInstances.Keys by { KeysOfStates(bbaInstances); }
      assert bbaInstances.Keys - todo == {};
      while todo != {}
        invariant todo <= bbaInstances.Keys && Valid()
        invariant State() == Injected(setup, before, bbaInstances.Keys - todo)
        decreases todo
      {
        var id :| id in todo;
        InjectedMore(setup, before, bbaInstances.Keys - todo, id);
        RefuseInput(id);
        assert bbaInstances.Keys - (todo - {id}) == (bbaInstances.Keys - todo) + {id};
        todo := todo - {id};
      }
      assert bbaInstances.Keys - todo == before.bbas.Keys;
      InjectedAll(setup, before);
    }

    method Perform(bba: Bba.BBA, a: Action) returns (err: bool)
      requires setup.cfg.Sound() && bba.cfg == setup.cfg
      modifies bba
      ensures bba.State() == Act(setup, old(bba.State()), a)
      ensures err == Fails(old(bba.State()), a)
    {
      err := false;
      match a {
        case Provide(v) =>
          if bba.AcceptInput() {
            bba.InputValue(v);
          }
        case Hand(sid, m) =>
          err := bba.Handle(sid, m);
      }
    }

    /** Closes the other inputs if the true results are a quorum, no more. */
    method CloseAtQuorum()
      requires Valid()
      modifies this`bbaResults, bbaInstances.Values
      ensures Valid()
      ensures State() == if |Truthy(old(bbaResults))| == setup.cfg.n - setup.cfg.f
                         then InjectFalse(setup, old(State())) else old(State())
    {
      hide RbcStates, RbcsValid, BbaStates, BbasValid, InjectFalse, Truthy;
      var count := CountTruthyAgreements();
      if count == setup.cfg.n - setup.cfg.f {
        InjectFalseInputs();
      }
    }

    /** Stores a result; the one that completes a quorum of true results closes the other inputs. */
    method StoreResult(pid: nat, v: bool)
      requires Valid()
      modifies this, bbaInstances.Values
      ensures Valid() && State() == TakeResult(setup, old(State()), pid, v)
    {
      hide RbcStates, RbcsValid, BbaStates, BbasValid, InjectFalse, TryComplete, Truthy;
      bbaResults := bbaResults[pid := v];
      if v {
        CloseAtQuorum();
      }
      TryCompleteAgreement();
    }

    method ProcessAgreement(pid: nat, a: Action) returns (err: bool)
      requires Valid()
      modifies this, bbaInstances.Values
      ensures Valid() && Step(State(), err) == AcsSpec.ProcessAgreement(setup, old(State()), pid, a)
    {
      hide RbcStates, RbcsValid, TakeResult, Act, Fails;
      if pid !in bbaInstances {
        return true;
      }
      var bba := bbaInstances[pid];
      if bba.done {
        return false;
      }
      var failed := Perform(bba, a);
      if failed {
        OneAgreement(pid);
        return true;
      }
      var out := Collect(bba);
      OneAgreement(pid);
      if out.None? {
        return false;
      }
      if pid in bbaResults {
        return true;
      }
      StoreResult(pid, out.value);
      err := false;
    }

    /** What a broadcast has just put out is stored and voted for. */
    method StoreValue(pid: nat, value: Bytes) returns (err: bool)
      requires Valid()
      modifies this, bbaInstances.Values
      ensures Valid()
      ensures var s := old(State());
              Step(State(), err) ==
                AcsSpec.ProcessAgreement(setup, s.(rbcResults := s.rbcResults[pid := value]), pid, Provide(true))
    {
      hide RbcStates, RbcsValid, BbaStates, BbasValid, AcsSpec.ProcessAgreement;
      rbcResults := rbcResults[pid := value];
      err := ProcessAgreement(pid, Provide(true));
    }

    /** And if that did not fail, the subset may be complete. */
    method UseValue(pid: nat, value: Bytes) returns (err: bool)
      requires Valid()
      modifies this, bbaInstances.Values
      ensures Valid()
      ensures var s := old(State());
              var stored := s.(rbcResults := s.rbcResults[pid := value]);
              var u := AcsSpec.ProcessAgreement(setup, stored, pid, Provide(true));
              Step(State(), err) == if u.err then u else Step(TryComplete(setup, u.node), false)
    {
      hide RbcStates, RbcsValid, BbaStates, BbasValid, AcsSpec.ProcessAgreement, TryComplete;
      err := StoreValue(pid, value);
      if !err {
        TryCompleteAgreement();
      }
    }

    /** Takes what a broadcast has to say; its messages are then on their way. */
    method CollectBroadcast(rbc: Rbc.RBC) returns (out: Option<Bytes>)
      requires rbc.Valid()
      modifies rbc
      ensures rbc.Valid() && out == old(rbc.output)
      ensures rbc.State() == old(rbc.State()).(messages := [], output := None)
    {
      var _ := rbc.Messages();
      out := rbc.Output();
    }

    method HandleBroadcast(sid: nat, pid: nat, m: R.Message) returns (err: bool, ghost pick: R.Picker)
      requires Valid() && pid in rbcInstances
      modifies this, bbaInstances.Values, rbcInstances.Values
      ensures Valid() && R.Picks(pick)
      ensures Step(State(), err) ==
        ProcessBroadcast(setup, old(State()), pid,
                         R.HandleMessage(setup.For(pid), old(rbcInstances[pid].State()), sid, m, pick))
    {
      hide BbaStates, BbasValid, AcsSpec.ProcessAgreement, TryComplete, R.HandleMessage;
      var rbc := rbcInstances[pid];
      err, pick := rbc.HandleMessage(sid, m);
      if err || rbc.halted {
        OneBroadcast(pid);
        return true, pick;
      }
      var out := CollectBroadcast(rbc);
      OneBroadcast(pid);
      if out.Some? {
        err := UseValue(pid, out.value);
      }
    }

    method HandleMessage(sid: nat, m: Message) returns (err: bool, ghost pick: R.Picker)
      requires Valid()
      modifies this, bbaInstances.Values, rbcInstances.Values
      ensures Valid() && R.Picks(pick)
      ensures Step(State(), err) == AcsSpec.HandleMessage(setup, old(State()), sid, m, pick)
    {
      hide BbaStates, BbasValid, RbcsValid, AcsSpec.ProcessAgreement, ProcessBroadcast, R.HandleMessage;
      pick := Rbc.SomePick();
      match m.payload {
        case Agreement(b) =>
          err := ProcessAgreement(m.proposer, Hand(sid, b));
        case Broadcast(r) =>
          if m.proposer !in rbcInstances {
            return true, pick;
          }
          err, pick := HandleBroadcast(sid, m.proposer, r);
        case Unknown =>
          err := true;
      }
    }

    /** The own proposal; unlike a handled message this does not look whether the subset is complete. */
    method InputValue(data: Bytes) returns (err: bool, ghost pick: R.Picker)
      requires Valid()
      modifies this, bbaInstances.Values, rbcInstances.Values
      ensures Valid() && R.Picks(pick)
      ensures Step(State(), err) == AcsSpec.InputValue(setup, old(State()), data, pick)
    {
      hide BbaStates, BbasValid, AcsSpec.ProcessAgreement, R.InputValue;
      pick := Rbc.SomePick();
      var id := setup.cfg.id;
      if id !in rbcInstances {
        return true, pick;
      }
      var rbc := rbcInstances[id];
      var reqs;
      reqs, pick := rbc.InputValue(data);
      if reqs.None? || rbc.halted {
        OneBroadcast(id);
        return true, pick;
      }
      var out := CollectBroadcast(rbc);
      OneBroadcast(id);
      if out.Some? {
        var _ := StoreValue(id, out.value);
      }
      err := false;
    }
  }
}
