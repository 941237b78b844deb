/** What one event does to a common subset instance and its children, as functions. */
module AcsSpec {
  import opened Options
  import opened Membership
  import opened Bytes
  import B = BbaSpec
  import R = RbcSpec

  /** A participant's configuration: itself, the members, the libraries. */
  datatype Setup = Setup(cfg: Config, nodes: set<nat>, codec: R.Codec) {
    ghost predicate Sound() {
      cfg.Sound() && |nodes| == cfg.n && cfg.id in nodes && codec.Lawful(cfg.n)
    }

    function For(pid: nat): R.Instance {
      R.Instance(cfg, pid, codec)
    }
  }

  datatype Payload = Agreement(bba: B.Message) | Broadcast(rbc: R.Message) | Unknown

  datatype Message = Message(proposer: nat, payload: Payload)

  /** The children by proposer, the results, and the decided subset, which `output` hands out once. */
  datatype Node = Node(
    rbcs: map<nat, R.Node>,
    bbas: map<nat, B.Node>,
    rbcResults: map<nat, Bytes>,
    bbaResults: map<nat, bool>,
    output: Option<map<nat, Bytes>>,
    decided: bool,
    agreed: Option<map<nat, Bytes>>)

  datatype Step = Step(node: Node, err: bool)

  function Fresh(nodes: set<nat>): Node {
    Node(map j | j in nodes :: R.Fresh, map j | j in nodes :: B.Fresh, map[], map[], None, false, None)
  }

  function Truthy(results: map<nat, bool>): set<nat> {
    set j | j in results && results[j]
  }

  /** A stopped process takes no step. */
  predicate Halted(s: Node) {
    exists j :: j in s.rbcs && s.rbcs[j].halted
  }

  /** What a child said is passed on, and what it put out is taken. */
  function Settle(b: B.Node): B.Node {
    b.(messages := [], output := None)
  }

  ghost function Refused(c: Setup, b: B.Node): B.Node
    requires c.cfg.Sound()
  {
    B.Input(c.cfg, b, false)
  }

  /** Every agreement that still accepts an input gets false. */
  ghost function InjectFalse(c: Setup, s: Node): Node
    requires c.cfg.Sound()
  {
    s.(bbas := map j | j in s.bbas ::
         if B.AcceptsInput(s.bbas[j]) then Settle(Refused(c, s.bbas[j])) else s.bbas[j],
       bbaResults := s.bbaResults +
         map j | j in s.bbas && B.AcceptsInput(s.bbas[j]) && Refused(c, s.bbas[j]).output.Some?
           :: Refused(c, s.bbas[j]).output.value)
  }

  predicate Complete(c: Setup, s: Node) {
    && |Truthy(s.bbaResults)| >= c.cfg.n - c.cfg.f
    && |s.bbaResults| >= c.cfg.n
    && Truthy(s.bbaResults) <= s.rbcResults.Keys
  }

  /** The values of the proposers whose agreement gave true. */
  function Subset(s: Node): map<nat, Bytes>
    requires Truthy(s.bbaResults) <= s.rbcResults.Keys
  {
    map j | j in Truthy(s.bbaResults) :: s.rbcResults[j]
  }

  function TryComplete(c: Setup, s: Node): Node {
    if s.decided || !Complete(c, s) then s
    else
      var subset := Subset(s);
      s.(output := Some(subset), decided := true, agreed := Some(subset))
  }

  datatype Action = Provide(value: bool) | Hand(sid: nat, msg: B.Message)

  ghost function Act(c: Setup, b: B.Node, a: Action): B.Node
    requires c.cfg.Sound()
  {
    match a
    case Provide(v) => if B.AcceptsInput(b) then B.Input(c.cfg, b, v) else b
    case Hand(sid, m) => B.Handle(c.cfg, b, sid, m)
  }

  predicate Fails(b: B.Node, a: Action) {
    a.Hand? && B.Rejects(b, a.msg)
  }

  ghost function ProcessAgreement(c: Setup, s: Node, pid: nat, a: Action): Step
    requires c.cfg.Sound()
  {
    if pid !in s.bbas then Step(s, true)
    else if s.bbas[pid].done then Step(s, false)
    else
      var b := Act(c, s.bbas[pid], a);
      if Fails(s.bbas[pid], a) then Step(s.(bbas := s.bbas[pid := b]), true)
      else
        var t := s.(bbas := s.bbas[pid := Settle(b)]);
        if b.output.None? then Step(t, false)
        else if pid in s.bbaResults then Step(t, true)
        else Step(TakeResult(c, t, pid, b.output.value), false)
  }

  /** A result arrives; the one that completes a quorum of true results closes the other inputs. */
  ghost function TakeResult(c: Setup, s: Node, pid: nat, v: bool): Node
    requires c.cfg.Sound()
  {
    var t := s.(bbaResults := s.bbaResults[pid := v]);
    TryComplete(c, if v && |Truthy(t.bbaResults)| == c.cfg.n - c.cfg.f then InjectFalse(c, t) else t)
  }

  ghost function ProcessBroadcast(c: Setup, s: Node, pid: nat, r: R.Step): Step
    requires c.cfg.Sound() && pid in s.rbcs
  {
    if r.err || r.node.halted then Step(s.(rbcs := s.rbcs[pid := r.node]), true)
    else
      var t := s.(rbcs := s.rbcs[pid := r.node.(messages := [], output := None)]);
      if r.node.output.None? then Step(t, false)
      else
        var u := ProcessAgreement(c, t.(rbcResults := t.rbcResults[pid := r.node.output.value]), pid, Provide(true));
        if u.err then u else Step(TryComplete(c, u.node), false)
  }

  ghost function HandleMessage(c: Setup, s: Node, sid: nat, m: Message, pick: R.Picker): Step
    requires c.cfg.Sound()
  {
    match m.payload
    case Agreement(b) => ProcessAgreement(c, s, m.proposer, Hand(sid, b))
    case Broadcast(r) =>
      if m.proposer !in s.rbcs then Step(s, true)
      else ProcessBroadcast(c, s, m.proposer, R.HandleMessage(c.For(m.proposer), s.rbcs[m.proposer], sid, r, pick))
    case Unknown => Step(s, true)
  }

  /** The own proposal; unlike a handled message this does not look whether the subset is complete. */
  ghost function InputValue(c: Setup, s: Node, data: Bytes, pick: R.Picker): Step
    requires c.cfg.Sound()
  {
    if c.cfg.id !in s.rbcs then Step(s, true)
    else
      var r := R.InputValue(c.For(c.cfg.id), s.rbcs[c.cfg.id], data, pick);
      if r.err || r.node.halted then Step(s.(rbcs := s.rbcs[c.cfg.id := r.node]), true)
      else
        var t := s.(rbcs := s.rbcs[c.cfg.id := r.node.(messages := [], output := None)]);
        if r.node.output.None? then Step(t, false)
        else
          var u := t.(rbcResults := t.rbcResults[c.cfg.id := r.node.output.value]);
          Step(ProcessAgreement(c, u, c.cfg.id, Provide(true)).node, false)
  }
}
