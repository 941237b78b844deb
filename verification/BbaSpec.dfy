/** What one handler call of a binary agreement instance does to its state, as functions. */
module BbaSpec {
  import opened Options
  import opened Membership

  /** A message body; Unknown stands for any payload the handler has no case for. */
  datatype Payload = Bval(value: bool) | Aux(value: bool) | Unknown

  datatype Message = Message(epoch: int, body: Payload)

  datatype Delayed = Delayed(sid: nat, msg: Message)

  /** BVAL senders of the current epoch, by value. */
  datatype Tally = Tally(no: set<nat>, yes: set<nat>) {
    function Of(v: bool): set<nat> {
      if v then yes else no
    }

    function Add(v: bool, sid: nat): Tally {
      if v then this.(yes := yes + {sid}) else this.(no := no + {sid})
    }
  }

  /** What an instance held when it left an epoch. */
  datatype Round = Round(bvals: Tally, bin: seq<bool>, aux: map<nat, bool>)

  /** The fields of the instance, then five history variables that no branch reads:
      the input it took, one Round per epoch left, every message it ever queued for
      broadcast, every message it was ever handed, and the epoch it decided in. */
  datatype Node = Node(
    epoch: nat,
    binValues: seq<bool>,
    sentBvals: seq<bool>,
    recvBval: Tally,
    recvAux: map<nat, bool>,
    done: bool,
    output: Option<bool>,
    estimated: Option<bool>,
    decision: Option<bool>,
    delayed: seq<Delayed>,
    messages: seq<Message>,
    input: Option<bool>,
    trail: seq<Round>,
    log: set<Message>,
    heard: set<Delayed>,
    decidedAt: Option<nat>)

  const NoVotes := Tally({}, {})

  const Fresh := Node(0, [], [], NoVotes, map[], false, None, None, None, [], [],
                      None, [], {}, {}, None)

  function Coin(epoch: nat): bool {
    epoch % 2 == 0
  }

  function ValidAux(aux: map<nat, bool>, bin: seq<bool>): set<nat> {
    set s | s in aux && aux[s] in bin
  }

  predicate Seen(aux: map<nat, bool>, bin: seq<bool>, v: bool) {
    v in bin && v in aux.Values
  }

  function Values(aux: map<nat, bool>, bin: seq<bool>): seq<bool> {
    (if Seen(aux, bin, false) then [false] else []) + (if Seen(aux, bin, true) then [true] else [])
  }

  /** The estimate for the epoch after `epoch`, from the AUX values accepted in it. */
  function NextEstimate(vals: seq<bool>, epoch: nat): bool {
    if |vals| == 1 then vals[0] else Coin(epoch)
  }

  predicate AcceptsInput(s: Node) {
    s.epoch == 0 && s.estimated.None?
  }

  /** Queues a message of the current epoch for broadcast. */
  function Say(s: Node, body: Payload): Node {
    var m := Message(s.epoch, body);
    s.(messages := s.messages + [m], log := s.log + {m})
  }

  /** Clears what is bound to the epoch and increments it. */
  function NextEpoch(s: Node): Node {
    s.(epoch := s.epoch + 1, binValues := [], sentBvals := [], recvBval := NoVotes, recvAux := map[],
       trail := s.trail + [Round(s.recvBval, s.binValues, s.recvAux)])
  }

  /** In a new epoch, the estimate and possibly the decision follow from the AUX values accepted before it. */
  function Estimate(s: Node, vals: seq<bool>): Node
    requires s.epoch > 0
  {
    var est := NextEstimate(vals, s.epoch - 1);
    var t := s.(estimated := Some(est));
    if |vals| == 1 && s.decision.None? && est == Coin(s.epoch - 1)
    then t.(output := Some(est), decision := Some(est), decidedAt := Some(s.epoch - 1)) else t
  }

  /** Leaves the epoch, and queues the new estimate as a BVAL. */
  function Advance(s: Node): Node {
    var e := Estimate(NextEpoch(s), Values(s.recvAux, s.binValues));
    Say(e.(sentBvals := e.sentBvals + [e.estimated.value]), Bval(e.estimated.value))
  }

  /** `top` bounds the epochs of the queue; past it nothing but the own vote is known. */
  ghost predicate Bounded(c: Config, s: Node, top: nat) {
    && s.epoch <= top + 1
    && (s.epoch == top + 1 ==>
          s.recvBval.no <= {c.id} && s.recvBval.yes <= {c.id} && s.recvAux == map[] && s.binValues == [])
    && forall d :: d in s.delayed ==> d.msg.epoch <= top
  }

  ghost function HandleMessage(c: Config, s: Node, sid: nat, m: Message, top: nat): (r: Node)
    requires c.Sound() && Bounded(c, s, top) && m.epoch <= top
    ensures Bounded(c, r, top) && s.epoch <= r.epoch
    decreases top + 1 - s.epoch, 4, 0
  {
    var h := s.(heard := s.heard + {Delayed(sid, m)});
    if s.done || m.epoch < s.epoch then h
    else if m.epoch > s.epoch then h.(delayed := h.delayed + [Delayed(sid, m)])
    else match m.body
      case Bval(v) => HandleBval(c, h, sid, v, top)
      case Aux(v) => HandleAux(c, h, sid, v, top)
      case Unknown => h
  }

  ghost function HandleBval(c: Config, s: Node, sid: nat, v: bool, top: nat): (r: Node)
    requires c.Sound() && Bounded(c, s, top) && (s.epoch <= top || sid == c.id)
    ensures Bounded(c, r, top) && s.epoch <= r.epoch
    decreases top + 1 - s.epoch, 3, if v in s.sentBvals then 0 else 1
  {
    var t := s.(recvBval := s.recvBval.Add(v, sid));
    var count := |t.recvBval.Of(v)|;
    assert s.epoch == top + 1 ==> count <= 1 by {
      if s.epoch == top + 1 { SubsetSize(t.recvBval.Of(v), {c.id}); }
    }
    if count == 2 * c.f + 1 then
      var a := t.(binValues := t.binValues + [v]);
      if t.binValues == [] then HandleAux(c, Say(a, Aux(v)), c.id, v, top) else TryOutput(c, a, top)
    else if count == c.f + 1 && v !in t.sentBvals then
      HandleBval(c, Say(t.(sentBvals := t.sentBvals + [v]), Bval(v)), c.id, v, top)
    else t
  }

  ghost function HandleAux(c: Config, s: Node, sid: nat, v: bool, top: nat): (r: Node)
    requires c.Sound() && Bounded(c, s, top) && s.epoch <= top
    ensures Bounded(c, r, top) && s.epoch <= r.epoch
    decreases top + 1 - s.epoch, 2, 0
  {
    TryOutput(c, s.(recvAux := s.recvAux[sid := v]), top)
  }

  ghost function TryOutput(c: Config, s: Node, top: nat): (r: Node)
    requires c.Sound() && Bounded(c, s, top) && s.epoch <= top
    ensures Bounded(c, r, top) && s.epoch <= r.epoch
    decreases top + 1 - s.epoch, 1, 0
  {
    if s.binValues == [] || |ValidAux(s.recvAux, s.binValues)| < c.n - c.f then s
    else if s.done || s.decision == Some(Coin(s.epoch)) then s.(done := true)
    else Enter(c, Advance(s), top)
  }

  /** On entering an epoch: the own vote, then the messages queued for it. */
  ghost function Enter(c: Config, s: Node, top: nat): (r: Node)
    requires c.Sound() && Bounded(c, s, top) && s.estimated.Some?
    ensures Bounded(c, r, top) && s.epoch <= r.epoch
    decreases top + 1 - s.epoch, 6, 0
  {
    var b := HandleBval(c, s, c.id, s.estimated.value, top);
    Replay(c, b, b.delayed, 0, top).(delayed := [])
  }

  /** Handles the messages of a queue captured when the loop began, from index i on. */
  ghost function Replay(c: Config, s: Node, queue: seq<Delayed>, i: nat, top: nat): (r: Node)
    requires c.Sound() && Bounded(c, s, top) && i <= |queue|
    requires forall d :: d in queue ==> d.msg.epoch <= top
    ensures Bounded(c, r, top) && s.epoch <= r.epoch
    decreases top + 1 - s.epoch, 5, |queue| - i
  {
    if i == |queue| then s
    else Replay(c, HandleMessage(c, s, queue[i].sid, queue[i].msg, top), queue, i + 1, top)
  }

  ghost function InputValue(c: Config, s: Node, v: bool, top: nat): (r: Node)
    requires c.Sound() && Bounded(c, s, top)
    ensures Bounded(c, r, top)
  {
    if !AcceptsInput(s) then s
    else HandleBval(c, Say(s.(estimated := Some(v), input := Some(v), sentBvals := s.sentBvals + [v]), Bval(v)),
                    c.id, v, top)
  }

  // ----- entry points, with the bound read off the state -----

  function Largest(queue: seq<Delayed>): (r: nat)
    ensures forall d :: d in queue ==> d.msg.epoch <= r
  {
    if queue == [] then 0
    else
      var rest := Largest(queue[1..]);
      assert queue == [queue[0]] + queue[1..];
      if queue[0].msg.epoch > rest then queue[0].msg.epoch else rest
  }

  /** No epoch among the current one, the queue and `epoch` is past this. */
  function Top(s: Node, epoch: int): (r: nat)
    ensures s.epoch <= r && epoch <= r && forall d :: d in s.delayed ==> d.msg.epoch <= r
  {
    var q := Largest(s.delayed);
    var a := if s.epoch > q then s.epoch else q;
    if epoch > a then epoch else a
  }

  ghost function Handle(c: Config, s: Node, sid: nat, m: Message): Node
    requires c.Sound()
  {
    HandleMessage(c, s, sid, m, Top(s, m.epoch))
  }

  ghost function Input(c: Config, s: Node, v: bool): Node
    requires c.Sound()
  {
    InputValue(c, s, v, Top(s, 0))
  }

  /** Only a message of a type the handler does not know, in its epoch, is an error. */
  predicate Rejects(s: Node, m: Message) {
    !s.done && m.epoch == s.epoch && m.body.Unknown?
  }
}
