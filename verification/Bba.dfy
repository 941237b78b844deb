/** The binary agreement instance: fields updated in place by handlers that re-enter each other. */
module Bba {
  import opened Options
  import opened Membership
  import opened BbaSpec

  ghost function GivenBy(aux: map<nat, bool>, who: set<nat>): set<bool> {
    set s | s in who && s in aux :: aux[s]
  }

  lemma GivenByOne(aux: map<nat, bool>, who: set<nat>, s: nat)
    requires s in aux
    ensures GivenBy(aux, who + {s}) == GivenBy(aux, who) + {aux[s]}
  {
  }

  lemma Senders(aux: map<nat, bool>, bin: seq<bool>)
    ensures ValidAux(aux, bin) <= aux.Keys && GivenBy(aux, {}) == {}
  {
  }

  lemma OneSender(aux: map<nat, bool>, bin: seq<bool>, todo: set<nat>, s: nat)
    requires s in aux && s in todo
    ensures ValidAux(aux, bin) - (todo - {s}) ==
      if aux[s] in bin then ValidAux(aux, bin) - todo + {s} else ValidAux(aux, bin) - todo
  {
    assert s in ValidAux(aux, bin) <==> aux[s] in bin;
  }

  /** The values given by the senders of admitted values are the values seen. */
  lemma GivenIsSeen(aux: map<nat, bool>, bin: seq<bool>)
    ensures forall v: bool :: v in GivenBy(aux, ValidAux(aux, bin)) <==> Seen(aux, bin, v)
  {
    forall v: bool | Seen(aux, bin, v) ensures v in GivenBy(aux, ValidAux(aux, bin)) {
      var s :| s in aux && aux[s] == v;
      assert s in ValidAux(aux, bin);
    }
  }

  class BBA {
    const cfg: Config
    var epoch: nat
    var binValues: seq<bool>
    var sentBvals: seq<bool>
    var recvBval: Tally
    var recvAux: map<nat, bool>
    var done: bool
    var output: Option<bool>
    var estimated: Option<bool>
    var decision: Option<bool>
    var delayedMessages: seq<Delayed>
    var messages: seq<Message>

    ghost var input: Option<bool>
    ghost var trail: seq<Round>
    ghost var log: set<Message>
    ghost var heard: set<Delayed>
    ghost var decidedAt: Option<nat>

    ghost function State(): Node
      reads this
    {
      Node(epoch, binValues, sentBvals, recvBval, recvAux, done, output, estimated, decision,
           delayedMessages, messages, input, trail, log, heard, decidedAt)
    }

    /** A fault bound of zero asks for the largest one the membership size allows. */
    constructor (n: nat, f: nat, id: nat)
      requires n >= 1
      ensures cfg == Config(n, if f == 0 then (n - 1) / 3 else f, id)
      ensures State() == Fresh
    {
      cfg := Config(n, if f == 0 then (n - 1) / 3 else f, id);
      epoch, binValues, sentBvals, recvBval, recvAux := 0, [], [], NoVotes, map[];
      done, output, estimated, decision := false, None, None, None;
      delayedMessages, messages := [], [];
      input, trail, log, heard, decidedAt := None, [], {}, {}, None;
    }

    predicate AcceptInput()
      reads this
    {
      epoch == 0 && estimated.None?
    }

    method Output() returns (out: Option<bool>)
      modifies this`output
      ensures out == old(output) && State() == old(State()).(output := None)
    {
      out := output;
      output := None;
    }

    method Messages() returns (out: seq<Message>)
      modifies this`messages
      ensures out == old(messages) && State() == old(State()).(messages := [])
    {
      out := messages;
      messages := [];
    }

    method AddMessage(body: Payload)
      modifies this`messages, this`log
      ensures State() == Say(old(State()), body)
    {
      messages := messages + [Message(epoch, body)];
      log := log + {Message(epoch, body)};
    }

    method InputValue(val: bool)
      requires cfg.Sound()
      modifies this
      ensures State() == Input(cfg, old(State()), val)
    {
      if epoch != 0 || estimated.Some? {
        return;
      }
      ghost var top := Top(State(), 0);
      estimated := Some(val);
      input := Some(val);
      sentBvals := sentBvals + [val];
      AddMessage(Bval(val));
      HandleBvalRequest(cfg.id, val, top);
    }

    /** The entry point for a message of the network. */
    method Handle(sid: nat, msg: Message) returns (err: bool)
      requires cfg.Sound()
      modifies this
      ensures State() == BbaSpec.Handle(cfg, old(State()), sid, msg)
      ensures err == Rejects(old(State()), msg)
    {
      err := HandleMessage(sid, msg, Top(State(), msg.epoch));
    }

    method HandleMessage(sid: nat, msg: Message, ghost top: nat) returns (err: bool)
      requires cfg.Sound() && Bounded(cfg, State(), top) && msg.epoch <= top
      modifies this
      ensures State() == BbaSpec.HandleMessage(cfg, old(State()), sid, msg, top)
      ensures err == Rejects(old(State()), msg)
      decreases top + 1 - epoch, 4, 0
    {
      heard := heard + {Delayed(sid, msg)};
      if done {
        return false;
      }
      if msg.epoch < epoch {
        return false;
      }
      if msg.epoch > epoch {
        delayedMessages := delayedMessages + [Delayed(sid, msg)];
        return false;
      }
      err := false;
      match msg.body {
        case Bval(v) => HandleBvalRequest(sid, v, top);
        case Aux(v) => HandleAuxRequest(sid, v, top);
        case Unknown => err := true;
      }
    }

    method HandleBvalRequest(sid: nat, val: bool, ghost top: nat)
      requires cfg.Sound() && Bounded(cfg, State(), top) && (epoch <= top || sid == cfg.id)
      modifies this
      ensures State() == HandleBval(cfg, old(State()), sid, val, top)
      decreases top + 1 - epoch, 3, if val in sentBvals then 0 else 1
    {
      recvBval := recvBval.Add(val, sid);
      var lenBval := |recvBval.Of(val)|;
      assert epoch == top + 1 ==> lenBval <= 1 by {
        if epoch == top + 1 { SubsetSize(recvBval.Of(val), {cfg.id}); }
      }
      if lenBval == 2 * cfg.f + 1 {
        var wasEmptyBinValues := |binValues| == 0;
        binValues := binValues + [val];
        if wasEmptyBinValues {
          AddMessage(Aux(val));
          HandleAuxRequest(cfg.id, val, top);
        } else {
          TryOutputAgreement(top);
        }
        return;
      }
      if lenBval == cfg.f + 1 && val !in sentBvals {
        sentBvals := sentBvals + [val];
        AddMessage(Bval(val));
        HandleBvalRequest(cfg.id, val, top);
      }
    }

    method HandleAuxRequest(sid: nat, val: bool, ghost top: nat)
      requires cfg.Sound() && Bounded(cfg, State(), top) && epoch <= top
      modifies this
      ensures State() == HandleAux(cfg, old(State()), sid, val, top)
      decreases top + 1 - epoch, 2, 0
    {
      recvAux := recvAux[sid := val];
      TryOutputAgreement(top);
    }

    method TryOutputAgreement(ghost top: nat)
      requires cfg.Sound() && Bounded(cfg, State(), top) && epoch <= top
      modifies this
      ensures State() == TryOutput(cfg, old(State()), top)
      decreases top + 1 - epoch, 1, 0
    {
      hide HandleBval, Replay, ValidAux, Values, NextEstimate, Enter;
      if |binValues| == 0 {
        return;
      }
      var lenOutputs, values := CountOutputs();
      if lenOutputs < cfg.n - cfg.f {
        return;
      }
      var coin := epoch % 2 == 0;
      if done || decision == Some(coin) {
        done := true;
        return;
      }
      AdvanceEpoch();
      SetEstimate(values, coin);
      sentBvals := sentBvals + [estimated.value];
      AddMessage(Bval(estimated.value));
      assert State() == Advance(old(State()));
      EnterEpoch(top);
    }

    /** The own vote in a new epoch, then the messages queued for it. */
    method EnterEpoch(ghost top: nat)
      requires cfg.Sound() && Bounded(cfg, State(), top) && estimated.Some?
      modifies this
      ensures State() == Enter(cfg, old(State()), top)
      decreases top + 1 - epoch, 7, 0
    {
      hide HandleBval, Replay;
      HandleBvalRequest(cfg.id, estimated.value, top);
      ReplayDelayed(top);
    }

    /** Handles the queue as it stood when the loop began; what the handlers queue meanwhile is dropped. */
    method ReplayDelayed(ghost top: nat)
      requires cfg.Sound() && Bounded(cfg, State(), top)
      modifies this
      ensures State() == Replay(cfg, old(State()), old(delayedMessages), 0, top).(delayed := [])
      decreases top + 1 - epoch, 6, 0
    {
      var queue := delayedMessages;
      ghost var entered := State();
      for i := 0 to |queue|
        invariant Bounded(cfg, State(), top) && entered.epoch <= epoch
        invariant Replay(cfg, entered, queue, 0, top) == Replay(cfg, State(), queue, i, top)
      {
        var _ := HandleMessage(queue[i].sid, queue[i].msg, top);
      }
      delayedMessages := [];
    }

    method AdvanceEpoch()
      modifies this
      ensures State() == NextEpoch(old(State()))
    {
      ghost var t := NextEpoch(State());
      trail := t.trail;
      binValues, sentBvals, recvAux, recvBval, epoch := [], [], map[], NoVotes, epoch + 1;
    }

    method SetEstimate(values: seq<bool>, coin: bool)
      requires epoch > 0 && coin == Coin(epoch - 1)
      modifies this`estimated, this`output, this`decision, this`decidedAt
      ensures State() == Estimate(old(State()), values)
    {
      if |values| != 1 {
        estimated := Some(coin);
      } else {
        estimated := Some(values[0]);
        if decision.None? && values[0] == coin {
          output := Some(values[0]);
          decision := Some(values[0]);
          decidedAt := Some(epoch - 1);
        }
      }
    }

    /** Counts the AUX senders whose value was admitted, and lists the values they gave. */
    method CountOutputs() returns (validOutputs: nat, vals: seq<bool>)
      ensures validOutputs == |ValidAux(recvAux, binValues)|
      ensures vals == Values(recvAux, binValues)
    {
      hide ValidAux, Seen, GivenBy;
      var accepted := Admitted();
      assert ValidAux(recvAux, binValues) <= recvAux.Keys by { Senders(recvAux, binValues); }
      assert GivenBy(recvAux, {}) == {} by { Senders(recvAux, binValues); }
      validOutputs := 0;
      var seen: set<bool> := {};
      var todo := recvAux.Keys;
      ghost var counted: set<nat> := {};
      while todo != {}
        invariant todo <= recvAux.Keys
        invariant counted == ValidAux(recvAux, binValues) - todo
        invariant validOutputs == |counted|
        invariant seen == GivenBy(recvAux, counted)
        decreases todo
      {
        var s :| s in todo;
        assert s !in counted;
        OneSender(recvAux, binValues, todo, s);
        var value: bool := recvAux[s];
        if value in accepted {
          GivenByOne(recvAux, counted, s);
          validOutputs := validOutputs + 1;
          seen := seen + {value};
          counted := counted + {s};
        }
        todo := todo - {s};
      }
      assert counted == ValidAux(recvAux, binValues);
      GivenIsSeen(recvAux, binValues);
      vals := [];
      if false in seen {
        vals := vals + [false];
      }
      if true in seen {
        vals := vals + [true];
      }
    }

    method Admitted() returns (accepted: set<bool>)
      ensures forall v: bool :: v in accepted <==> v in binValues
    {
      accepted := {};
      for i := 0 to |binValues|
        invariant forall v: bool :: v in accepted <==> v in binValues[..i]
      {
        accepted := accepted + {binValues[i]};
      }
      assert binValues[..|binValues|] == binValues;
    }
  }
}
