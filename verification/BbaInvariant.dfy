/** What every handler call of a binary agreement instance keeps. */
module BbaInvariant {
  import opened Options
  import opened Membership
  import opened BbaSpec

  // ----- reading the history -----

  function BvalsAt(s: Node, e: nat): Tally {
    if e < |s.trail| then s.trail[e].bvals else s.recvBval
  }

  /** The estimate with which the instance entered epoch e: its input, or what the AUX of e - 1 gave. */
  function Own(s: Node, e: nat): Option<bool>
    requires e <= |s.trail|
  {
    if e == 0 then s.input
    else Some(NextEstimate(Values(s.trail[e - 1].aux, s.trail[e - 1].bin), e - 1))
  }

  /** Message m was said by q: to the instance, or by the instance itself. */
  ghost predicate From(c: Config, s: Node, q: nat, m: Message) {
    if q == c.id then m in s.log else Delayed(q, m) in s.heard
  }

  ghost predicate Votes(c: Config, s: Node, e: nat, bvals: Tally, aux: map<nat, bool>) {
    && (forall v: bool, q: nat :: q in bvals.Of(v) ==> From(c, s, q, Message(e, Bval(v))))
    && (forall q :: q in aux ==> From(c, s, q, Message(e, Aux(aux[q]))))
  }

  /** v entered binValues exactly when 2f + 1 senders gave it. */
  ghost predicate Admitted(c: Config, bvals: Tally, bin: seq<bool>) {
    forall v: bool :: v in bin <==> |bvals.Of(v)| >= 2 * c.f + 1
  }

  ghost predicate Closed(c: Config, s: Node, e: nat)
    requires e < |s.trail|
  {
    var r := s.trail[e];
    && Votes(c, s, e, r.bvals, r.aux)
    && Admitted(c, r.bvals, r.bin)
    && |ValidAux(r.aux, r.bin)| >= c.n - c.f
  }

  /** A BVAL is the instance's own estimate, or f + 1 others gave it first. */
  ghost predicate Justified(c: Config, s: Node, e: nat, v: bool)
    requires e <= |s.trail|
  {
    Own(s, e) == Some(v) || |BvalsAt(s, e).Of(v) - {c.id}| >= c.f + 1
  }

  ghost predicate Logged(c: Config, s: Node, m: Message) {
    && 0 <= m.epoch <= |s.trail|
    && !m.body.Unknown?
    && (m.body.Bval? ==> Justified(c, s, m.epoch, m.body.value))
    && (m.body.Aux? ==> Message(m.epoch, Aux(!m.body.value)) !in s.log)
  }

  /** The decision, the epoch it was taken in, and how far the instance can go after it. */
  ghost predicate Decided(s: Node) {
    match s.decidedAt
    case None => s.decision.None? && s.output.None? && !s.done
    case Some(r) =>
      && r < |s.trail|
      && s.decision == Some(Coin(r))
      && Values(s.trail[r].aux, s.trail[r].bin) == [Coin(r)]
      && s.epoch <= r + 2
      && (s.done ==> s.epoch == r + 2)
      && (s.output.Some? ==> s.output == s.decision)
  }

  ghost predicate History(c: Config, s: Node) {
    && |s.trail| == s.epoch
    && (forall e :: 0 <= e < |s.trail| ==> Closed(c, s, e))
    && Votes(c, s, s.epoch, s.recvBval, s.recvAux)
    && (forall m :: m in s.log ==> Logged(c, s, m))
    && (forall v: bool :: Message(s.epoch, Bval(v)) in s.log <==> v in s.sentBvals)
    && (forall d :: d in s.delayed ==> d in s.heard && d.sid != c.id)
    && s.estimated == Own(s, s.epoch)
    && Decided(s)
  }

  // ----- no threshold is jumped over -----

  /** Admission and relay fired exactly at their thresholds, and one AUX went out with the first admission. */
  ghost predicate Settled(c: Config, s: Node) {
    && Admitted(c, s.recvBval, s.binValues)
    && (forall v: bool :: |s.recvBval.Of(v)| >= c.f + 1 ==> v in s.sentBvals)
    && (s.binValues != [] <==> exists v: bool :: Message(s.epoch, Aux(v)) in s.log)
  }

  ghost predicate OwnAuxHeld(c: Config, s: Node) {
    s.binValues != [] ==> c.id in s.recvAux
  }

  /** A quorum of valid AUX is never left unused. */
  ghost predicate Idle(c: Config, s: Node) {
    s.done || s.binValues == [] || |ValidAux(s.recvAux, s.binValues)| < c.n - c.f
  }

  ghost predicate Valid(c: Config, s: Node) {
    History(c, s) && Settled(c, s) && OwnAuxHeld(c, s) && Idle(c, s)
  }

  /** History only grows, and an input or a decision is final. */
  ghost predicate Grows(s: Node, r: Node) {
    && s.trail <= r.trail
    && s.log <= r.log
    && s.heard <= r.heard
    && (s.input.Some? ==> r.input == s.input)
    && (s.decision.Some? ==> r.decision == s.decision && r.decidedAt == s.decidedAt)
    && (s.done ==> r.done)
  }

  /** The decision is put out in the call that takes it, and only then. */
  ghost predicate Announces(s: Node, r: Node) {
    r.output == if s.decision.None? then r.decision else s.output
  }

  ghost predicate Extends(s: Node, r: Node) {
    Grows(s, r) && r.input == s.input && Announces(s, r)
  }

  lemma FreshIsValid(c: Config)
    requires c.Sound()
    ensures Valid(c, Fresh)
  {
    assert forall v: bool :: |NoVotes.Of(v)| == 0;
    assert ValidAux(map[], []) == {};
  }

  /** Everything said about earlier epochs and earlier messages survives a change inside the epoch. */
  lemma Carry(c: Config, s: Node, t: Node)
    requires History(c, s) && t.trail == s.trail && t.epoch == s.epoch && t.input == s.input
    requires s.log <= t.log && s.heard <= t.heard
    requires forall v: bool :: s.recvBval.Of(v) <= t.recvBval.Of(v)
    requires forall m :: m in t.log && m !in s.log ==>
      m.epoch == s.epoch && match m.body
        case Bval(v) => Justified(c, t, s.epoch, v)
        case Aux(v) => forall w: bool :: Message(s.epoch, Aux(w)) in t.log ==> w == v
        case Unknown => false
    ensures forall e :: 0 <= e < |t.trail| ==> Closed(c, t, e)
    ensures forall m :: m in t.log ==> Logged(c, t, m)
    ensures Votes(c, t, s.epoch, s.recvBval, s.recvAux)
  {
    forall e | 0 <= e < |t.trail| ensures Closed(c, t, e) {
      assert Closed(c, s, e);
    }
    forall m | m in t.log ensures Logged(c, t, m) {
      if m in s.log {
        assert Logged(c, s, m);
        if m.body.Bval? && Own(s, m.epoch) != Some(m.body.value) {
          var v := m.body.value;
          SubsetSize(BvalsAt(s, m.epoch).Of(v) - {c.id}, BvalsAt(t, m.epoch).Of(v) - {c.id});
        }
      }
    }
  }

  lemma HearKeeps(c: Config, s: Node, sid: nat, m: Message)
    requires Valid(c, s)
    ensures Valid(c, s.(heard := s.heard + {Delayed(sid, m)}))
  {
    Carry(c, s, s.(heard := s.heard + {Delayed(sid, m)}));
  }

  lemma QueueKeeps(c: Config, s: Node, queue: seq<Delayed>)
    requires Valid(c, s) && forall d :: d in queue ==> d in s.heard && d.sid != c.id
    ensures Valid(c, s.(delayed := queue))
  {
    Carry(c, s, s.(delayed := queue));
  }

  /** One more BVAL sender; only the admission and relay of its value may now be due. */
  lemma VoteKeeps(c: Config, s: Node, sid: nat, v: bool)
    requires Valid(c, s) && From(c, s, sid, Message(s.epoch, Bval(v)))
    ensures var t := s.(recvBval := s.recvBval.Add(v, sid));
            && History(c, t)
            && |t.recvBval.Of(v)| <= |s.recvBval.Of(v)| + 1
            && |s.recvBval.Of(v)| <= |t.recvBval.Of(v)|
            && t.recvBval.Of(!v) == s.recvBval.Of(!v)
  {
    var t := s.(recvBval := s.recvBval.Add(v, sid));
    assert t.recvBval.Of(v) == s.recvBval.Of(v) + {sid};
    SubsetSize(s.recvBval.Of(v), t.recvBval.Of(v));
    Carry(c, s, t);
  }

  lemma AdmitKeeps(c: Config, s: Node, v: bool)
    requires History(c, s)
    ensures History(c, s.(binValues := s.binValues + [v]))
  {
    Carry(c, s, s.(binValues := s.binValues + [v]));
  }

  lemma SayAuxKeeps(c: Config, s: Node, v: bool)
    requires History(c, s) && forall w: bool :: Message(s.epoch, Aux(w)) !in s.log
    ensures History(c, Say(s, Aux(v)))
  {
    Carry(c, s, Say(s, Aux(v)));
  }

  lemma RelayKeeps(c: Config, s: Node, v: bool)
    requires History(c, s) && v !in s.sentBvals && |s.recvBval.Of(v)| >= c.f + 1
    ensures History(c, Say(s.(sentBvals := s.sentBvals + [v]), Bval(v)))
  {
    var b := Say(s.(sentBvals := s.sentBvals + [v]), Bval(v));
    assert c.id in s.recvBval.Of(v) ==> From(c, s, c.id, Message(s.epoch, Bval(v)));
    assert s.recvBval.Of(v) - {c.id} == s.recvBval.Of(v);
    Carry(c, s, b);
  }

  lemma DoneKeeps(c: Config, s: Node)
    requires History(c, s) && s.decision == Some(Coin(s.epoch))
    ensures History(c, s.(done := true))
  {
    Carry(c, s, s.(done := true));
  }

  lemma HoldAuxKeeps(c: Config, s: Node, sid: nat, v: bool)
    requires History(c, s) && From(c, s, sid, Message(s.epoch, Aux(v)))
    ensures History(c, s.(recvAux := s.recvAux[sid := v]))
  {
    Carry(c, s, s.(recvAux := s.recvAux[sid := v]));
  }

  lemma AdvanceRemembers(s: Node)
    requires |s.trail| == s.epoch
    ensures forall e :: 0 <= e <= s.epoch ==> BvalsAt(Advance(s), e) == BvalsAt(s, e)
    ensures forall e :: 0 <= e <= s.epoch ==> Own(Advance(s), e) == Own(s, e)
    ensures Own(Advance(s), s.epoch + 1) == Advance(s).estimated
  {
  }

  lemma ClosedStays(c: Config, s: Node, a: Node, e: nat)
    requires e < |s.trail| && Closed(c, s, e)
    requires s.trail <= a.trail && s.log <= a.log && s.heard <= a.heard
    ensures Closed(c, a, e)
  {
    assert a.trail[e] == s.trail[e];
  }

  /** Leaving an epoch closes it: its quorum goes into the history. */
  lemma AdvanceCloses(c: Config, s: Node)
    requires History(c, s) && Admitted(c, s.recvBval, s.binValues)
    requires |ValidAux(s.recvAux, s.binValues)| >= c.n - c.f
    ensures forall e :: 0 <= e <= s.epoch ==> Closed(c, Advance(s), e)
  {
    var a := Advance(s);
    assert a.trail[s.epoch] == Round(s.recvBval, s.binValues, s.recvAux);
    forall e | 0 <= e <= s.epoch ensures Closed(c, a, e) {
      if e < |s.trail| {
        ClosedStays(c, s, a, e);
      }
    }
  }

  lemma AdvanceLogs(c: Config, s: Node)
    requires History(c, s)
    ensures forall m :: m in Advance(s).log ==> Logged(c, Advance(s), m)
  {
    AdvanceRemembers(s);
    forall m | m in Advance(s).log ensures Logged(c, Advance(s), m) {
      if m in s.log { assert Logged(c, s, m); }
    }
  }

  lemma AdvanceDecides(c: Config, s: Node)
    requires History(c, s) && !s.done && s.decision != Some(Coin(s.epoch))
    ensures Decided(Advance(s))
  {
    if s.decidedAt.Some? {
      assert s.epoch != s.decidedAt.value + 2;
    }
  }

  /** The new epoch starts with the own BVAL and nothing else. */
  lemma AdvanceStarts(c: Config, s: Node)
    requires c.Sound() && History(c, s)
    ensures var a := Advance(s);
            && Settled(c, a)
            && Votes(c, a, a.epoch, a.recvBval, a.recvAux)
            && forall v: bool :: Message(a.epoch, Bval(v)) in a.log <==> v in a.sentBvals
  {
    var a := Advance(s);
    forall m | m in s.log ensures m.epoch < a.epoch {
      assert Logged(c, s, m);
    }
    assert a.recvBval.Of(true) == {} && a.recvBval.Of(false) == {};
  }

  lemma AdvanceResets(s: Node)
    ensures var a := Advance(s);
            && a.epoch == s.epoch + 1 && a.delayed == s.delayed && a.heard == s.heard
            && a.recvBval == NoVotes && a.recvAux == map[] && a.binValues == []
            && a.estimated.Some? && Message(a.epoch, Bval(a.estimated.value)) in a.log
  {
  }

  lemma AdvanceKeeps(c: Config, s: Node)
    requires c.Sound() && History(c, s) && Settled(c, s)
    requires !s.done && s.decision != Some(Coin(s.epoch))
    requires |ValidAux(s.recvAux, s.binValues)| >= c.n - c.f
    ensures Valid(c, Advance(s)) && Extends(s, Advance(s)) && !Advance(s).done
  {
    AdvanceRemembers(s);
    AdvanceCloses(c, s);
    AdvanceLogs(c, s);
    AdvanceDecides(c, s);
    AdvanceStarts(c, s);
  }

  // ----- the four ways a BVAL can go -----

  lemma VoteOnlyKeeps(c: Config, s: Node, sid: nat, v: bool)
    requires c.Sound() && Valid(c, s) && From(c, s, sid, Message(s.epoch, Bval(v)))
    requires var count := |s.recvBval.Add(v, sid).Of(v)|;
             count != 2 * c.f + 1 && (count == c.f + 1 ==> v in s.sentBvals)
    ensures Valid(c, s.(recvBval := s.recvBval.Add(v, sid)))
  {
    VoteKeeps(c, s, sid, v);
  }

  lemma VoteRelayKeeps(c: Config, s: Node, sid: nat, v: bool)
    requires c.Sound() && Valid(c, s) && From(c, s, sid, Message(s.epoch, Bval(v)))
    requires |s.recvBval.Add(v, sid).Of(v)| == c.f + 1 && v !in s.sentBvals
    ensures var t := s.(recvBval := s.recvBval.Add(v, sid));
            var b := Say(t.(sentBvals := t.sentBvals + [v]), Bval(v));
            Valid(c, b) && From(c, b, c.id, Message(s.epoch, Bval(v)))
  {
    var t := s.(recvBval := s.recvBval.Add(v, sid));
    VoteKeeps(c, s, sid, v);
    RelayKeeps(c, t, v);
  }

  lemma VoteAdmitKeeps(c: Config, s: Node, sid: nat, v: bool)
    requires c.Sound() && Valid(c, s) && From(c, s, sid, Message(s.epoch, Bval(v)))
    requires |s.recvBval.Add(v, sid).Of(v)| == 2 * c.f + 1
    ensures var a := s.(recvBval := s.recvBval.Add(v, sid), binValues := s.binValues + [v]);
            && (s.binValues != [] ==> History(c, a) && Settled(c, a) && OwnAuxHeld(c, a))
            && (s.binValues == [] ==> History(c, Say(a, Aux(v))) && Settled(c, Say(a, Aux(v))))
  {
    var t := s.(recvBval := s.recvBval.Add(v, sid));
    VoteKeeps(c, s, sid, v);
    assert v in s.sentBvals by {
      assert |s.recvBval.Of(v)| >= c.f + 1;
    }
    AdmitKeeps(c, t, v);
    var a := t.(binValues := t.binValues + [v]);
    assert Admitted(c, a.recvBval, a.binValues);
    if s.binValues == [] {
      SayAuxKeeps(c, a, v);
    }
  }

  // ----- the handlers -----

  lemma NothingAnnounced(c: Config, s: Node)
    requires History(c, s) || Valid(c, s)
    ensures s.decision.None? ==> s.output.None?
  {
  }

  lemma {:induction false} HandleMessageKeeps(c: Config, s: Node, sid: nat, m: Message, top: nat)
    requires c.Sound() && Bounded(c, s, top) && m.epoch <= top
    requires Valid(c, s) && sid != c.id
    ensures var r := HandleMessage(c, s, sid, m, top);
            Valid(c, r) && Extends(s, r) && r.heard == s.heard + {Delayed(sid, m)}
    decreases top + 1 - s.epoch, 4, 0
  {
    var h := s.(heard := s.heard + {Delayed(sid, m)});
    HearKeeps(c, s, sid, m);
    if s.done || m.epoch < s.epoch {
    } else if m.epoch > s.epoch {
      QueueKeeps(c, h, h.delayed + [Delayed(sid, m)]);
    } else {
      match m.body
      case Bval(v) => HandleBvalKeeps(c, h, sid, v, top);
      case Aux(v) => HandleAuxKeeps(c, h, sid, v, top);
      case Unknown =>
    }
  }

  lemma {:induction false} HandleBvalKeeps(c: Config, s: Node, sid: nat, v: bool, top: nat)
    requires c.Sound() && Bounded(c, s, top) && (s.epoch <= top || sid == c.id)
    requires Valid(c, s) && !s.done && From(c, s, sid, Message(s.epoch, Bval(v)))
    ensures var r := HandleBval(c, s, sid, v, top);
            Valid(c, r) && Extends(s, r) && r.heard == s.heard
    decreases top + 1 - s.epoch, 3, if v in s.sentBvals then 0 else 1
  {
    hide Valid, Settled, OwnAuxHeld, History, HandleAux, TryOutput;
    NothingAnnounced(c, s);
    var t := s.(recvBval := s.recvBval.Add(v, sid));
    var count := |t.recvBval.Of(v)|;
    if s.epoch == top + 1 {
      SubsetSize(t.recvBval.Of(v), {c.id});
    }
    if count == 2 * c.f + 1 {
      var a := t.(binValues := t.binValues + [v]);
      VoteAdmitKeeps(c, s, sid, v);
      if t.binValues == [] {
        HandleAuxKeeps(c, Say(a, Aux(v)), c.id, v, top);
      } else {
        TryOutputKeeps(c, a, top);
      }
    } else if count == c.f + 1 && v !in t.sentBvals {
      VoteRelayKeeps(c, s, sid, v);
      HandleBvalKeeps(c, Say(t.(sentBvals := t.sentBvals + [v]), Bval(v)), c.id, v, top);
    } else {
      VoteOnlyKeeps(c, s, sid, v);
    }
  }

  lemma {:induction false} HandleAuxKeeps(c: Config, s: Node, sid: nat, v: bool, top: nat)
    requires c.Sound() && Bounded(c, s, top) && s.epoch <= top
    requires History(c, s) && Settled(c, s) && !s.done && (OwnAuxHeld(c, s) || sid == c.id)
    requires From(c, s, sid, Message(s.epoch, Aux(v)))
    ensures var r := HandleAux(c, s, sid, v, top);
            Valid(c, r) && Extends(s, r) && r.heard == s.heard
    decreases top + 1 - s.epoch, 2, 0
  {
    HoldAuxKeeps(c, s, sid, v);
    TryOutputKeeps(c, s.(recvAux := s.recvAux[sid := v]), top);
  }

  lemma WaitKeeps(c: Config, s: Node)
    requires History(c, s) && Settled(c, s) && OwnAuxHeld(c, s) && Idle(c, s)
    ensures Valid(c, s) && Extends(s, s)
  {
  }

  lemma FinishKeeps(c: Config, s: Node)
    requires c.Sound() && History(c, s) && Settled(c, s) && OwnAuxHeld(c, s)
    requires s.done || s.decision == Some(Coin(s.epoch))
    ensures Valid(c, s.(done := true)) && Extends(s, s.(done := true))
  {
    DoneKeeps(c, s);
  }

  lemma LeaveKeeps(c: Config, s: Node)
    requires c.Sound() && History(c, s) && Settled(c, s) && |ValidAux(s.recvAux, s.binValues)| >= c.n - c.f
    requires !s.done && s.decision != Some(Coin(s.epoch))
    ensures var a := Advance(s);
            && Valid(c, a) && Extends(s, a) && a.heard == s.heard && a.epoch == s.epoch + 1 && !a.done
            && a.estimated.Some? && Message(a.epoch, Bval(a.estimated.value)) in a.log
  {
    AdvanceKeeps(c, s);
    AdvanceResets(s);
  }

  lemma ExtendsOn(s: Node, t: Node, r: Node)
    requires Extends(s, t) && Extends(t, r)
    ensures Extends(s, r)
  {
  }

  lemma {:induction false} TryOutputKeeps(c: Config, s: Node, top: nat)
    requires c.Sound() && Bounded(c, s, top) && s.epoch <= top
    requires History(c, s) && Settled(c, s) && OwnAuxHeld(c, s)
    ensures var r := TryOutput(c, s, top);
            Valid(c, r) && Extends(s, r) && r.heard == s.heard
    decreases top + 1 - s.epoch, 1, 0
  {
    hide History, Settled, OwnAuxHeld, Valid, Extends;
    if s.binValues == [] || |ValidAux(s.recvAux, s.binValues)| < c.n - c.f {
      WaitKeeps(c, s);
    } else if s.done || s.decision == Some(Coin(s.epoch)) {
      FinishKeeps(c, s);
    } else {
      LeaveKeeps(c, s);
      EnterKeeps(c, Advance(s), top);
      ExtendsOn(s, Advance(s), TryOutput(c, s, top));
    }
  }

  lemma {:induction false} EnterKeeps(c: Config, a: Node, top: nat)
    requires c.Sound() && Bounded(c, a, top) && a.estimated.Some?
    requires Valid(c, a) && !a.done && Message(a.epoch, Bval(a.estimated.value)) in a.log
    ensures var r := Enter(c, a, top);
            Valid(c, r) && Extends(a, r) && r.heard == a.heard
    decreases top + 1 - a.epoch, 6, 0
  {
    HandleBvalKeeps(c, a, c.id, a.estimated.value, top);
    var b := HandleBval(c, a, c.id, a.estimated.value, top);
    ReplayKeeps(c, b, b.delayed, 0, top);
    QueueKeeps(c, Replay(c, b, b.delayed, 0, top), []);
  }

  lemma {:induction false} ReplayKeeps(c: Config, s: Node, queue: seq<Delayed>, i: nat, top: nat)
    requires c.Sound() && Bounded(c, s, top) && i <= |queue|
    requires forall d :: d in queue ==> d.msg.epoch <= top
    requires Valid(c, s) && forall d :: d in queue ==> d in s.heard && d.sid != c.id
    ensures var r := Replay(c, s, queue, i, top);
            Valid(c, r) && Extends(s, r) && r.heard == s.heard
    decreases top + 1 - s.epoch, 5, |queue| - i
  {
    hide Valid;
    NothingAnnounced(c, s);
    if i < |queue| {
      var t := HandleMessage(c, s, queue[i].sid, queue[i].msg, top);
      assert queue[i] in s.heard;
      HandleMessageKeeps(c, s, queue[i].sid, queue[i].msg, top);
      ReplayKeeps(c, t, queue, i + 1, top);
    }
  }

  // ----- the entry points -----

  lemma HandleKeeps(c: Config, s: Node, sid: nat, m: Message)
    requires c.Sound() && Valid(c, s) && sid != c.id
    ensures var r := Handle(c, s, sid, m);
            Valid(c, r) && Extends(s, r) && r.heard == s.heard + {Delayed(sid, m)}
  {
    HandleMessageKeeps(c, s, sid, m, Top(s, m.epoch));
  }

  lemma InputKeeps(c: Config, s: Node, v: bool)
    requires c.Sound() && Valid(c, s)
    ensures var r := Input(c, s, v);
            && Valid(c, r) && Grows(s, r) && r.heard == s.heard && Announces(s, r) && !AcceptsInput(r)
            && r.input == (if AcceptsInput(s) then Some(v) else s.input)
  {
    if AcceptsInput(s) {
      var a := Say(s.(estimated := Some(v), input := Some(v), sentBvals := s.sentBvals + [v]), Bval(v));
      TakeInputKeeps(c, s, v);
      HandleBvalKeeps(c, a, c.id, v, Top(s, 0));
    }
  }

  lemma EstimateKeeps(c: Config, s: Node, v: bool)
    requires Valid(c, s) && AcceptsInput(s)
    ensures Valid(c, s.(estimated := Some(v), input := Some(v)))
  {
    var t := s.(estimated := Some(v), input := Some(v));
    forall m | m in t.log ensures Logged(c, t, m) {
      assert Logged(c, s, m);
    }
  }

  lemma OwnBvalKeeps(c: Config, t: Node, v: bool)
    requires Valid(c, t) && Own(t, t.epoch) == Some(v)
    ensures Valid(c, Say(t.(sentBvals := t.sentBvals + [v]), Bval(v)))
  {
    Carry(c, t, Say(t.(sentBvals := t.sentBvals + [v]), Bval(v)));
  }

  lemma TakeInputKeeps(c: Config, s: Node, v: bool)
    requires c.Sound() && Valid(c, s) && AcceptsInput(s)
    ensures var a := Say(s.(estimated := Some(v), input := Some(v), sentBvals := s.sentBvals + [v]), Bval(v));
            Valid(c, a) && Grows(s, a) && !a.done
  {
    EstimateKeeps(c, s, v);
    var t := s.(estimated := Some(v), input := Some(v));
    OwnBvalKeeps(c, t, v);
  }

  lemma CollectKeeps(c: Config, s: Node)
    requires Valid(c, s)
    ensures Valid(c, s.(messages := [])) && Valid(c, s.(output := None))
  {
    Carry(c, s, s.(messages := []));
    Carry(c, s, s.(output := None));
  }

  // ----- how far one call can go -----

  function Later(a: int, b: nat): nat {
    if a > b then a else b
  }

  /** One call ends, and unless it leaves the epoch alone the epoch passes neither the message nor the queue by more
      than one. */
  lemma EpochBound(c: Config, s: Node, sid: nat, m: Message)
    requires c.Sound()
    ensures var r := Handle(c, s, sid, m);
            s.epoch <= r.epoch && (r.epoch == s.epoch || r.epoch <= Later(m.epoch, Largest(s.delayed)) + 1)
  {
  }
}
