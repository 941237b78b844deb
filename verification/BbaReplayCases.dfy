/** Three runs of one instance, from its start, that show which early messages are lost and which are not. */
module BbaReplayCases {
  import opened Options
  import opened Membership
  import opened BbaSpec
  import opened BbaInvariant
  import opened BbaReplay

  /** The instance of member 0 among four, of which one may be faulty. */
  const Zero := Config(4, 1, 0)

  function B(q: nat, e: nat, v: bool): Delayed {
    Delayed(q, Message(e, Bval(v)))
  }

  function A(q: nat, e: nat, v: bool): Delayed {
    Delayed(q, Message(e, Aux(v)))
  }

  /** Votes of members 1 and 2 that, with the own ones, take member 0 out of epoch e. */
  function Four(e: nat, v: bool): seq<Delayed> {
    [B(1, e, v), B(2, e, v), A(1, e, v), A(2, e, v)]
  }

  function Only(v: bool, senders: set<nat>): Tally {
    if v then Tally({}, senders) else Tally(senders, {})
  }

  /** In epoch e with estimate v, having handled the first k of those votes. */
  ghost predicate Stage(s: Node, e: nat, v: bool, k: nat, decision: Option<bool>, delayed: seq<Delayed>) {
    && s.epoch == e && s.sentBvals == [v] && s.decision == decision && s.delayed == delayed && !s.done
    && s.binValues == (if k < 2 then [] else [v])
    && s.recvBval == Only(v, if k == 0 then {0} else if k == 1 then {0, 1} else {0, 1, 2})
    && s.recvAux == if k < 2 then map[] else if k == 2 then map[0 := v] else map[0 := v, 1 := v]
  }

  /** Having just entered epoch e with estimate v. */
  ghost predicate Entered(s: Node, e: nat, v: bool, decision: Option<bool>, delayed: seq<Delayed>) {
    && s.epoch == e && s.sentBvals == [v] && s.decision == decision && s.delayed == delayed && !s.done
    && s.binValues == [] && s.recvBval == NoVotes && s.recvAux == map[] && s.estimated == Some(v)
  }

  // ----- single steps -----

  lemma OwnVote(a: Node, e: nat, v: bool, decision: Option<bool>, delayed: seq<Delayed>, top: nat)
    requires Bounded(Zero, a, top) && Entered(a, e, v, decision, delayed)
    ensures Stage(HandleBval(Zero, a, 0, v, top), e, v, 0, decision, delayed)
  {
    assert NoVotes.Add(v, 0) == Only(v, {0});
  }

  lemma Admits(s: Node, sid: nat, v: bool, top: nat)
    requires Bounded(Zero, s, top) && s.epoch <= top && s.binValues == []
    requires |s.recvBval.Add(v, sid).Of(v)| == 3 && |ValidAux(s.recvAux[0 := v], [v])| < 3
    ensures var y := s.(recvBval := s.recvBval.Add(v, sid), binValues := [v]);
            HandleBval(Zero, s, sid, v, top) == Say(y, Aux(v)).(recvAux := s.recvAux[0 := v])
  {
    var y := s.(recvBval := s.recvBval.Add(v, sid), binValues := [v]);
    var z := Say(y, Aux(v)).(recvAux := s.recvAux[0 := v]);
    assert s.(recvBval := s.recvBval.Add(v, sid), binValues := s.binValues + [v]) == y;
    assert TryOutput(Zero, z, top) == z;
    assert HandleAux(Zero, Say(y, Aux(v)), 0, v, top) == z;
  }

  lemma QuietBval(s: Node, sid: nat, v: bool, top: nat)
    requires Bounded(Zero, s, top) && s.epoch <= top
    requires var count := |s.recvBval.Add(v, sid).Of(v)|; count < 2 || (count == 2 && v in s.sentBvals)
    ensures HandleBval(Zero, s, sid, v, top) == s.(recvBval := s.recvBval.Add(v, sid))
  {
  }

  lemma QuietAux(s: Node, sid: nat, v: bool, top: nat)
    requires Bounded(Zero, s, top) && s.epoch <= top
    requires s.binValues == [] || |ValidAux(s.recvAux[sid := v], s.binValues)| < 3
    ensures HandleAux(Zero, s, sid, v, top) == s.(recvAux := s.recvAux[sid := v])
  {
  }

  lemma Voters(v: bool)
    ensures |ValidAux(map[][0 := v], [v])| == 1
    ensures |ValidAux(map[0 := v][1 := v], [v])| == 2
    ensures |ValidAux(map[0 := v, 1 := v][2 := v], [v])| == 3
  {
    assert ValidAux(map[][0 := v], [v]) == {0};
    assert ValidAux(map[0 := v][1 := v], [v]) == {0, 1};
    assert ValidAux(map[0 := v, 1 := v][2 := v], [v]) == {0, 1, 2};
  }

  lemma VoteStep(s: Node, e: nat, v: bool, k: nat, decision: Option<bool>, delayed: seq<Delayed>, top: nat)
    requires Bounded(Zero, s, top) && e <= top && k < 3 && Stage(s, e, v, k, decision, delayed)
    ensures Stage(HandleMessage(Zero, s, Four(e, v)[k].sid, Four(e, v)[k].msg, top), e, v, k + 1, decision, delayed)
  {
    hide HandleBval, HandleAux, ValidAux;
    Voters(v);
    var d := Four(e, v)[k];
    var h := s.(heard := s.heard + {Delayed(d.sid, d.msg)});
    if k == 0 {
      assert s.recvBval.Add(v, 1) == Only(v, {0, 1});
      QuietBval(h, 1, v, top);
    } else if k == 1 {
      assert s.recvBval.Add(v, 2) == Only(v, {0, 1, 2});
      Admits(h, 2, v, top);
    } else {
      QuietAux(h, 1, v, top);
    }
  }

  lemma QueueStep(s: Node, d: Delayed, top: nat)
    requires Bounded(Zero, s, top) && s.epoch < d.msg.epoch <= top && !s.done
    ensures var r := HandleMessage(Zero, s, d.sid, d.msg, top);
            r == s.(heard := r.heard, delayed := s.delayed + [d])
  {
  }

  lemma AuxLeaves(s: Node, sid: nat, v: bool, top: nat)
    requires Bounded(Zero, s, top) && s.epoch <= top && s.binValues == [v]
    requires !s.done && s.decision != Some(Coin(s.epoch))
    requires |ValidAux(s.recvAux[sid := v], [v])| >= 3
    ensures var a := Advance(s.(recvAux := s.recvAux[sid := v]));
            Bounded(Zero, a, top) && a.estimated.Some? && HandleAux(Zero, s, sid, v, top) == Enter(Zero, a, top)
  {
    hide Values, ValidAux;
    var z := s.(recvAux := s.recvAux[sid := v]);
    assert HandleAux(Zero, s, sid, v, top) == TryOutput(Zero, z, top);
  }

  /** A last vote takes the instance to the next epoch, with the value voted for. */
  lemma Leaves(s: Node, sid: nat, v: bool, top: nat)
    requires Bounded(Zero, s, top) && s.epoch <= top && s.binValues == [v]
    requires !s.done && s.decision != Some(Coin(s.epoch))
    requires |ValidAux(s.recvAux[sid := v], [v])| >= 3
    ensures var a := Advance(s.(recvAux := s.recvAux[sid := v]));
            && Bounded(Zero, a, top) && a.estimated.Some? && HandleAux(Zero, s, sid, v, top) == Enter(Zero, a, top)
            && Entered(a, s.epoch + 1, v,
                       if s.decision.None? && v == Coin(s.epoch) then Some(v) else s.decision, s.delayed)
  {
    hide ValidAux, HandleAux, Enter, Values, Bounded;
    AuxLeaves(s, sid, v, top);
    OnlyValue(s.recvAux, sid, v);
  }

  lemma OnlyValue(aux: map<nat, bool>, sid: nat, v: bool)
    ensures Values(aux[sid := v], [v]) == [v]
  {
    var more := aux[sid := v];
    assert more[sid] == v && v in more.Values;
    assert Seen(more, [v], v) && !Seen(more, [v], !v);
  }

  lemma VoteLeaves(s: Node, e: nat, v: bool, decision: Option<bool>, delayed: seq<Delayed>, top: nat) returns (a: Node)
    requires Bounded(Zero, s, top) && e <= top && Stage(s, e, v, 3, decision, delayed) && decision != Some(Coin(e))
    ensures Bounded(Zero, a, top) && a.estimated.Some?
    ensures HandleMessage(Zero, s, 2, A(2, e, v).msg, top) == Enter(Zero, a, top)
    ensures Entered(a, e + 1, v, if decision.None? && v == Coin(e) then Some(v) else decision, delayed)
  {
    hide HandleAux, ValidAux, Advance, Enter;
    var h := s.(heard := s.heard + {A(2, e, v)});
    Voters(v);
    Leaves(h, 2, v, top);
    a := Advance(h.(recvAux := h.recvAux[2 := v]));
  }

  // ----- stretches of a replay -----

  lemma {:induction false} SkipOld(s: Node, queue: seq<Delayed>, i: nat, j: nat, top: nat) returns (t: Node)
    requires Bounded(Zero, s, top) && i <= j <= |queue|
    requires forall d :: d in queue ==> d.msg.epoch <= top
    requires forall k :: i <= k < j ==> queue[k].msg.epoch < s.epoch
    ensures t == s.(heard := t.heard) && Bounded(Zero, t, top)
    ensures Replay(Zero, s, queue, i, top) == Replay(Zero, t, queue, j, top)
    decreases j - i
  {
    t := s;
    if i < j {
      t := SkipOld(HandleMessage(Zero, s, queue[i].sid, queue[i].msg, top), queue, i + 1, j, top);
    }
  }

  lemma VoteIn(s: Node, e: nat, v: bool, k: nat, decision: Option<bool>, delayed: seq<Delayed>,
               queue: seq<Delayed>, i: nat, top: nat) returns (t: Node)
    requires Bounded(Zero, s, top) && e <= top && k < 3 && Stage(s, e, v, k, decision, delayed)
    requires forall d :: d in queue ==> d.msg.epoch <= top
    requires i < |queue| && queue[i] == Four(e, v)[k]
    ensures Bounded(Zero, t, top) && Stage(t, e, v, k + 1, decision, delayed)
    ensures Replay(Zero, s, queue, i, top) == Replay(Zero, t, queue, i + 1, top)
  {
    hide Stage, HandleMessage;
    VoteStep(s, e, v, k, decision, delayed, top);
    t := HandleMessage(Zero, s, queue[i].sid, queue[i].msg, top);
  }

  /** The four votes in a replay: the epoch is left within it, and the queue as it then stands is replayed first. */
  lemma FourIn(s: Node, e: nat, v: bool, decision: Option<bool>, delayed: seq<Delayed>,
               queue: seq<Delayed>, i: nat, top: nat) returns (b: Node, x: Node)
    requires Bounded(Zero, s, top) && e <= top && Stage(s, e, v, 0, decision, delayed) && decision != Some(Coin(e))
    requires forall d :: d in queue ==> d.msg.epoch <= top
    requires i + 4 <= |queue| && queue[i..i + 4] == Four(e, v)
    ensures Bounded(Zero, b, top) && Bounded(Zero, x, top)
    ensures Stage(b, e + 1, v, 0, if decision.None? && v == Coin(e) then Some(v) else decision, delayed)
    ensures x == Replay(Zero, b, delayed, 0, top).(delayed := [])
    ensures Replay(Zero, s, queue, i, top) == Replay(Zero, x, queue, i + 4, top)
  {
    hide HandleMessage, HandleBval, Stage;
    var votes := queue[i..i + 4];
    assert votes[0] == queue[i] && votes[1] == queue[i + 1] && votes[2] == queue[i + 2] && votes[3] == queue[i + 3];
    var t1 := VoteIn(s, e, v, 0, decision, delayed, queue, i, top);
    var t2 := VoteIn(t1, e, v, 1, decision, delayed, queue, i + 1, top);
    var t := VoteIn(t2, e, v, 2, decision, delayed, queue, i + 2, top);
    var a := VoteLeaves(t, e, v, decision, delayed, top);
    OwnVote(a, e + 1, v, if decision.None? && v == Coin(e) then Some(v) else decision, delayed, top);
    b := HandleBval(Zero, a, 0, v, top);
    x := Enter(Zero, a, top);
  }

  // ----- from the start to the replay on leaving the first epoch -----

  lemma {:induction false} FeedOn(s: Node, a: seq<Delayed>, b: seq<Delayed>)
    ensures Feed(Zero, s, a + b) == Feed(Zero, Feed(Zero, s, a), b)
    decreases |a|
  {
    if a == [] {
      assert a + b == b;
    } else {
      assert (a + b)[1..] == a[1..] + b;
      FeedOn(Handle(Zero, s, a[0].sid, a[0].msg), a[1..], b);
    }
  }

  lemma {:induction false} FeedQueue(s: Node, list: seq<Delayed>)
    requires !s.done && forall d :: d in list ==> d.msg.epoch > s.epoch
    ensures var r := Feed(Zero, s, list); r == s.(heard := r.heard, delayed := s.delayed + list)
    decreases |list|
  {
    if list == [] {
      assert s.delayed + list == s.delayed;
    } else {
      var d := list[0];
      QueueStep(s, d, Top(s, d.msg.epoch));
      assert list == [d] + list[1..];
      assert s.delayed + [d] + list[1..] == s.delayed + list;
      FeedQueue(Handle(Zero, s, d.sid, d.msg), list[1..]);
    }
  }

  lemma Begin(v: bool)
    ensures Stage(Input(Zero, Fresh, v), 0, v, 0, None, [])
  {
    assert NoVotes.Add(v, 0) == Only(v, {0});
  }

  /** With the queue filled in the first epoch, its four votes begin the replay of that queue in the next. */
  lemma FeedFour(s: Node, v: bool) returns (b: Node, top: nat)
    requires Stage(s, 0, v, 0, None, s.delayed)
    ensures Bounded(Zero, b, top) && Stage(b, 1, v, 0, if v then Some(v) else None, s.delayed)
    ensures Feed(Zero, s, Four(0, v)) == Replay(Zero, b, s.delayed, 0, top).(delayed := [])
  {
    hide HandleMessage, HandleBval, Stage;
    var votes := Four(0, v);
    VoteStep(s, 0, v, 0, None, s.delayed, Top(s, 0));
    var s1 := Handle(Zero, s, votes[0].sid, votes[0].msg);
    VoteStep(s1, 0, v, 1, None, s.delayed, Top(s1, 0));
    var s2 := Handle(Zero, s1, votes[1].sid, votes[1].msg);
    VoteStep(s2, 0, v, 2, None, s.delayed, Top(s2, 0));
    var s3 := Handle(Zero, s2, votes[2].sid, votes[2].msg);
    top := Top(s3, 0);
    var a := VoteLeaves(s3, 0, v, None, s.delayed, top);
    OwnVote(a, 1, v, if v then Some(v) else None, s.delayed, top);
    b := HandleBval(Zero, a, 0, v, top);
    FeedAll(s, votes[0], votes[1], votes[2], votes[3]);
  }

  lemma FeedAll(s: Node, d0: Delayed, d1: Delayed, d2: Delayed, d3: Delayed)
    ensures Feed(Zero, s, [d0, d1, d2, d3]) ==
            Handle(Zero, Handle(Zero, Handle(Zero, Handle(Zero, s, d0.sid, d0.msg), d1.sid, d1.msg), d2.sid, d2.msg),
                   d3.sid, d3.msg)
  {
    assert [d0, d1, d2, d3] == [d0, d1] + [d2, d3];
    FeedOn(s, [d0, d1], [d2, d3]);
    FeedPair(s, d0, d1);
    FeedPair(Feed(Zero, s, [d0, d1]), d2, d3);
  }

  lemma FeedPair(s: Node, d0: Delayed, d1: Delayed)
    ensures Feed(Zero, s, [d0, d1]) == Handle(Zero, Handle(Zero, s, d0.sid, d0.msg), d1.sid, d1.msg)
  {
    hide Handle;
    var t, list := Handle(Zero, s, d0.sid, d0.msg), [d0, d1];
    assert list[1..] == [d1];
    assert Feed(Zero, s, list) == Feed(Zero, t, list[1..]);
    assert Feed(Zero, t, [d1]) == Feed(Zero, Handle(Zero, t, d1.sid, d1.msg), [d1][1..]);
  }

  lemma EarlyRun(v: bool, queue: seq<Delayed>) returns (b: Node, top: nat)
    requires forall d :: d in queue ==> d.msg.epoch > 0
    ensures Bounded(Zero, b, top) && forall d :: d in queue ==> d.msg.epoch <= top
    ensures Stage(b, 1, v, 0, if v then Some(v) else None, queue)
    ensures Feed(Zero, Input(Zero, Fresh, v), queue + Four(0, v)) == Replay(Zero, b, queue, 0, top).(delayed := [])
  {
    Begin(v);
    var s := Input(Zero, Fresh, v);
    FeedQueue(s, queue);
    var q := Feed(Zero, s, queue);
    assert [] + queue == queue;
    FeedOn(s, queue, Four(0, v));
    b, top := FeedFour(q, v);
  }

  // ----- the three runs -----

  /** Two epochs ahead and lost: the next epoch is entered, and the vote of member 3 is neither counted nor queued any
      more, whatever else comes, until it is handed in once more. */
  lemma TwoAheadIsLost()
    ensures var r := Feed(Zero, Input(Zero, Fresh, true), [B(3, 2, true)] + Four(0, true));
            && r.epoch == 1 && r.delayed == []
            && forall list :: B(3, 2, true) !in list ==> !Kept(Feed(Zero, r, list), B(3, 2, true))
  {
    var d := B(3, 2, true);
    var b, top := EarlyRun(true, [d]);
    QueueStep(b, d, top);
    var t := HandleMessage(Zero, b, d.sid, d.msg, top);
    assert Replay(Zero, b, [d], 0, top) == Replay(Zero, t, [d], 1, top) == t;
    var r := t.(delayed := []);
    assert Timed(r) by { RunIsTimed(true, [d] + Four(0, true)); }
    forall list | d !in list ensures !Kept(Feed(Zero, r, list), d) {
      LostStaysLost(Zero, r, list, d);
    }
  }

  lemma {:induction false} FeedIsTimed(s: Node, list: seq<Delayed>)
    requires Timed(s)
    ensures Timed(Feed(Zero, s, list))
    decreases |list|
  {
    if list != [] {
      MessageOnward(Zero, s, list[0].sid, list[0].msg, Top(s, list[0].msg.epoch));
      FeedIsTimed(Handle(Zero, s, list[0].sid, list[0].msg), list[1..]);
    }
  }

  lemma RunIsTimed(v: bool, list: seq<Delayed>)
    ensures Timed(Feed(Zero, Input(Zero, Fresh, v), list))
  {
    var s := Fresh.(estimated := Some(v), input := Some(v), sentBvals := [v]);
    BvalOnward(Zero, Say(s, Bval(v)), 0, v, Top(Fresh, 0));
    assert Fresh.sentBvals + [v] == [v];
    FeedIsTimed(Input(Zero, Fresh, v), list);
  }

  lemma QuietIn(s: Node, queue: seq<Delayed>, i: nat, top: nat) returns (t: Node)
    requires Bounded(Zero, s, top) && i < |queue| && !s.done && s.epoch == queue[i].msg.epoch
    requires (forall d :: d in queue ==> d.msg.epoch <= top) && queue[i].msg.body.Bval?
    requires var count := |s.recvBval.Add(queue[i].msg.body.value, queue[i].sid).Of(queue[i].msg.body.value)|;
             count < 2 || (count == 2 && queue[i].msg.body.value in s.sentBvals)
    ensures t == s.(heard := t.heard, recvBval := s.recvBval.Add(queue[i].msg.body.value, queue[i].sid))
    ensures Bounded(Zero, t, top) && Replay(Zero, s, queue, i, top) == Replay(Zero, t, queue, i + 1, top)
  {
    var d := queue[i];
    QuietBval(s.(heard := s.heard + {Delayed(d.sid, d.msg)}), d.sid, d.msg.body.value, top);
    t := HandleMessage(Zero, s, d.sid, d.msg, top);
  }

  /** Two epochs ahead and counted: the replay itself takes the instance on to that epoch. */
  lemma TwoAheadIsCounted()
    ensures var r := Feed(Zero, Input(Zero, Fresh, true), Four(1, true) + [B(3, 2, true)] + Four(0, true));
            r.epoch == 2 && Tallied(r, B(3, 2, true))
  {
    hide HandleMessage, Replay, Feed, Input;
    var d, queue := B(3, 2, true), Four(1, true) + [B(3, 2, true)];
    var b, top := EarlyRun(true, queue);
    assert queue[0..4] == Four(1, true) && queue[4] == d && d in queue;
    var c, x := FourIn(b, 1, true, Some(true), queue, queue, 0, top);
    OneMore(c, queue, top);
    assert x.recvBval.Add(true, 3) == Only(true, {0, 3});
    var t := QuietIn(x, queue, 4, top);
    EndOfReplay(t, queue, top);
    RunIsTimed(true, queue + Four(0, true));
  }

  lemma EndOfReplay(s: Node, queue: seq<Delayed>, top: nat)
    requires Bounded(Zero, s, top) && forall d :: d in queue ==> d.msg.epoch <= top
    ensures Replay(Zero, s, queue, |queue|, top) == s
  {
  }

  lemma OneMore(s: Node, queue: seq<Delayed>, top: nat)
    requires Bounded(Zero, s, top) && Stage(s, 2, true, 0, Some(true), queue)
    requires queue == Four(1, true) + [B(3, 2, true)] && forall d :: d in queue ==> d.msg.epoch <= top
    ensures var r := Replay(Zero, s, queue, 0, top);
            r == s.(heard := r.heard, recvBval := Only(true, {0, 3}))
  {
    hide HandleMessage, Replay;
    assert queue[..4] == Four(1, true) && queue[4] == B(3, 2, true);
    var o := SkipOld(s, queue, 0, 4, top);
    assert o.recvBval.Add(true, 3) == Only(true, {0, 3});
    var t := QuietIn(o, queue, 4, top);
    EndOfReplay(t, queue, top);
  }

  // ----- an epoch that is reached, and a vote for it that is lost -----

  /** What the faulty member 1 and member 2 say in epoch 2; member 1 says two AUX. */
  const Second := [A(1, 2, false), A(1, 2, true), A(2, 2, false), B(1, 2, false), B(2, 2, false)]

  /** Epoch 2 as the replay nested in the first one leaves it: one AUX short of a quorum. */
  ghost predicate Short(s: Node, delayed: seq<Delayed>) {
    && s.epoch == 2 && s.sentBvals == [false] && s.decision == Some(false) && s.delayed == delayed && !s.done
    && s.binValues == [false] && s.recvBval == Only(false, {0, 1, 2})
    && s.recvAux == map[0 := false, 1 := true, 2 := false]
  }

  lemma AuxIn(s: Node, queue: seq<Delayed>, i: nat, top: nat) returns (t: Node)
    requires Bounded(Zero, s, top) && i < |queue| && !s.done && s.epoch == queue[i].msg.epoch
    requires (forall d :: d in queue ==> d.msg.epoch <= top) && queue[i].msg.body.Aux? && s.binValues == []
    ensures t == s.(heard := t.heard, recvAux := s.recvAux[queue[i].sid := queue[i].msg.body.value])
    ensures Bounded(Zero, t, top) && Replay(Zero, s, queue, i, top) == Replay(Zero, t, queue, i + 1, top)
  {
    var d := queue[i];
    QuietAux(s.(heard := s.heard + {Delayed(d.sid, d.msg)}), d.sid, d.msg.body.value, top);
    t := HandleMessage(Zero, s, d.sid, d.msg, top);
  }

  lemma QueueIn(s: Node, queue: seq<Delayed>, i: nat, top: nat) returns (t: Node)
    requires Bounded(Zero, s, top) && i < |queue| && !s.done && s.epoch < queue[i].msg.epoch
    requires forall d :: d in queue ==> d.msg.epoch <= top
    ensures t == s.(heard := t.heard, delayed := s.delayed + [queue[i]])
    ensures Bounded(Zero, t, top) && Replay(Zero, s, queue, i, top) == Replay(Zero, t, queue, i + 1, top)
  {
    QueueStep(s, queue[i], top);
    t := HandleMessage(Zero, s, queue[i].sid, queue[i].msg, top);
  }

  lemma ShortVoters()
    ensures |ValidAux(map[0 := false, 1 := true, 2 := false], [false])| == 2
    ensures |ValidAux(map[0 := false, 1 := false, 2 := false], [false])| == 3
  {
    assert ValidAux(map[0 := false, 1 := true, 2 := false], [false]) == {0, 2};
    assert ValidAux(map[0 := false, 1 := false, 2 := false], [false]) == {0, 1, 2};
  }

  /** The votes of epoch 2 in order, none of which completes the quorum. */
  lemma SecondIn(s: Node, delayed: seq<Delayed>, queue: seq<Delayed>, i: nat, top: nat) returns (t: Node)
    requires Bounded(Zero, s, top) && Stage(s, 2, false, 0, Some(false), delayed)
    requires i + 5 <= |queue| && queue[i..i + 5] == Second && forall d :: d in queue ==> d.msg.epoch <= top
    ensures Bounded(Zero, t, top) && Short(t, delayed)
    ensures Replay(Zero, s, queue, i, top) == Replay(Zero, t, queue, i + 5, top)
  {
    hide HandleMessage, HandleBval, Replay, ValidAux;
    var votes := queue[i..i + 5];
    assert votes[0] == queue[i] && votes[1] == queue[i + 1] && votes[2] == queue[i + 2];
    assert votes[3] == queue[i + 3] && votes[4] == queue[i + 4];
    var t1 := AuxIn(s, queue, i, top);
    var t2 := AuxIn(t1, queue, i + 1, top);
    var t3 := AuxIn(t2, queue, i + 2, top);
    assert t3.recvAux == map[1 := true, 2 := false];
    assert t3.recvBval.Add(false, 1) == Only(false, {0, 1});
    var t4 := QuietIn(t3, queue, i + 3, top);
    assert t4.recvBval.Add(false, 2) == Only(false, {0, 1, 2});
    assert t4.recvAux[0 := false] == map[0 := false, 1 := true, 2 := false];
    ShortVoters();
    t := AdmitIn(t4, queue, i + 4, top);
  }

  lemma AdmitIn(s: Node, queue: seq<Delayed>, i: nat, top: nat) returns (t: Node)
    requires Bounded(Zero, s, top) && i < |queue| && !s.done && s.epoch == 2 && s.binValues == []
    requires queue[i] == B(2, 2, false) && forall d :: d in queue ==> d.msg.epoch <= top
    requires |s.recvBval.Add(false, 2).Of(false)| == 3 && |ValidAux(s.recvAux[0 := false], [false])| < 3
    ensures t == s.(heard := t.heard, recvBval := s.recvBval.Add(false, 2), binValues := [false],
                    recvAux := s.recvAux[0 := false], messages := t.messages, log := t.log)
    ensures Bounded(Zero, t, top) && Replay(Zero, s, queue, i, top) == Replay(Zero, t, queue, i + 1, top)
  {
    Admits(s.(heard := s.heard + {B(2, 2, false)}), 2, false, top);
    t := HandleMessage(Zero, s, 2, queue[i].msg, top);
  }

  /** The nested replay: member 3's vote of epoch 3 is put back, and then dropped with the rest. */
  lemma NestedIn(s: Node, queue: seq<Delayed>, top: nat) returns (t: Node)
    requires queue == [B(3, 3, false)] + Four(1, false) + Second + [B(3, 3, false)]
    requires Bounded(Zero, s, top) && Stage(s, 2, false, 0, Some(false), queue)
    requires forall d :: d in queue ==> d.msg.epoch <= top
    ensures t == Replay(Zero, s, queue, 0, top).(delayed := []) && Bounded(Zero, t, top) && Short(t, [])
  {
    hide HandleMessage, Replay;
    assert queue[1..5] == Four(1, false) && queue[5..10] == Second;
    var t1 := QueueIn(s, queue, 0, top);
    assert forall k :: 1 <= k < 5 ==> queue[k] == queue[1..5][k - 1];
    var t2 := SkipOld(t1, queue, 1, 5, top);
    var t3 := SecondIn(t2, t2.delayed, queue, 5, top);
    var t4 := QueueIn(t3, queue, 10, top);
    EndOfReplay(t4, queue, top);
    t := t4.(delayed := []);
  }

  /** Back in the first replay, member 1's first AUX completes the quorum: epoch 3 begins with an empty queue. */
  lemma BackIn(s: Node, queue: seq<Delayed>, top: nat)
    requires queue == [B(3, 3, false)] + Four(1, false) + Second
    requires Bounded(Zero, s, top) && Short(s, []) && forall d :: d in queue ==> d.msg.epoch <= top
    ensures var r := Replay(Zero, s, queue, 5, top);
            r.epoch == 3 && r.delayed == [] && r.recvBval == Only(false, {0})
  {
    hide HandleAux, ValidAux, Advance;
    assert queue[5..10] == Second && queue[5] == A(1, 2, false);
    assert s.recvAux[1 := false] == map[0 := false, 1 := false, 2 := false];
    ShortVoters();
    var h := s.(heard := s.heard + {A(1, 2, false)});
    Leaves(h, 1, false, top);
    var a := Advance(h.(recvAux := h.recvAux[1 := false]));
    OwnVote(a, 3, false, Some(false), [], top);
    var t := HandleMessage(Zero, s, 1, queue[5].msg, top);
    assert forall k :: 6 <= k < 10 ==> queue[k] == Second[k - 5];
    var o := SkipOld(t, queue, 6, 10, top);
    EndOfReplay(o, queue, top);
  }

  /** Three epochs ahead: the call does reach epoch 3, and yet the vote of member 3 for it is lost. */
  lemma ReachedAndLost()
    ensures var r := Feed(Zero, Input(Zero, Fresh, false), [B(3, 3, false)] + Four(1, false) + Second + Four(0, false));
            r.epoch == 3 && !Kept(r, B(3, 3, false))
  {
    hide HandleMessage, Replay, Feed, Input;
    var d, queue := B(3, 3, false), [B(3, 3, false)] + Four(1, false) + Second;
    var b, top := EarlyRun(false, queue);
    assert queue[0] == d && queue[1..5] == Four(1, false);
    var t := QueueIn(b, queue, 0, top);
    var c, x := FourIn(t, 1, false, None, queue + [d], queue, 1, top);
    var y := NestedIn(c, queue + [d], top);
    BackIn(x, queue, top);
    RunIsTimed(false, queue + Four(0, false));
  }
}
