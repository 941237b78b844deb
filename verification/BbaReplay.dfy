/** What becomes of the messages that reach an instance before their epoch does. */
module BbaReplay {
  import opened Options
  import opened Membership
  import opened BbaSpec
  import opened BbaInvariant

  // ----- what a queue says of an epoch, and what a state has counted -----

  function AuxAt(s: Node, e: nat): map<nat, bool> {
    if e < |s.trail| then s.trail[e].aux else s.recvAux
  }

  /** The value of q's latest AUX of epoch e in the queue; a later one replaces an earlier one. */
  function LatestAux(queue: seq<Delayed>, e: nat, q: nat): Option<bool> {
    if queue == [] then None
    else
      var d := queue[|queue| - 1];
      if d.sid == q && d.msg.epoch == e && d.msg.body.Aux? then Some(d.msg.body.value)
      else LatestAux(queue[..|queue| - 1], e, q)
  }

  ghost predicate CountsOf(s: Node, e: nat, queue: seq<Delayed>, q: nat) {
    && (forall v: bool :: q in BvalsAt(s, e).Of(v) <==> Delayed(q, Message(e, Bval(v))) in queue)
    && LatestAux(queue, e, q) == if q in AuxAt(s, e) then Some(AuxAt(s, e)[q]) else None
  }

  /** The others' votes of epoch e are exactly those of the queue. */
  ghost predicate Counts(c: Config, s: Node, e: nat, queue: seq<Delayed>) {
    forall q :: q != c.id ==> CountsOf(s, e, queue, q)
  }

  /** Epoch e has the votes of the queue, in order, up to where the epoch was left or the instance done. */
  ghost predicate Heeds(c: Config, r: Node, e: nat, queue: seq<Delayed>) {
    exists k: nat :: k <= |queue| && Counts(c, r, e, queue[..k]) && (k == |queue| || r.epoch > e || r.done)
  }

  /** One round is recorded for every epoch left. */
  predicate Timed(s: Node) {
    |s.trail| == s.epoch
  }

  ghost predicate Onward(s: Node, r: Node) {
    s.trail <= r.trail && Timed(r) && (s.done ==> r.done)
  }

  /** Of epoch e, r has these votes of others. */
  ghost predicate HasRound(c: Config, r: Node, e: nat, bvals: Tally, aux: map<nat, bool>) {
    && (forall v: bool :: BvalsAt(r, e).Of(v) - {c.id} == bvals.Of(v) - {c.id})
    && AuxAt(r, e) - {c.id} == aux - {c.id}
  }

  /** What the call made of the queue it found. */
  ghost predicate Settles(c: Config, s: Node, r: Node) {
    r.epoch > s.epoch ==>
      && r.delayed == []
      && Heeds(c, r, s.epoch + 1, s.delayed)
      && (r.epoch == s.epoch + 2 && !r.done ==> Counts(c, r, r.epoch, s.delayed))
  }

  predicate Stays(c: Config, s: Node) {
    || s.binValues == [] || |ValidAux(s.recvAux, s.binValues)| < c.n - c.f
    || s.done || s.decision == Some(Coin(s.epoch))
  }

  // ----- epochs only move on, and the votes of the one being left are kept -----

  lemma {:induction false} MessageOnward(c: Config, s: Node, sid: nat, m: Message, top: nat)
    requires c.Sound() && Bounded(c, s, top) && m.epoch <= top && Timed(s)
    ensures var r := HandleMessage(c, s, sid, m, top);
            && Onward(s, r)
            && var late := if !s.done && m.epoch > s.epoch then [Delayed(sid, m)] else [];
               r.epoch == s.epoch ==> r.delayed == s.delayed + late
    decreases top + 1 - s.epoch, 4, 0
  {
    var h := s.(heard := s.heard + {Delayed(sid, m)});
    if !s.done && m.epoch == s.epoch {
      match m.body
      case Bval(v) => BvalOnward(c, h, sid, v, top);
      case Aux(v) => OutputOnward(c, h.(recvAux := h.recvAux[sid := v]), top);
      case Unknown =>
    }
  }

  lemma RoundAsIs(c: Config, r: Node, e: nat, bvals: Tally, aux: map<nat, bool>)
    requires BvalsAt(r, e) == bvals && AuxAt(r, e) == aux
    ensures HasRound(c, r, e, bvals, aux)
  {
  }

  lemma OwnAuxAside(c: Config, r: Node, e: nat, bvals: Tally, aux: map<nat, bool>, v: bool)
    requires BvalsAt(r, e) == bvals && AuxAt(r, e) == aux[c.id := v]
    ensures HasRound(c, r, e, bvals, aux)
  {
  }

  lemma OwnVoteAside(c: Config, r: Node, e: nat, bvals: Tally, aux: map<nat, bool>, v: bool)
    requires HasRound(c, r, e, bvals.Add(v, c.id), aux)
    ensures HasRound(c, r, e, bvals, aux)
  {
    assert bvals.Add(v, c.id).Of(v) - {c.id} == bvals.Of(v) - {c.id};
    assert bvals.Add(v, c.id).Of(!v) == bvals.Of(!v);
  }

  lemma {:induction false} BvalOnward(c: Config, s: Node, sid: nat, v: bool, top: nat)
    requires c.Sound() && Bounded(c, s, top) && (s.epoch <= top || sid == c.id) && Timed(s)
    ensures var r := HandleBval(c, s, sid, v, top);
            && Onward(s, r) && (r.epoch == s.epoch ==> r.delayed == s.delayed)
            && HasRound(c, r, s.epoch, s.recvBval.Add(v, sid), s.recvAux)
    decreases top + 1 - s.epoch, 3, if v in s.sentBvals then 0 else 1
  {
    hide TryOutput, HasRound;
    var t := s.(recvBval := s.recvBval.Add(v, sid));
    var r, count := HandleBval(c, s, sid, v, top), |t.recvBval.Of(v)|;
    if s.epoch == top + 1 {
      SubsetSize(t.recvBval.Of(v), {c.id});
    }
    if count == 2 * c.f + 1 {
      var a := t.(binValues := t.binValues + [v]);
      if t.binValues == [] {
        var y := Say(a, Aux(v));
        var z := y.(recvAux := y.recvAux[c.id := v]);
        OutputOnward(c, z, top);
        assert r == HandleAux(c, y, c.id, v, top) == TryOutput(c, z, top);
        OwnAuxAside(c, r, s.epoch, t.recvBval, s.recvAux, v);
      } else {
        OutputOnward(c, a, top);
        RoundAsIs(c, r, s.epoch, t.recvBval, s.recvAux);
      }
    } else if count == c.f + 1 && v !in t.sentBvals {
      BvalOnward(c, Say(t.(sentBvals := t.sentBvals + [v]), Bval(v)), c.id, v, top);
      OwnVoteAside(c, r, s.epoch, t.recvBval, s.recvAux, v);
    } else {
      RoundAsIs(c, r, s.epoch, t.recvBval, s.recvAux);
    }
  }

  lemma {:induction false} OutputOnward(c: Config, s: Node, top: nat)
    requires c.Sound() && Bounded(c, s, top) && s.epoch <= top && Timed(s)
    ensures var r := TryOutput(c, s, top);
            && Onward(s, r) && (r.epoch == s.epoch ==> r.delayed == s.delayed)
            && BvalsAt(r, s.epoch) == s.recvBval && AuxAt(r, s.epoch) == s.recvAux
    decreases top + 1 - s.epoch, 1, 0
  {
    if !Stays(c, s) {
      EnterOnward(c, Advance(s), top);
      assert Advance(s).trail[s.epoch] == Round(s.recvBval, s.binValues, s.recvAux);
    }
  }

  lemma {:induction false} EnterOnward(c: Config, a: Node, top: nat)
    requires c.Sound() && Bounded(c, a, top) && a.estimated.Some? && Timed(a)
    ensures Onward(a, Enter(c, a, top))
    decreases top + 1 - a.epoch, 6, 0
  {
    BvalOnward(c, a, c.id, a.estimated.value, top);
    var b := HandleBval(c, a, c.id, a.estimated.value, top);
    ReplayOnward(c, b, b.delayed, 0, top);
  }

  lemma {:induction false} ReplayOnward(c: Config, s: Node, queue: seq<Delayed>, i: nat, top: nat)
    requires c.Sound() && Bounded(c, s, top) && i <= |queue| && Timed(s)
    requires forall d :: d in queue ==> d.msg.epoch <= top
    ensures Onward(s, Replay(c, s, queue, i, top))
    decreases top + 1 - s.epoch, 5, |queue| - i
  {
    if i < |queue| {
      var t := HandleMessage(c, s, queue[i].sid, queue[i].msg, top);
      MessageOnward(c, s, queue[i].sid, queue[i].msg, top);
      ReplayOnward(c, t, queue, i + 1, top);
    }
  }

  // ----- one handled message, one counted vote -----

  lemma LatestAuxOf(queue: seq<Delayed>, d: Delayed, e: nat, q: nat)
    ensures LatestAux(queue + [d], e, q) ==
            if d.sid == q && d.msg.epoch == e && d.msg.body.Aux? then Some(d.msg.body.value) else LatestAux(queue, e, q)
  {
    assert (queue + [d])[..|queue|] == queue;
  }

  /** The round of the epoch a message is handled in, for the other members' votes. */
  lemma MessageAdds(c: Config, s: Node, sid: nat, m: Message, top: nat, q: nat)
    requires c.Sound() && Bounded(c, s, top) && m.epoch <= top && Timed(s) && !s.done && q != c.id
    ensures var r, now := HandleMessage(c, s, sid, m, top), m.epoch == s.epoch && q == sid;
            && (forall v: bool ::
                  q in BvalsAt(r, s.epoch).Of(v) <==> q in s.recvBval.Of(v) || (now && m.body == Bval(v)))
            && (q in AuxAt(r, s.epoch) <==> q in s.recvAux || (now && m.body.Aux?))
            && (q in AuxAt(r, s.epoch) ==>
                  AuxAt(r, s.epoch)[q] == if now && m.body.Aux? then m.body.value else s.recvAux[q])
  {
    var r, h := HandleMessage(c, s, sid, m, top), s.(heard := s.heard + {Delayed(sid, m)});
    if m.epoch == s.epoch {
      match m.body
      case Bval(v) =>
        BvalOnward(c, h, sid, v, top);
        var t := h.(recvBval := h.recvBval.Add(v, sid));
        assert forall w: bool :: q in t.recvBval.Of(w) <==> q in t.recvBval.Of(w) - {c.id};
        assert forall w: bool :: q in BvalsAt(r, s.epoch).Of(w) <==> q in BvalsAt(r, s.epoch).Of(w) - {c.id};
        assert q in AuxAt(r, s.epoch) <==> q in AuxAt(r, s.epoch) - {c.id};
        assert q in s.recvAux <==> q in s.recvAux - {c.id};
        assert q in s.recvAux ==> AuxAt(r, s.epoch)[q] == (AuxAt(r, s.epoch) - {c.id})[q];
      case Aux(v) => OutputOnward(c, h.(recvAux := h.recvAux[sid := v]), top);
      case Unknown =>
    }
  }

  lemma MessageCounts(c: Config, s: Node, sid: nat, m: Message, top: nat, base: seq<Delayed>)
    requires c.Sound() && Bounded(c, s, top) && m.epoch <= top && Timed(s)
    requires !s.done && Counts(c, s, s.epoch, base)
    ensures Counts(c, HandleMessage(c, s, sid, m, top), s.epoch, base + [Delayed(sid, m)])
  {
    var r, d := HandleMessage(c, s, sid, m, top), Delayed(sid, m);
    hide HandleMessage, Bounded;
    forall q | q != c.id ensures CountsOf(r, s.epoch, base + [d], q) {
      assert CountsOf(s, s.epoch, base, q);
      MessageAdds(c, s, sid, m, top, q);
      LatestAuxOf(base, d, s.epoch, q);
    }
  }

  // ----- a queue, from where its replay begins -----

  /** What is counted of an epoch that was left is counted for good. */
  lemma CountsStay(c: Config, s: Node, r: Node, e: nat, queue: seq<Delayed>)
    requires Timed(s) && Onward(s, r) && e < s.epoch && Counts(c, s, e, queue)
    ensures Counts(c, r, e, queue)
  {
    assert r.trail[e] == s.trail[e];
    forall q | q != c.id ensures CountsOf(r, e, queue, q) {
      assert CountsOf(s, e, queue, q);
    }
  }

  lemma {:induction false} DoneReplay(c: Config, s: Node, queue: seq<Delayed>, i: nat, top: nat)
    requires c.Sound() && Bounded(c, s, top) && i <= |queue|
    requires s.done && forall d :: d in queue ==> d.msg.epoch <= top
    ensures var r := Replay(c, s, queue, i, top); r == s.(heard := r.heard)
    decreases |queue| - i
  {
    if i < |queue| {
      DoneReplay(c, HandleMessage(c, s, queue[i].sid, queue[i].msg, top), queue, i + 1, top);
    }
  }

  /** A replay counts the votes it comes to, until the epoch is left or the instance done. */
  lemma {:induction false} ReplayCounts(c: Config, s: Node, queue: seq<Delayed>, i: nat, top: nat, base: seq<Delayed>)
    returns (k: nat)
    requires c.Sound() && Bounded(c, s, top) && i <= |queue| && Timed(s)
    requires forall d :: d in queue ==> d.msg.epoch <= top
    requires Counts(c, s, s.epoch, base)
    ensures i <= k <= |queue|
    ensures var r := Replay(c, s, queue, i, top);
            Counts(c, r, s.epoch, base + queue[i..k]) && (k == |queue| || r.epoch > s.epoch || r.done)
    decreases |queue| - i
  {
    k := i;
    assert base + queue[i..i] == base;
    if s.done {
      DoneReplay(c, s, queue, i, top);
      assert forall q :: CountsOf(s, s.epoch, base, q) ==> CountsOf(Replay(c, s, queue, i, top), s.epoch, base, q);
    } else if i < |queue| {
      var d := queue[i];
      var t := HandleMessage(c, s, d.sid, d.msg, top);
      MessageOnward(c, s, d.sid, d.msg, top);
      MessageCounts(c, s, d.sid, d.msg, top, base);
      if t.epoch == s.epoch {
        k := ReplayCounts(c, t, queue, i + 1, top, base + [d]);
        assert base + [d] + queue[i + 1..k] == base + queue[i..k];
      } else {
        k := i + 1;
        assert queue[i..k] == [d];
        ReplayOnward(c, t, queue, i + 1, top);
        CountsStay(c, t, Replay(c, s, queue, i, top), s.epoch, base + [d]);
      }
    }
  }

  // ----- the queue of a replay that leaves its epoch -----

  /** The entries that an instance in epoch e puts back into the queue. */
  function LateOf(queue: seq<Delayed>, e: nat): seq<Delayed> {
    if queue == [] then []
    else
      var d := queue[|queue| - 1];
      LateOf(queue[..|queue| - 1], e) + if d.msg.epoch > e then [d] else []
  }

  lemma LateOfAdds(queue: seq<Delayed>, i: nat, e: nat)
    requires i < |queue|
    ensures LateOf(queue[..i + 1], e) == LateOf(queue[..i], e) + if queue[i].msg.epoch > e then [queue[i]] else []
  {
    assert queue[..i + 1][..i] == queue[..i];
  }

  lemma {:induction false} LateOfHas(queue: seq<Delayed>, e: nat)
    ensures forall d :: d in LateOf(queue, e) <==> d in queue && d.msg.epoch > e
    decreases |queue|
  {
    if queue != [] {
      var but := queue[..|queue| - 1];
      LateOfHas(but, e);
      assert queue == but + [queue[|queue| - 1]];
    }
  }

  lemma {:induction false} LatestAuxOn(a: seq<Delayed>, b: seq<Delayed>, e: nat, q: nat)
    ensures LatestAux(a + b, e, q) == if LatestAux(b, e, q).Some? then LatestAux(b, e, q) else LatestAux(a, e, q)
    decreases |b|
  {
    if b == [] {
      assert a + b == a;
    } else {
      var but, d := b[..|b| - 1], b[|b| - 1];
      assert b == but + [d] && a + b == (a + but) + [d];
      LatestAuxOn(a, but, e, q);
      LatestAuxOf(a + but, d, e, q);
    }
  }

  lemma {:induction false} LatestAuxOfLate(queue: seq<Delayed>, e: nat, q: nat)
    ensures LatestAux(LateOf(queue, e), e + 1, q) == LatestAux(queue, e + 1, q)
    decreases |queue|
  {
    if queue != [] {
      var but, d := queue[..|queue| - 1], queue[|queue| - 1];
      assert queue == but + [d];
      LatestAuxOfLate(but, e, q);
      LatestAuxOf(but, d, e + 1, q);
      LatestAuxOf(LateOf(but, e), d, e + 1, q);
      assert LateOf(but, e) + [] == LateOf(but, e);
    }
  }

  /** Leaving epoch e at entry i, the queue with what was put back, then the rest once more: the votes of the queue. */
  lemma SameVotes(c: Config, r: Node, queue: seq<Delayed>, i: nat, e: nat)
    requires i < |queue| && queue[i].msg.epoch == e
    requires Counts(c, r, e + 1, queue + LateOf(queue[..i], e) + queue[i + 1..])
    ensures Counts(c, r, e + 1, queue)
  {
    var late, rest, next := LateOf(queue[..i], e), queue[i + 1..], e + 1;
    LateOfHas(queue[..i], e);
    assert forall d :: d in queue + late + rest <==> d in queue;
    assert queue == queue[..i] + [queue[i]] + rest;
    forall q | q != c.id ensures CountsOf(r, next, queue, q) {
      assert CountsOf(r, next, queue + late + rest, q);
      LatestAuxOn(queue + late, rest, next, q);
      LatestAuxOn(queue, late, next, q);
      LatestAuxOn(queue[..i] + [queue[i]], rest, next, q);
      LatestAuxOf(queue[..i], queue[i], next, q);
      LatestAuxOfLate(queue[..i], e, q);
    }
  }

  /** A replay that leaves its epoch once has counted all that the queue says of the next one. */
  lemma {:induction false} ReplaySettles(c: Config, s: Node, queue: seq<Delayed>, i: nat, top: nat)
    requires c.Sound() && Bounded(c, s, top) && i <= |queue| && Timed(s)
    requires forall d :: d in queue ==> d.msg.epoch <= top
    requires s.delayed == queue + LateOf(queue[..i], s.epoch)
    ensures var r := Replay(c, s, queue, i, top);
            r.epoch == s.epoch + 1 && !r.done ==> Counts(c, r, r.epoch, queue)
    decreases top + 1 - s.epoch, 5, |queue| - i
  {
    var r := Replay(c, s, queue, i, top);
    if s.done {
      DoneReplay(c, s, queue, i, top);
    } else if i < |queue| {
      var d := queue[i];
      var t := HandleMessage(c, s, d.sid, d.msg, top);
      MessageOnward(c, s, d.sid, d.msg, top);
      if t.epoch == s.epoch {
        LateOfAdds(queue, i, s.epoch);
        ReplaySettles(c, t, queue, i + 1, top);
      } else if r.epoch == s.epoch + 1 && !r.done {
        MessageSettles(c, s, d.sid, d.msg, top);
        ReplayOnward(c, t, queue, i + 1, top);
        assert s.delayed[..|s.delayed|] == s.delayed;
        var k := ReplayCounts(c, t, queue, i + 1, top, s.delayed);
        assert queue[i + 1..k] == queue[i + 1..];
        SameVotes(c, r, queue, i, s.epoch);
      }
    }
  }

  // ----- leaving an epoch -----

  lemma {:induction false} MessageSettles(c: Config, s: Node, sid: nat, m: Message, top: nat)
    requires c.Sound() && Bounded(c, s, top) && m.epoch <= top && Timed(s)
    ensures Settles(c, s, HandleMessage(c, s, sid, m, top))
    decreases top + 1 - s.epoch, 4, 0
  {
    var h := s.(heard := s.heard + {Delayed(sid, m)});
    if !s.done && m.epoch == s.epoch {
      match m.body
      case Bval(v) => BvalSettles(c, h, sid, v, top);
      case Aux(v) => OutputSettles(c, h.(recvAux := h.recvAux[sid := v]), top);
      case Unknown =>
    }
  }

  lemma {:induction false} BvalSettles(c: Config, s: Node, sid: nat, v: bool, top: nat)
    requires c.Sound() && Bounded(c, s, top) && (s.epoch <= top || sid == c.id) && Timed(s)
    ensures Settles(c, s, HandleBval(c, s, sid, v, top))
    decreases top + 1 - s.epoch, 3, if v in s.sentBvals then 0 else 1
  {
    hide Heeds, Counts;
    var t := s.(recvBval := s.recvBval.Add(v, sid));
    var count := |t.recvBval.Of(v)|;
    if s.epoch == top + 1 {
      SubsetSize(t.recvBval.Of(v), {c.id});
    }
    if count == 2 * c.f + 1 {
      var a := t.(binValues := t.binValues + [v]);
      if t.binValues == [] {
        var y := Say(a, Aux(v));
        OutputSettles(c, y.(recvAux := y.recvAux[c.id := v]), top);
      } else {
        OutputSettles(c, a, top);
      }
    } else if count == c.f + 1 && v !in t.sentBvals {
      BvalSettles(c, Say(t.(sentBvals := t.sentBvals + [v]), Bval(v)), c.id, v, top);
    }
  }

  lemma {:induction false} OutputSettles(c: Config, s: Node, top: nat)
    requires c.Sound() && Bounded(c, s, top) && s.epoch <= top && Timed(s)
    ensures Settles(c, s, TryOutput(c, s, top))
    decreases top + 1 - s.epoch, 1, 0
  {
    if !Stays(c, s) {
      AdvanceResets(s);
      EnterSettles(c, Advance(s), top);
    }
  }

  /** The own vote alone is no threshold: the queue is replayed into an epoch that has nothing else. */
  lemma EnterCounts(c: Config, a: Node, top: nat)
    requires c.Sound() && Bounded(c, a, top) && a.estimated.Some? && Timed(a)
    requires a.recvBval == NoVotes && a.recvAux == map[]
    ensures var b := HandleBval(c, a, c.id, a.estimated.value, top);
            b == a.(recvBval := b.recvBval) && Counts(c, b, a.epoch, [])
  {
    var b := HandleBval(c, a, c.id, a.estimated.value, top);
    assert NoVotes.Add(a.estimated.value, c.id).Of(a.estimated.value) == {c.id};
    assert b == a.(recvBval := NoVotes.Add(a.estimated.value, c.id));
  }

  lemma {:induction false} EnterSettles(c: Config, a: Node, top: nat)
    requires c.Sound() && Bounded(c, a, top) && a.estimated.Some? && Timed(a)
    requires a.recvBval == NoVotes && a.recvAux == map[]
    ensures var r := Enter(c, a, top);
            && r.delayed == [] && Heeds(c, r, a.epoch, a.delayed)
            && (r.epoch == a.epoch + 1 && !r.done ==> Counts(c, r, r.epoch, a.delayed))
    decreases top + 1 - a.epoch, 6, 0
  {
    var b := HandleBval(c, a, c.id, a.estimated.value, top);
    var queue, x, r := a.delayed, Replay(c, b, b.delayed, 0, top), Enter(c, a, top);
    EnterCounts(c, a, top);
    var k := ReplayCounts(c, b, queue, 0, top, []);
    assert [] + queue[0..k] == queue[..k];
    assert queue + LateOf(queue[..0], b.epoch) == queue;
    ReplaySettles(c, b, queue, 0, top);
    assert forall e: nat, list, q :: CountsOf(x, e, list, q) ==> CountsOf(r, e, list, q);
  }

  // ----- where votes come from -----

  /** d's vote is counted in its epoch. */
  predicate Tallied(s: Node, d: Delayed) {
    && 0 <= d.msg.epoch <= s.epoch
    && match d.msg.body
       case Bval(v) => d.sid in BvalsAt(s, d.msg.epoch).Of(v)
       case Aux(v) => d.sid in AuxAt(s, d.msg.epoch) && AuxAt(s, d.msg.epoch)[d.sid] == v
       case Unknown => false
  }

  predicate Kept(s: Node, d: Delayed) {
    d in s.delayed || Tallied(s, d)
  }

  /** What the instance says itself keeps no vote of another. */
  lemma SayingKeepsOut(c: Config, s: Node, t: Node, d: Delayed)
    requires t.epoch == s.epoch && t.trail == s.trail && t.delayed == s.delayed && t.recvBval == s.recvBval
    requires t.recvAux - {c.id} == s.recvAux - {c.id} && d.sid != c.id && !Kept(s, d)
    ensures !Kept(t, d)
  {
    assert d.sid in t.recvAux <==> d.sid in t.recvAux - {c.id};
    assert d.sid in s.recvAux <==> d.sid in s.recvAux - {c.id};
    assert d.sid in t.recvAux ==> (t.recvAux - {c.id})[d.sid] == (s.recvAux - {c.id})[d.sid];
  }

  lemma VoteKeepsOut(s: Node, sid: nat, v: bool, d: Delayed)
    requires Timed(s) && d != Delayed(sid, Message(s.epoch, Bval(v))) && !Kept(s, d)
    ensures !Kept(s.(recvBval := s.recvBval.Add(v, sid)), d)
  {
  }

  lemma LeavingKeepsOut(s: Node, d: Delayed)
    requires Timed(s) && !Kept(s, d)
    ensures !Kept(Advance(s), d) && Timed(Advance(s))
  {
    var a := Advance(s);
    assert a.trail == s.trail + [Round(s.recvBval, s.binValues, s.recvAux)];
  }

  lemma {:induction false} MessageKeepsOut(c: Config, s: Node, sid: nat, m: Message, top: nat, d: Delayed)
    requires c.Sound() && Bounded(c, s, top) && m.epoch <= top && Timed(s)
    requires d.sid != c.id && d != Delayed(sid, m) && !Kept(s, d)
    ensures !Kept(HandleMessage(c, s, sid, m, top), d)
    decreases top + 1 - s.epoch, 4, 0
  {
    var h := s.(heard := s.heard + {Delayed(sid, m)});
    if !s.done && m.epoch == s.epoch {
      match m.body
      case Bval(v) => BvalKeepsOut(c, h, sid, v, top, d);
      case Aux(v) => OutputKeepsOut(c, h.(recvAux := h.recvAux[sid := v]), top, d);
      case Unknown =>
    }
  }

  lemma {:induction false} BvalKeepsOut(c: Config, s: Node, sid: nat, v: bool, top: nat, d: Delayed)
    requires c.Sound() && Bounded(c, s, top) && (s.epoch <= top || sid == c.id) && Timed(s)
    requires d.sid != c.id && d != Delayed(sid, Message(s.epoch, Bval(v))) && !Kept(s, d)
    ensures !Kept(HandleBval(c, s, sid, v, top), d)
    decreases top + 1 - s.epoch, 3, if v in s.sentBvals then 0 else 1
  {
    hide TryOutput, Kept;
    VoteKeepsOut(s, sid, v, d);
    var t := s.(recvBval := s.recvBval.Add(v, sid));
    var count := |t.recvBval.Of(v)|;
    if s.epoch == top + 1 {
      SubsetSize(t.recvBval.Of(v), {c.id});
    }
    if count == 2 * c.f + 1 {
      var a := t.(binValues := t.binValues + [v]);
      if t.binValues == [] {
        var y := Say(a, Aux(v));
        var z := y.(recvAux := y.recvAux[c.id := v]);
        SayingKeepsOut(c, t, z, d);
        OutputKeepsOut(c, z, top, d);
      } else {
        SayingKeepsOut(c, t, a, d);
        OutputKeepsOut(c, a, top, d);
      }
    } else if count == c.f + 1 && v !in t.sentBvals {
      var y := Say(t.(sentBvals := t.sentBvals + [v]), Bval(v));
      SayingKeepsOut(c, t, y, d);
      BvalKeepsOut(c, y, c.id, v, top, d);
    }
  }

  lemma {:induction false} OutputKeepsOut(c: Config, s: Node, top: nat, d: Delayed)
    requires c.Sound() && Bounded(c, s, top) && s.epoch <= top && Timed(s)
    requires d.sid != c.id && !Kept(s, d)
    ensures !Kept(TryOutput(c, s, top), d)
    decreases top + 1 - s.epoch, 1, 0
  {
    hide Kept;
    if Stays(c, s) {
      SayingKeepsOut(c, s, TryOutput(c, s, top), d);
    } else {
      LeavingKeepsOut(s, d);
      EnterKeepsOut(c, Advance(s), top, d);
    }
  }

  lemma {:induction false} EnterKeepsOut(c: Config, a: Node, top: nat, d: Delayed)
    requires c.Sound() && Bounded(c, a, top) && a.estimated.Some? && Timed(a)
    requires d.sid != c.id && !Kept(a, d)
    ensures !Kept(Enter(c, a, top), d)
    decreases top + 1 - a.epoch, 6, 0
  {
    hide HandleBval;
    BvalKeepsOut(c, a, c.id, a.estimated.value, top, d);
    BvalOnward(c, a, c.id, a.estimated.value, top);
    var b := HandleBval(c, a, c.id, a.estimated.value, top);
    ReplayKeepsOut(c, b, b.delayed, 0, top, d);
  }

  lemma {:induction false} ReplayKeepsOut(c: Config, s: Node, queue: seq<Delayed>, i: nat, top: nat, d: Delayed)
    requires c.Sound() && Bounded(c, s, top) && i <= |queue| && Timed(s)
    requires forall x :: x in queue ==> x.msg.epoch <= top
    requires d.sid != c.id && !Kept(s, d) && d !in queue
    ensures !Kept(Replay(c, s, queue, i, top), d)
    decreases top + 1 - s.epoch, 5, |queue| - i
  {
    if i < |queue| {
      MessageOnward(c, s, queue[i].sid, queue[i].msg, top);
      MessageKeepsOut(c, s, queue[i].sid, queue[i].msg, top, d);
      ReplayKeepsOut(c, HandleMessage(c, s, queue[i].sid, queue[i].msg, top), queue, i + 1, top, d);
    }
  }

  // ----- the entry points -----

  /** The messages of a list, handed in one after the other. */
  ghost function Feed(c: Config, s: Node, list: seq<Delayed>): Node
    requires c.Sound()
    decreases |list|
  {
    if list == [] then s else Feed(c, Handle(c, s, list[0].sid, list[0].msg), list[1..])
  }

  /** A call that stays in its epoch leaves the queue as it is, or adds the message to it. One that leaves its epoch
      empties the queue: the votes queued for the next epoch are counted up to where that epoch is left too, those for
      the one after it if the call ends there, and nothing is kept of any epoch past the one reached. */
  lemma HandleSettles(c: Config, s: Node, sid: nat, m: Message)
    requires c.Sound() && Timed(s)
    ensures var r := Handle(c, s, sid, m);
            && Settles(c, s, r)
            && (r.epoch == s.epoch && (s.done || m.epoch <= s.epoch) ==> r.delayed == s.delayed)
            && (r.epoch == s.epoch && !s.done && m.epoch > s.epoch ==> r.delayed == s.delayed + [Delayed(sid, m)])
            && (r.epoch > s.epoch ==> forall d: Delayed :: d.msg.epoch > r.epoch ==> !Kept(r, d))
  {
    MessageOnward(c, s, sid, m, Top(s, m.epoch));
    MessageSettles(c, s, sid, m, Top(s, m.epoch));
  }

  /** The same of an input, which may complete what the others' votes have begun. */
  lemma InputSettles(c: Config, s: Node, v: bool)
    requires c.Sound() && Timed(s)
    ensures var r := Input(c, s, v);
            Settles(c, s, r) && (r.epoch == s.epoch ==> r.delayed == s.delayed)
  {
    if AcceptsInput(s) {
      var t := Say(s.(estimated := Some(v), input := Some(v), sentBvals := s.sentBvals + [v]), Bval(v));
      BvalOnward(c, t, c.id, v, Top(s, 0));
      BvalSettles(c, t, c.id, v, Top(s, 0));
    }
  }

  /** What an instance neither counts nor queues, it counts later only if it is handed in once more. */
  lemma {:induction false} LostStaysLost(c: Config, s: Node, list: seq<Delayed>, d: Delayed)
    requires c.Sound() && Timed(s) && d.sid != c.id && !Kept(s, d) && d !in list
    ensures !Kept(Feed(c, s, list), d)
    decreases |list|
  {
    if list != [] {
      var m, t := list[0].msg, Handle(c, s, list[0].sid, list[0].msg);
      assert list == [list[0]] + list[1..];
      MessageOnward(c, s, list[0].sid, m, Top(s, m.epoch));
      MessageKeepsOut(c, s, list[0].sid, m, Top(s, m.epoch), d);
      LostStaysLost(c, t, list[1..], d);
    }
  }
}
