/** Runs of the common subset protocol over a network the faulty members control, and what all of them keep. */
module AcsSafety {
  import opened Options
  import opened Membership
  import opened Bytes
  import B = BbaSpec
  import BI = BbaInvariant
  import BS = BbaSafety
  import R = RbcSpec
  import RI = RbcInvariant
  import RS = RbcSafety
  import opened AcsSpec
  import opened AcsInvariant

  datatype World = World(k: Cluster, codec: R.Codec) {
    ghost predicate Sound() {
      k.Sound() && codec.Lawful(|k.all|)
    }

    function At(p: nat): Setup {
      Setup(k.At(p), k.all, codec)
    }

    function Of(j: nat): RS.Broadcast {
      RS.Broadcast(k, j, codec)
    }
  }

  /** The states of the correct members. */
  type Net = map<nat, Node>

  /** The net of one proposer's agreement, and of its broadcast. */
  function BbaNet(net: Net, j: nat): BS.Net {
    map p | p in net && j in net[p].bbas :: net[p].bbas[j]
  }

  function RbcNet(net: Net, j: nat): RS.Net {
    map p | p in net && j in net[p].rbcs :: net[p].rbcs[j]
  }

  // ----- runs -----

  /** A message on the network: a faulty member sends anything under its own id, a correct one what
      its children put on their way. Messages stay, so they arrive late, twice or never. */
  ghost predicate Sent(w: World, net: Net, from: nat, m: Message) {
    && from in w.k.all
    && (from in net ==> match m.payload
         case Agreement(b) => m.proposer in net[from].bbas && b in net[from].bbas[m.proposer].log
         case Broadcast(r) => m.proposer in net[from].rbcs && r in net[from].rbcs[m.proposer].log
         case Unknown => false)
  }

  datatype Event =
    | Propose(at: nat, data: Bytes, pick: R.Picker)
    | Deliver(at: nat, from: nat, msg: Message, pick: R.Picker)
    | TakeOutput(at: nat)

  ghost predicate Enabled(w: World, net: Net, e: Event) {
    && e.at in net
    && !Halted(net[e.at])
    && (e.Propose? ==> R.Picks(e.pick))
    && (e.Deliver? ==> R.Picks(e.pick) && e.from != e.at && Sent(w, net, e.from, e.msg))
  }

  ghost function After(w: World, net: Net, e: Event): Node
    requires w.Sound() && Enabled(w, net, e)
  {
    match e
    case Propose(p, data, pick) => InputValue(w.At(p), net[p], data, pick).node
    case Deliver(p, from, m, pick) => HandleMessage(w.At(p), net[p], from, m, pick).node
    case TakeOutput(p) => net[p].(output := None)
  }

  function Start(w: World): Net {
    map p | p in w.k.all - w.k.bad :: Fresh(w.k.all)
  }

  /** The nets of a run, one more than its events. */
  ghost predicate IsRun(w: World, nets: seq<Net>, events: seq<Event>) {
    && w.Sound()
    && |nets| == |events| + 1
    && nets[0] == Start(w)
    && forall i :: 0 <= i < |events| ==>
         Enabled(w, nets[i], events[i]) && nets[i + 1] == nets[i][events[i].at := After(w, nets[i], events[i])]
  }

  // ----- the invariant of a run -----

  ghost predicate Consistent(w: World, net: Net) {
    && w.Sound()
    && net.Keys == w.k.all - w.k.bad
    && (forall p :: p in net ==> Valid(w.At(p), net[p]))
    && (forall j :: j in w.k.all ==> BS.Consistent(w.k, BbaNet(net, j)) && RS.Consistent(w.Of(j), RbcNet(net, j)))
  }

  lemma MemberKeys(w: World, net: Net, p: nat)
    requires Consistent(w, net) && p in net
    ensures Valid(w.At(p), net[p]) && net[p].bbas.Keys == w.k.all && net[p].rbcs.Keys == w.k.all
  {
    hide Child, Agreed, BS.Consistent, RS.Consistent;
  }

  lemma NetShape(w: World, net: Net, j: nat)
    requires Consistent(w, net) && j in w.k.all
    ensures BbaNet(net, j).Keys == net.Keys && RbcNet(net, j).Keys == net.Keys
    ensures forall p :: p in net ==> j in net[p].bbas && j in net[p].rbcs
    ensures BS.Consistent(w.k, BbaNet(net, j)) && RS.Consistent(w.Of(j), RbcNet(net, j))
  {
    hide Valid, BS.Consistent, RS.Consistent;
    forall p | p in net ensures j in net[p].bbas && j in net[p].rbcs {
      MemberKeys(w, net, p);
    }
  }

  lemma FreshNets(w: World, j: nat)
    requires w.Sound() && j in w.k.all
    ensures BS.Consistent(w.k, BbaNet(Start(w), j)) && RS.Consistent(w.Of(j), RbcNet(Start(w), j))
  {
    hide BI.Valid, RI.Valid;
    var net := Start(w);
    var b, r := BbaNet(net, j), RbcNet(net, j);
    assert b.Keys == net.Keys && r.Keys == net.Keys;
    forall p | p in net ensures BI.Valid(w.k.At(p), b[p]) && RI.Valid(w.Of(j).At(p), r[p]) {
      BI.FreshIsValid(w.k.At(p));
      RI.FreshIsValid(w.Of(j).At(p));
    }
  }

  lemma StartIsConsistent(w: World)
    requires w.Sound()
    ensures Consistent(w, Start(w))
  {
    hide Valid, BS.Consistent, RS.Consistent;
    var net := Start(w);
    forall p | p in net ensures Valid(w.At(p), net[p]) {
      FreshIsValid(w.At(p));
    }
    forall j | j in w.k.all ensures BS.Consistent(w.k, BbaNet(net, j)) && RS.Consistent(w.Of(j), RbcNet(net, j)) {
      FreshNets(w, j);
    }
  }

  /** What one member's event does to its pair of children for one proposer. */
  lemma ChildMoves(c: Setup, s: Node, t: Node, bh: set<(nat, B.Delayed)>, rh: set<(nat, R.Received)>, j: nat)
    requires Valid(c, t) && Follows(s, t, bh, rh) && j in c.nodes
    ensures j in t.bbas && j in t.rbcs && j in s.bbas && j in s.rbcs
    ensures BI.Valid(c.cfg, t.bbas[j]) && BI.Grows(s.bbas[j], t.bbas[j])
    ensures forall d :: d in t.bbas[j].heard - s.bbas[j].heard ==> (j, d) in bh
    ensures RI.Valid(c.For(j), t.rbcs[j]) && RI.Grows(s.rbcs[j], t.rbcs[j])
    ensures forall d :: d in t.rbcs[j].heard - s.rbcs[j].heard ==> (j, d) in rh
  {
    hide BI.Valid, RI.Valid, BI.Grows, RI.Grows, Agreed;
    assert Child(c, t, j);
  }

  /** Only messages that can have been sent were handed to the children, and none of the member's own. */
  ghost predicate Genuine(w: World, net: Net, p: nat, bh: set<(nat, B.Delayed)>, rh: set<(nat, R.Received)>) {
    && (forall j, d :: (j, d) in bh && j in w.k.all ==> BS.Said(w.k, BbaNet(net, j), d.sid, d.msg) && d.sid != p)
    && (forall j, d :: (j, d) in rh && j in w.k.all ==> RS.Said(w.Of(j), RbcNet(net, j), d.sid, d.msg) && d.sid != p)
  }

  /** One member's event moves each of its children as their own nets allow. */
  lemma ChildrenMove(w: World, net: Net, p: nat, t: Node, bh: set<(nat, B.Delayed)>, rh: set<(nat, R.Received)>, j: nat)
    requires Consistent(w, net) && p in net && Valid(w.At(p), t) && Follows(net[p], t, bh, rh) && j in w.k.all
    requires Genuine(w, net, p, bh, rh)
    ensures BS.Consistent(w.k, BbaNet(net[p := t], j)) && RS.Consistent(w.Of(j), RbcNet(net[p := t], j))
  {
    hide Consistent, Valid, Follows, BI.Valid, RI.Valid, BS.Consistent, RS.Consistent;
    hide BI.Grows, RI.Grows, BS.Said, RS.Said;
    NetShape(w, net, j);
    ChildMoves(w.At(p), net[p], t, bh, rh, j);
    assert BbaNet(net[p := t], j) == BbaNet(net, j)[p := t.bbas[j]];
    assert RbcNet(net[p := t], j) == RbcNet(net, j)[p := t.rbcs[j]];
    assert BS.Moved(w.k, BbaNet(net, j), p, t.bbas[j]);
    assert RS.Moved(w.Of(j), RbcNet(net, j), p, t.rbcs[j]);
    BS.MoveKeeps(w.k, BbaNet(net, j), p, t.bbas[j]);
    RS.MoveKeeps(w.Of(j), RbcNet(net, j), p, t.rbcs[j]);
  }

  /** What an event hands to the children can have been sent by the members it came from. */
  lemma DeliveredWasSaid(w: World, net: Net, p: nat, from: nat, m: Message)
    requires Consistent(w, net) && p in net && from != p && Sent(w, net, from, m)
    ensures Genuine(w, net, p, if m.payload.Agreement? then HeardOf(m.proposer, Hand(from, m.payload.bba)) else {},
                               if m.payload.Broadcast? then HeardBy(m.proposer, from, m.payload.rbc) else {})
  {
    hide Consistent, Valid, BS.Consistent, RS.Consistent;
    if m.proposer in w.k.all {
      NetShape(w, net, m.proposer);
    }
  }

  /** Every event of a run keeps the net consistent. */
  lemma EventKeeps(w: World, net: Net, e: Event)
    requires Consistent(w, net) && Enabled(w, net, e)
    ensures Consistent(w, net[e.at := After(w, net, e)])
    ensures Progress(net[e.at], After(w, net, e))
  {
    hide Valid, Follows, Progress, BS.Consistent, RS.Consistent, HandleMessage, InputValue, Sent, Genuine;
    var p := e.at;
    var t := After(w, net, e);
    var bh: set<(nat, B.Delayed)>, rh: set<(nat, R.Received)> := {}, {};
    assert Genuine(w, net, p, {}, {}) by { NothingHanded(w, net, p); }
    match e {
      case Propose(_, data, pick) =>
        InputValueKeeps(w.At(p), net[p], data, pick);
      case Deliver(_, from, m, pick) =>
        HandleMessageKeeps(w.At(p), net[p], from, m, pick);
        DeliveredWasSaid(w, net, p, from, m);
        bh := if m.payload.Agreement? then HeardOf(m.proposer, Hand(from, m.payload.bba)) else {};
        rh := if m.payload.Broadcast? then HeardBy(m.proposer, from, m.payload.rbc) else {};
      case TakeOutput(_) =>
        OutputTakenKeeps(w.At(p), net[p]);
    }
    FollowsIsProgress(net[p], t, bh, rh);
    forall j | j in w.k.all
      ensures BS.Consistent(w.k, BbaNet(net[p := t], j)) && RS.Consistent(w.Of(j), RbcNet(net[p := t], j))
    {
      ChildrenMove(w, net, p, t, bh, rh, j);
    }
  }

  lemma NothingHanded(w: World, net: Net, p: nat)
    ensures Genuine(w, net, p, {}, {})
  {
  }

  /** A decided subset stays, and the children's histories grow. */
  ghost predicate Progress(s: Node, t: Node) {
    && (s.agreed.Some? ==> t.agreed == s.agreed)
    && t.bbas.Keys == s.bbas.Keys && t.rbcs.Keys == s.rbcs.Keys
    && (forall j :: j in s.bbas ==> BI.Grows(s.bbas[j], t.bbas[j]))
    && (forall j :: j in s.rbcs ==> RI.Grows(s.rbcs[j], t.rbcs[j]))
  }

  lemma FollowsIsProgress(s: Node, t: Node, bh: set<(nat, B.Delayed)>, rh: set<(nat, R.Received)>)
    requires Follows(s, t, bh, rh)
    ensures Progress(s, t)
  {
    hide BI.Grows, RI.Grows;
  }

  lemma {:induction false} RunIsConsistent(w: World, nets: seq<Net>, events: seq<Event>, i: nat)
    requires IsRun(w, nets, events) && i < |nets|
    ensures Consistent(w, nets[i])
  {
    hide Consistent;
    if i == 0 {
      StartIsConsistent(w);
    } else {
      RunIsConsistent(w, nets, events, i - 1);
      EventKeeps(w, nets[i - 1], events[i - 1]);
    }
  }

  // ----- agreement -----

  lemma SameResult(w: World, net: Net, p: nat, q: nat, j: nat)
    requires Consistent(w, net) && p in net && q in net
    requires j in net[p].bbaResults && j in net[q].bbaResults
    ensures net[p].bbaResults[j] == net[q].bbaResults[j]
  {
    hide Consistent, Valid, BS.Consistent, RS.Consistent;
    MemberKeys(w, net, p);
    MemberKeys(w, net, q);
    ResultDecided(w.At(p), net[p], j);
    ResultDecided(w.At(q), net[q], j);
    NetShape(w, net, j);
    BS.Agreement(w.k, BbaNet(net, j), p, q);
  }

  /** A stored result is what the agreement decided. */
  lemma ResultDecided(c: Setup, s: Node, j: nat)
    requires Valid(c, s) && j in s.bbaResults
    ensures j in c.nodes && j in s.bbas && s.bbas[j].decision == Some(s.bbaResults[j])
  {
    hide BI.Valid, RI.Valid, Agreed;
    assert Child(c, s, j);
  }

  lemma SameValue(w: World, net: Net, p: nat, q: nat, j: nat)
    requires Consistent(w, net) && p in net && q in net && j in w.k.all
    requires j in net[p].rbcs && net[p].rbcs[j].decoded.Some? && j in net[q].rbcs && net[q].rbcs[j].decoded.Some?
    ensures net[p].rbcs[j].decoded == net[q].rbcs[j].decoded
  {
    hide Consistent, Valid, BS.Consistent, RS.Consistent;
    NetShape(w, net, j);
    RS.Agreement(w.Of(j), RbcNet(net, j), p, q);
  }

  /** What a decided subset rests on. */
  lemma SubsetRests(c: Setup, s: Node)
    requires c.Sound() && Valid(c, s) && s.agreed.Some?
    ensures var m := s.agreed.value;
            && s.rbcs.Keys == c.nodes && s.bbaResults.Keys == c.nodes
            && m.Keys == Truthy(s.bbaResults) && |m| >= c.cfg.n - c.cfg.f
  {
    hide Child;
  }

  lemma EntryRests(c: Setup, s: Node, j: nat)
    requires c.Sound() && Valid(c, s) && s.agreed.Some? && j in s.agreed.value
    ensures j in c.nodes && j in s.rbcs && s.rbcs[j].decoded.Some?
    ensures s.agreed.value[j] == R.Value(c.For(j), s.rbcs[j].decoded.value.shards)
  {
    hide Child;
  }

  lemma SoundAt(w: World, net: Net, p: nat)
    requires Consistent(w, net) && p in net
    ensures w.Sound() && w.At(p).Sound()
  {
    hide Valid, BS.Consistent, RS.Consistent;
  }

  lemma SameResults(w: World, net: Net, p: nat, q: nat)
    requires Consistent(w, net) && p in net && q in net && net[p].agreed.Some? && net[q].agreed.Some?
    ensures net[p].bbaResults == net[q].bbaResults
  {
    hide Consistent, Valid, Truthy;
    SoundAt(w, net, p);
    SoundAt(w, net, q);
    MemberKeys(w, net, p);
    MemberKeys(w, net, q);
    SubsetRests(w.At(p), net[p]);
    SubsetRests(w.At(q), net[q]);
    forall j | j in w.k.all ensures net[p].bbaResults[j] == net[q].bbaResults[j] {
      SameResult(w, net, p, q, j);
    }
  }

  lemma SameEntry(w: World, net: Net, p: nat, q: nat, j: nat)
    requires Consistent(w, net) && p in net && q in net && net[p].agreed.Some? && net[q].agreed.Some?
    requires j in net[p].agreed.value && j in net[q].agreed.value
    ensures net[p].agreed.value[j] == net[q].agreed.value[j]
  {
    hide Consistent, Valid, R.Value;
    SoundAt(w, net, p);
    SoundAt(w, net, q);
    MemberKeys(w, net, p);
    MemberKeys(w, net, q);
    EntryRests(w.At(p), net[p], j);
    EntryRests(w.At(q), net[q], j);
    SameValue(w, net, p, q, j);
    SameReading(w, p, q, j, net[p].rbcs[j].decoded.value.shards);
  }

  /** Members read the same value off the same shards. */
  lemma SameReading(w: World, p: nat, q: nat, j: nat, shards: seq<Bytes>)
    ensures R.Value(w.At(p).For(j), shards) == R.Value(w.At(q).For(j), shards)
  {
  }

  /** Two correct members with a decided subset hold the same one, with n - f entries at least. */
  lemma SubsetAgreement(w: World, net: Net, p: nat, q: nat)
    requires Consistent(w, net) && p in net && q in net && net[p].agreed.Some? && net[q].agreed.Some?
    ensures net[p].agreed == net[q].agreed
    ensures |net[p].agreed.value| >= |w.k.all| - w.k.f
  {
    hide Consistent, Valid, Truthy;
    SoundAt(w, net, p);
    SoundAt(w, net, q);
    MemberKeys(w, net, p);
    MemberKeys(w, net, q);
    SubsetRests(w.At(p), net[p]);
    SubsetRests(w.At(q), net[q]);
    SameResults(w, net, p, q);
    forall j | j in net[p].agreed.value ensures net[p].agreed.value[j] == net[q].agreed.value[j] {
      SameEntry(w, net, p, q, j);
    }
    assert net[p].agreed.value == net[q].agreed.value;
  }
}
