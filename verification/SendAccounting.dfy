/** The accounts a trace recorder keeps of the messages sent, and what a published trace is checked for. */
module SendAccounting {
  import opened Options

  datatype Subtype = Proof | Echo | Ready | Bval | Aux

  const SUBTYPES: set<Subtype> := {Proof, Echo, Ready, Bval, Aux}

  datatype Phase = Phase(count: nat, totalUS: int, maxUS: int)

  datatype Phases = Phases(encode: Phase, queueWait: Phase, streamOpen: Phase, write: Phase, finalize: Phase)

  datatype Entry = Entry(
    scheduled: nat,
    terminal: nat,
    pendingAtDecision: int,
    outbound: nat,
    outboundBytes: nat,
    sends: nat,
    totalUS: int,
    maxUS: int,
    failures: nat,
    phases: Phases,
    opens: nat,
    reused: nat)

  datatype Observation = Observation(
    failed: bool, size: int, total: int, encode: int, queueWait: int, streamOpen: int, write: int, finalize: int,
    reused: bool)

  datatype Recorder = Recorder(enabled: bool, closed: bool, finalized: bool, entries: map<Subtype, Entry>)

  const NoPhase := Phase(0, 0, 0)

  const NoEntry := Entry(0, 0, 0, 0, 0, 0, 0, 0, 0, Phases(NoPhase, NoPhase, NoPhase, NoPhase, NoPhase), 0, 0)

  function Fresh(enabled: bool): Recorder {
    Recorder(enabled, false, false, map t | t in SUBTYPES :: NoEntry)
  }

  // ----- one completed send -----

  function AtLeastZero(x: int): int {
    if x < 0 then 0 else x
  }

  function Larger(x: int, y: int): int {
    if y > x then y else x
  }

  function RecordPhase(p: Phase, duration: int): Phase {
    Phase(p.count + 1, p.totalUS + AtLeastZero(duration), Larger(p.maxUS, AtLeastZero(duration)))
  }

  function RecordCompleted(e: Entry, o: Observation): Entry {
    if o.failed then e.(failures := e.failures + 1)
    else
      e.(outbound := e.outbound + 1,
         outboundBytes := e.outboundBytes + AtLeastZero(o.size),
         sends := e.sends + 1,
         totalUS := e.totalUS + AtLeastZero(o.total),
         maxUS := Larger(e.maxUS, AtLeastZero(o.total)),
         phases := Phases(RecordPhase(e.phases.encode, o.encode), RecordPhase(e.phases.queueWait, o.queueWait),
                          RecordPhase(e.phases.streamOpen, o.streamOpen), RecordPhase(e.phases.write, o.write),
                          RecordPhase(e.phases.finalize, o.finalize)),
         reused := e.reused + (if o.reused then 1 else 0),
         opens := e.opens + (if o.reused then 0 else 1))
  }

  // ----- the recorder -----

  predicate AllTerminal(r: Recorder) {
    forall t :: t in SUBTYPES ==> t in r.entries && r.entries[t].terminal == r.entries[t].scheduled
  }

  /** Whether a send of this subtype is accounted for from now on; it is not once the accounts are closed. */
  predicate Admits(r: Recorder, t: Subtype) {
    r.enabled && !r.closed && t in r.entries
  }

  function Begin(r: Recorder, t: Subtype): Recorder {
    if Admits(r, t) then r.(entries := r.entries[t := r.entries[t].(scheduled := r.entries[t].scheduled + 1)]) else r
  }

  function Complete(r: Recorder, t: Subtype, o: Observation): Recorder {
    if t !in r.entries || r.entries[t].terminal >= r.entries[t].scheduled then r
    else
      var e := RecordCompleted(r.entries[t].(terminal := r.entries[t].terminal + 1), o);
      var s := r.(entries := r.entries[t := e]);
      if s.closed && AllTerminal(s) then s.(finalized := true) else s
  }

  function Seal(r: Recorder): Recorder {
    if !r.enabled || r.closed then r
    else
      var s := r.(entries := map t | t in r.entries ::
                    r.entries[t].(pendingAtDecision := r.entries[t].scheduled - r.entries[t].terminal));
      s.(closed := true, finalized := AllTerminal(s))
  }

  // ----- the checks of a published trace -----

  predicate PhaseFits(p: Phase, sends: nat) {
    p.count == sends && p.totalUS >= 0 && p.maxUS >= 0 && p.maxUS <= p.totalUS
  }

  predicate MessagePhasesFit(e: Entry) {
    && PhaseFits(e.phases.encode, e.sends) && PhaseFits(e.phases.queueWait, e.sends)
    && PhaseFits(e.phases.streamOpen, e.sends) && PhaseFits(e.phases.write, e.sends)
    && PhaseFits(e.phases.finalize, e.sends)
    && e.opens <= e.sends && e.reused == e.sends - e.opens
  }

  predicate LifecycleFits(e: Entry) {
    && e.scheduled == e.terminal
    && e.outbound <= e.terminal && e.failures == e.terminal - e.outbound
    && e.sends == e.outbound && e.pendingAtDecision <= e.scheduled
  }

  // ----- runs -----

  /** A token stands for one scheduled send; completing it again does nothing. */
  datatype Token = Token(subtype: Subtype, fired: bool)

  datatype Books = Books(recorder: Recorder, tokens: seq<Token>)

  datatype Step = Schedule(subtype: Subtype) | Report(token: nat, observation: Observation) | CloseBooks

  function After(b: Books, e: Step): Books {
    match e
    case Schedule(t) =>
      Books(Begin(b.recorder, t), b.tokens + if Admits(b.recorder, t) then [Token(t, false)] else [])
    case Report(i, o) =>
      if i >= |b.tokens| || b.tokens[i].fired then b
      else Books(Complete(b.recorder, b.tokens[i].subtype, o), b.tokens[i := b.tokens[i].(fired := true)])
    case CloseBooks => b.(recorder := Seal(b.recorder))
  }

  function RunOf(steps: seq<Step>, enabled: bool): Books {
    if steps == [] then Books(Fresh(enabled), []) else After(RunOf(steps[..|steps| - 1], enabled), steps[|steps| - 1])
  }

  /** The sends of a subtype still under way. */
  function Outstanding(tokens: seq<Token>, t: Subtype): nat {
    if tokens == [] then 0
    else
      var last := tokens[|tokens| - 1];
      Outstanding(tokens[..|tokens| - 1], t) + if last.subtype == t && !last.fired then 1 else 0
  }

  ghost predicate EntryInv(e: Entry) {
    && e.terminal <= e.scheduled
    && e.terminal == e.outbound + e.failures
    && e.sends == e.outbound
    && e.pendingAtDecision <= e.scheduled
    && e.totalUS >= e.maxUS >= 0
    && MessagePhasesFit(e)
  }

  ghost predicate Inv(b: Books) {
    && b.recorder.entries.Keys == SUBTYPES
    && (forall t :: t in SUBTYPES ==> EntryInv(b.recorder.entries[t]))
    && (forall t :: t in SUBTYPES ==>
          b.recorder.entries[t].scheduled == b.recorder.entries[t].terminal + Outstanding(b.tokens, t))
    && (b.recorder.finalized <==> b.recorder.closed && AllTerminal(b.recorder))
  }

  lemma {:induction false} OutstandingAdds(tokens: seq<Token>, k: Token, t: Subtype)
    ensures Outstanding(tokens + [k], t) == Outstanding(tokens, t) + if k.subtype == t && !k.fired then 1 else 0
  {
    assert (tokens + [k])[..|tokens|] == tokens;
  }

  lemma {:induction false} OutstandingFires(tokens: seq<Token>, i: nat, t: Subtype)
    requires i < |tokens| && !tokens[i].fired
    ensures Outstanding(tokens, t) == Outstanding(tokens[i := tokens[i].(fired := true)], t)
              + if tokens[i].subtype == t then 1 else 0
  {
    var n := |tokens| - 1;
    var after := tokens[i := tokens[i].(fired := true)];
    assert tokens[..n] + [tokens[n]] == tokens && after[..n] + [after[n]] == after;
    OutstandingAdds(tokens[..n], tokens[n], t);
    OutstandingAdds(after[..n], after[n], t);
    if i < n {
      OutstandingFires(tokens[..n], i, t);
      assert after[..n] == tokens[..n][i := tokens[..n][i].(fired := true)];
      assert after[n] == tokens[n];
    } else {
      assert after[..n] == tokens[..n];
    }
  }

  lemma AllSubtypes(t: Subtype)
    ensures t in SUBTYPES
  {
  }

  /** The accounts with these entries agree with the tokens. */
  ghost predicate Accounts(entries: map<Subtype, Entry>, tokens: seq<Token>) {
    && entries.Keys == SUBTYPES
    && forall t :: t in SUBTYPES ==>
         EntryInv(entries[t]) && entries[t].scheduled == entries[t].terminal + Outstanding(tokens, t)
  }

  lemma ScheduledAccounts(entries: map<Subtype, Entry>, tokens: seq<Token>, t: Subtype)
    requires Accounts(entries, tokens)
    ensures t in entries
    ensures Accounts(entries[t := entries[t].(scheduled := entries[t].scheduled + 1)], tokens + [Token(t, false)])
  {
    hide EntryInv;
    AllSubtypes(t);
    ScheduledFits(entries[t]);
    var more := entries[t := entries[t].(scheduled := entries[t].scheduled + 1)];
    assert more.Keys == SUBTYPES;
    forall u | u in SUBTYPES
      ensures EntryInv(more[u]) && more[u].scheduled == more[u].terminal + Outstanding(tokens + [Token(t, false)], u)
    {
      OutstandingAdds(tokens, Token(t, false), u);
    }
  }

  lemma ScheduleKeeps(b: Books, t: Subtype)
    requires Inv(b)
    ensures Inv(After(b, Schedule(t)))
  {
    hide EntryInv, Outstanding, AllTerminal;
    if Admits(b.recorder, t) {
      assert Accounts(b.recorder.entries, b.tokens);
      ScheduledAccounts(b.recorder.entries, b.tokens, t);
    } else {
      assert b.tokens + [] == b.tokens;
    }
  }

  lemma ScheduledFits(e: Entry)
    requires EntryInv(e)
    ensures EntryInv(e.(scheduled := e.scheduled + 1)) && e.terminal <= e.scheduled
  {
  }

  lemma CompletedFits(e: Entry, o: Observation)
    requires EntryInv(e) && e.terminal < e.scheduled
    ensures EntryInv(RecordCompleted(e.(terminal := e.terminal + 1), o))
  {
  }

  lemma CompleteShape(r: Recorder, t: Subtype, o: Observation)
    requires t in r.entries && r.entries[t].terminal < r.entries[t].scheduled && !r.finalized
    ensures var s := Complete(r, t, o);
            && s.closed == r.closed && s.finalized == (s.closed && AllTerminal(s))
            && s.entries == r.entries[t := RecordCompleted(r.entries[t].(terminal := r.entries[t].terminal + 1), o)]
  {
    hide RecordCompleted;
  }

  lemma ReportKeeps(b: Books, i: nat, o: Observation)
    requires Inv(b) && i < |b.tokens| && !b.tokens[i].fired
    ensures Inv(After(b, Report(i, o)))
    ensures var t := b.tokens[i].subtype;
            t in b.recorder.entries && b.recorder.entries[t].terminal < b.recorder.entries[t].scheduled
  {
    hide EntryInv, RecordCompleted, Outstanding, Complete;
    var t := b.tokens[i].subtype;
    AllSubtypes(t);
    OutstandingFires(b.tokens, i, t);
    CompleteShape(b.recorder, t, o);
    CompletedFits(b.recorder.entries[t], o);
    var after := After(b, Report(i, o));
    forall u | u in SUBTYPES
      ensures EntryInv(after.recorder.entries[u])
      ensures after.recorder.entries[u].scheduled == after.recorder.entries[u].terminal + Outstanding(after.tokens, u)
    {
      OutstandingFires(b.tokens, i, u);
      TerminalAfter(b.recorder.entries[t], o);
    }
  }

  lemma TerminalAfter(e: Entry, o: Observation)
    ensures var f := RecordCompleted(e.(terminal := e.terminal + 1), o);
            f.terminal == e.terminal + 1 && f.scheduled == e.scheduled
  {
  }

  lemma CloseKeeps(b: Books)
    requires Inv(b)
    ensures Inv(After(b, CloseBooks))
  {
    hide EntryInv, Outstanding;
    if b.recorder.enabled && !b.recorder.closed {
      var s := Seal(b.recorder);
      assert s.entries.Keys == SUBTYPES;
      forall t | t in SUBTYPES
        ensures EntryInv(s.entries[t])
        ensures s.entries[t].scheduled == s.entries[t].terminal + Outstanding(b.tokens, t)
      {
        SealedFits(b.recorder.entries[t]);
      }
    }
  }

  lemma SealedFits(e: Entry)
    requires EntryInv(e)
    ensures EntryInv(e.(pendingAtDecision := e.scheduled - e.terminal))
  {
  }

  lemma {:induction false} RunKeeps(steps: seq<Step>, enabled: bool)
    ensures Inv(RunOf(steps, enabled))
  {
    hide After, EntryInv, AllTerminal;
    if steps == [] {
      FreshKeeps(enabled);
    } else {
      var n := |steps| - 1;
      RunKeeps(steps[..n], enabled);
      var b := RunOf(steps[..n], enabled);
      match steps[n] {
        case Schedule(t) => ScheduleKeeps(b, t);
        case Report(i, o) =>
          if i < |b.tokens| && !b.tokens[i].fired { ReportKeeps(b, i, o); } else { RepeatDoesNothing(b, i, o); }
        case CloseBooks => CloseKeeps(b);
      }
    }
  }

  lemma FreshKeeps(enabled: bool)
    ensures Inv(Books(Fresh(enabled), []))
  {
    hide EntryInv;
    assert EntryInv(NoEntry) by { NoEntryFits(); }
    var entries := Fresh(enabled).entries;
    assert entries.Keys == SUBTYPES && forall t :: t in SUBTYPES ==> entries[t] == NoEntry;
  }

  lemma NoEntryFits()
    ensures EntryInv(NoEntry)
  {
  }

  /** Completing a token again changes nothing. */
  lemma RepeatDoesNothing(b: Books, i: nat, o: Observation)
    requires i >= |b.tokens| || b.tokens[i].fired
    ensures After(b, Report(i, o)) == b
  {
  }

  // ----- what every run guarantees -----

  /** Under any interleaving of begins, completions, repeated ones too, and seals, each subtype's terminal
      sends are its successes and failures, what is scheduled is that and what is under way, and the accounts
      are final exactly when they are closed with nothing under way. */
  lemma {:induction false} RunBalances(steps: seq<Step>, enabled: bool, t: Subtype)
    ensures var b := RunOf(steps, enabled);
            && t in b.recorder.entries
            && var e := b.recorder.entries[t];
               && e.terminal == e.outbound + e.failures
               && e.scheduled == e.terminal + Outstanding(b.tokens, t)
    ensures var b := RunOf(steps, enabled);
            b.recorder.finalized <==> b.recorder.closed && forall u :: u in SUBTYPES ==> Outstanding(b.tokens, u) == 0
  {
    hide MessagePhasesFit, RunOf, After;
    RunKeeps(steps, enabled);
    AllSubtypes(t);
  }

  /** Final accounts pass both checks of a published trace, and stay final and as they are. */
  lemma {:induction false} FinalIsPublishable(steps: seq<Step>, enabled: bool, t: Subtype)
    requires RunOf(steps, enabled).recorder.finalized
    ensures t in RunOf(steps, enabled).recorder.entries
    ensures MessagePhasesFit(RunOf(steps, enabled).recorder.entries[t])
    ensures LifecycleFits(RunOf(steps, enabled).recorder.entries[t])
    ensures var e := RunOf(steps, enabled).recorder.entries[t]; e.totalUS >= 0 && e.maxUS >= 0
  {
    hide MessagePhasesFit, RunOf;
    RunKeeps(steps, enabled);
    AllSubtypes(t);
  }

  lemma {:induction false} FinalStays(steps: seq<Step>, enabled: bool, more: seq<Step>)
    requires RunOf(steps, enabled).recorder.finalized
    ensures RunOf(steps + more, enabled).recorder == RunOf(steps, enabled).recorder
    decreases |more|
  {
    hide EntryInv;
    if more == [] {
      assert steps + more == steps;
    } else {
      var n := |more| - 1;
      FinalStays(steps, enabled, more[..n]);
      assert (steps + more)[..|steps + more| - 1] == steps + more[..n];
      var b := RunOf(steps + more[..n], enabled);
      RunKeeps(steps + more[..n], enabled);
      FinalIsInert(b, more[n]);
    }
  }

  lemma FinalIsInert(b: Books, e: Step)
    requires Inv(b) && b.recorder.finalized
    ensures After(b, e).recorder == b.recorder
  {
    hide EntryInv;
    if e.Report? && e.token < |b.tokens| {
      AllSubtypes(b.tokens[e.token].subtype);
    }
  }

  // ----- the recorder object -----

  class SendToken {
    const subtype: Subtype
    var fired: bool

    constructor (subtype: Subtype)
      ensures this.subtype == subtype && !fired
    {
      this.subtype, fired := subtype, false;
    }
  }

  class TraceRecorder {
    const enabled: bool
    var closed: bool
    var finalized: bool
    var entries: map<Subtype, Entry>

    function State(): Recorder
      reads this
    {
      Recorder(enabled, closed, finalized, entries)
    }

    constructor (enabled: bool)
      ensures State() == Fresh(enabled)
    {
      this.enabled, closed, finalized := enabled, false, false;
      entries := map t | t in SUBTYPES :: NoEntry;
    }

    /** Schedules a send; the token completes it. */
    method BeginMessageOutbound(t: Subtype) returns (token: SendToken?)
      modifies this`entries
      ensures State() == Begin(old(State()), t)
      ensures token != null <==> Admits(old(State()), t)
      ensures token != null ==> fresh(token) && token.subtype == t && !token.fired
    {
      token := null;
      if !enabled {
        return;
      }
      if closed {
        return;
      }
      if t !in entries {
        return;
      }
      var entry := entries[t];
      entries := entries[t := entry.(scheduled := entry.scheduled + 1)];
      token := new SendToken(t);
    }

    /** Completes a token once; nothing happens without one, or if it was completed before. */
    method CompleteToken(token: SendToken?, o: Observation)
      modifies this, token
      ensures token == null ==> State() == old(State())
      ensures token != null ==>
        && token.fired
        && State() == if old(token.fired) then old(State()) else Complete(old(State()), token.subtype, o)
    {
      if token == null {
        return;
      }
      if token.fired {
        return;
      }
      token.fired := true;
      CompleteMessageOutbound(token.subtype, o);
    }

    method CompleteMessageOutbound(t: Subtype, o: Observation)
      modifies this
      ensures State() == Complete(old(State()), t, o)
    {
      if t !in entries || entries[t].terminal >= entries[t].scheduled {
        return;
      }
      var entry := entries[t];
      entry := entry.(terminal := entry.terminal + 1);
      entries := entries[t := RecordCompleted(entry, o)];
      if closed {
        var all := AllMessagesTerminal();
        if all {
          finalized := true;
        }
      }
    }

    method SealMessageOutbound()
      modifies this
      ensures State() == Seal(old(State()))
    {
      if !enabled {
        return;
      }
      if closed {
        return;
      }
      var before := entries;
      var todo := entries.Keys;
      while todo != {}
        invariant todo <= before.Keys && entries.Keys == before.Keys && !closed && finalized == old(finalized)
        invariant forall t :: t in before && t in todo ==> entries[t] == before[t]
        invariant forall t :: t in before && t !in todo ==>
          entries[t] == before[t].(pendingAtDecision := before[t].scheduled - before[t].terminal)
        decreases todo
      {
        var t :| t in todo;
        entries := entries[t := entries[t].(pendingAtDecision := entries[t].scheduled - entries[t].terminal)];
        todo := todo - {t};
      }
      assert entries == Seal(old(State())).entries;
      closed := true;
      finalized := AllMessagesTerminal();
    }

    method AllMessagesTerminal() returns (all: bool)
      ensures all <==> AllTerminal(State())
    {
      var todo := SUBTYPES;
      while todo != {}
        invariant forall t :: t in SUBTYPES && t !in todo ==>
                    t in entries && entries[t].terminal == entries[t].scheduled
        invariant todo <= SUBTYPES
        decreases todo
      {
        var t :| t in todo;
        if t !in entries || entries[t].terminal != entries[t].scheduled {
          return false;
        }
        todo := todo - {t};
      }
      all := true;
    }
  }
}
