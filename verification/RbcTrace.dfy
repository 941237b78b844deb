/** The check a published trace makes of the READY trigger an instance recorded. */
module RbcTrace {
  import opened Options
  import opened Membership
  import opened RbcSpec
  import opened RbcInvariant

  predicate AcceptsTrigger(t: Option<ReadyRecord>, members: nat)
    requires members > 0
  {
    match t
    case None => true
    case Some(r) =>
      var faults := (members - 1) / 3;
      && r.echoes <= members && r.readys <= members
      && match r.trigger
         case EchoQuorum => r.echoes == members - faults && r.readys < faults + 1
         case Relay => r.readys == faults + 1 && r.echoes < members - faults
  }

  /** A recorded trigger passes exactly when the instance runs with the largest fault bound for its size. */
  lemma RecordedTriggerAccepted(i: Instance, s: Node)
    requires i.Sound() && Valid(i, s) && s.trigger.Some?
    ensures AcceptsTrigger(s.trigger, i.cfg.n) <==> i.cfg.f == (i.cfg.n - 1) / 3
  {
    assert TriggerExact(i.cfg, s.trigger.value);
  }
}
