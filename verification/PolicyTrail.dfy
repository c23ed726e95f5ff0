/** The SLA policy table is what its audit trail says it is. */
module PolicyTrail {
  import opened Kernel
  import opened TicketDomain
  import opened SlaPolicy
  import opened Tables
  import opened TicketTransactions
  import opened SlaTransactions
  import opened Changes

  function IsPolicyOf(tenantId: Id, priority: Priority): AuditEntry -> bool {
    (entry: AuditEntry) => entry.entity == SlaPolicyEntity(tenantId) && entry.metadata.MetaPolicy? && entry.metadata.priority == priority
  }

  ghost function TrailOf(audit: seq<AuditEntry>, tenantId: Id, priority: Priority): seq<AuditEntry> {
    Filter(IsPolicyOf(tenantId, priority), audit)
  }

  /** The override a trail leaves behind: a reset leaves none, anything else what it set. */
  ghost function ReplayTrail(trail: seq<AuditEntry>): Option<SlaTarget> {
    if trail == [] then None
    else
      var last := trail[|trail| - 1].metadata;
      if last.MetaPolicy? && !last.reset then Some(last.after) else None
  }

  function InForce(left: Option<SlaTarget>, priority: Priority): EffectiveTarget {
    match left
    case Some(target) => EffectiveTarget(priority, target, Organization)
    case None => EffectiveTarget(priority, DEFAULT_SLA_POLICY.At(priority), Source.Default)
  }

  /** An entry that starts from what was left before it. What it sets is a valid target; a reset always
      undoes something and goes back to the default. */
  predicate Continues(left: Option<SlaTarget>, entry: AuditEntry, priority: Priority) {
    && entry.metadata.MetaPolicy?
    && entry.metadata.before == InForce(left, priority)
    && (if entry.metadata.reset then left.Some? && entry.metadata.after == DEFAULT_SLA_POLICY.At(priority) else ValidTarget(entry.metadata.after))
  }

  ghost predicate Chained(trail: seq<AuditEntry>, priority: Priority) {
    |trail| > 0 ==>
      var init := trail[..|trail| - 1];
      && Chained(init, priority)
      && Continues(ReplayTrail(init), trail[|trail| - 1], priority)
  }

  /** Read entry by entry: each `before` has the minutes of the previous `after`, the first those of the
      default. */
  lemma {:induction false} ChainedNeighbours(trail: seq<AuditEntry>, priority: Priority, i: nat)
    requires Chained(trail, priority) && i < |trail|
    ensures trail[i].metadata.MetaPolicy? && (i > 0 ==> trail[i - 1].metadata.MetaPolicy?)
    ensures trail[i].metadata.before.target == if i == 0 then DEFAULT_SLA_POLICY.At(priority) else trail[i - 1].metadata.after
  {
    var init := trail[..|trail| - 1];
    if i < |init| {
      ChainedNeighbours(init, priority, i);
    } else if i > 0 {
      ChainedNeighbours(init, priority, i - 1);
      assert Continues(ReplayTrail(init[..i - 1]), init[i - 1], priority);
    }
  }

  function StoredOverride(policies: map<(Id, Priority), SlaTarget>, tenantId: Id, priority: Priority): Option<SlaTarget> {
    if (tenantId, priority) in policies then Some(policies[(tenantId, priority)]) else None
  }

  ghost predicate Trail(policies: map<(Id, Priority), SlaTarget>, audit: seq<AuditEntry>, tenantId: Id, priority: Priority) {
    var trail := TrailOf(audit, tenantId, priority);
    && Chained(trail, priority)
    && ReplayTrail(trail) == StoredOverride(policies, tenantId, priority)
  }

  ghost predicate Trails(policies: map<(Id, Priority), SlaTarget>, audit: seq<AuditEntry>) {
    forall tenantId: Id, priority: Priority :: Trail(policies, audit, tenantId, priority)
  }

  lemma OverrideIsStored(policies: map<(Id, Priority), SlaTarget>, tenantId: Id, priority: Priority)
    ensures EffectiveAt(OverridesOf(policies, tenantId), priority) == InForce(StoredOverride(policies, tenantId, priority), priority)
  {
    assert TICKET_PRIORITIES[IndexOf(priority)] == priority;
  }

  /** One more entry: it continues this trail from what is stored to what is stored next, or it belongs
      to another and nothing stored here changes. */
  lemma TrailContinues(policies: map<(Id, Priority), SlaTarget>, audit: seq<AuditEntry>, after: map<(Id, Priority), SlaTarget>,
                       entry: AuditEntry, tenantId: Id, priority: Priority)
    requires Trail(policies, audit, tenantId, priority)
    requires if IsPolicyOf(tenantId, priority)(entry)
             then Continues(StoredOverride(policies, tenantId, priority), entry, priority) && StoredOverride(after, tenantId, priority) == ReplayTrail([entry])
             else StoredOverride(after, tenantId, priority) == StoredOverride(policies, tenantId, priority)
    ensures Trail(after, audit + [entry], tenantId, priority)
  {
  }

  lemma TrailStep(t: Tables, ch: Change)
    requires Trails(t.policies, t.audit) && Sound(t, ch)
    ensures Trails(Applied(t, ch).policies, Applied(t, ch).audit)
  {
    var after := Applied(t, ch);
    if after.audit == t.audit {
      assert after.policies == t.policies;
    } else {
      assert after.audit == t.audit + [ch.entry];
      forall tenantId: Id, priority: Priority ensures Trail(after.policies, after.audit, tenantId, priority) {
        assert Trail(t.policies, t.audit, tenantId, priority);
        OverrideIsStored(t.policies, tenantId, priority);
        TrailContinues(t.policies, t.audit, after.policies, ch.entry, tenantId, priority);
      }
    }
  }

  /** Every stored override was let in by `MakeSlaTarget`. */
  lemma StoredIsValid(policies: map<(Id, Priority), SlaTarget>, audit: seq<AuditEntry>, tenantId: Id, priority: Priority)
    requires Trails(policies, audit)
    ensures (tenantId, priority) in policies ==> ValidTarget(policies[(tenantId, priority)])
    ensures ValidTarget(ResolvePolicy(OverridesOf(policies, tenantId)).At(priority))
  {
    assert Trail(policies, audit, tenantId, priority);
    assert TICKET_PRIORITIES[IndexOf(priority)] == priority;
  }

  /** The list a successful update answers with is the list the next read gives. */
  lemma UpdateAnswersTheNextRead(t: Tables, input: UpdatePolicyInput, now: Time)
    ensures var r := UpdatePolicyTx(t, input, now);
            r.Ok? ==> r.value.1 == EffectivePolicy(OverridesOf(r.value.0.policies, input.tenantId))
  {
  }

  /** A reset leaves one priority at its default, whatever was there, and doing it again does nothing. */
  lemma ResetIsIdempotent(t: Tables, input: ResetPolicyInput, now: Time, later: Time)
    ensures var once := ResetPolicyTx(t, input, now).value;
            && FindTarget(once.1, input.priority) == Some(InForce(None, input.priority))
            && ResetPolicyTx(once.0, input, later) == Ok(once)
  {
    var once := ResetPolicyTx(t, input, now).value;
    PoliciesAgree(OverridesOf(once.0.policies, input.tenantId), input.priority);
  }
}
