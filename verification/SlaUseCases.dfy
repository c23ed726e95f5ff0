/** The SLA use cases, statement by statement, against what `SlaTransactions` says they commit. */
module SlaUseCases {
  import opened Kernel
  import opened TicketDomain
  import opened SlaPolicy
  import opened Tables
  import opened Persistence
  import opened TicketAggregate
  import opened TicketTransactions
  import opened SlaTransactions
  import opened TicketUseCases
  import opened SlaRequests
  import opened SlaTimer

  // ----------------------------------------------------------------- start

  /** Saving the response clock leaves the resolution slot as free as it was. */
  lemma SecondKindIsAsFree(timers: map<Id, TimerRow>, input: StartSlaInput, target: SlaTarget, responseId: Id, resolutionId: Id)
    requires responseId !in timers
    ensures KindTaken(SavedKinds(timers, input, target, responseId, resolutionId, 1), input.ticketId, Resolution)
            <==> KindTaken(timers, input.ticketId, Resolution)
  {
    var one := SavedKinds(timers, input, target, responseId, resolutionId, 1);
    if id :| id in timers && timers[id].ticketId == input.ticketId && timers[id].kind == Resolution {
      assert id in one && one[id] == timers[id];
    }
  }

  /** One clock per kind, each saved in turn. */
  method SaveClocks(db: Database, input: StartSlaInput, target: SlaTarget, responseId: Id, resolutionId: Id) returns (o: Done)
    requires db.active.Some? && responseId !in db.active.value.timers && resolutionId !in db.active.value.timers && responseId != resolutionId
    modifies db`active, db`faultIn
    ensures var before := old(db.active.value);
            db.Ran(o, CanStart(before, input.ticketId), before.(timers := SavedKinds(before.timers, input, target, responseId, resolutionId, 2)))
  {
    ghost var before := db.active.value;
    SecondKindIsAsFree(before.timers, input, target, responseId, resolutionId);
    var i := 0;
    while i < |SLA_KINDS|
      invariant 0 <= i <= 2
      invariant db.active.Some? && db.Flaky() == old(db.Flaky())
      invariant i >= 1 ==> input.ticketId in before.tickets && !KindTaken(before.timers, input.ticketId, Response)
      invariant i >= 2 ==> !KindTaken(before.timers, input.ticketId, Resolution)
      invariant db.active.value == before.(timers := SavedKinds(before.timers, input, target, responseId, resolutionId, i))
    {
      var kind := SLA_KINDS[i];
      var id := if kind == Response then responseId else resolutionId;
      var timer := new Timer.Start(id, input.tenantId, input.ticketId, kind, MinutesFor(target, kind), input.occurredAt);
      o := db.SaveTimer(timer.id, timer.props);
      if o.Broke? { return; }
      i := i + 1;
    }
    return Done;
  }

  method StartSlaTimersBody(db: Database, input: StartSlaInput, responseId: Id, resolutionId: Id) returns (r: Attempt<StartSlaOutcome>)
    requires db.active.Some? && responseId !in db.active.value.timers && resolutionId !in db.active.value.timers && responseId != resolutionId
    modifies db`active, db`faultIn
    ensures db.active.Some? && db.Flaky() == old(db.Flaky())
    ensures Worked(StartSlaTx(old(db.active.value), input, responseId, resolutionId), db.active.value, r, old(db.Flaky()))
  {
    var firstTime :- db.Claim(SlaStart, input.eventId, input.tenantId);
    if !firstTime {
      return Ok(SlaAlreadyProcessed);
    }
    var overrides :- db.FindOverrides(input.tenantId);
    :- SaveClocks(db, input, ResolvePolicy(overrides).At(input.priority), responseId, resolutionId);
    return Ok(SlaStarted(|SLA_KINDS|));
  }

  method StartSlaTimers(db: Database, input: StartSlaInput, responseId: Id, resolutionId: Id) returns (r: Attempt<StartSlaOutcome>)
    requires db.active.None? && responseId !in db.committed.timers && resolutionId !in db.committed.timers && responseId != resolutionId
    modifies db`active, db`committed, db`faultIn
    ensures db.active.None?
    ensures Settled(old(db.committed), StartSlaTx(old(db.committed), input, responseId, resolutionId), db.committed, r, old(db.Flaky()))
    ensures NothingDone(r, old(db.committed), db.committed, old(db.Flaky())) || Starts(old(db.committed), input, responseId, resolutionId, r, db.committed)
  {
    StartGrants(db.committed, input, responseId, resolutionId);
    db.Begin();
    r := StartSlaTimersBody(db, input, responseId, resolutionId);
    r := db.Finish(r);
  }

  // ------------------------------------------------------------------ stop

  method StopSlaTimerBody(db: Database, input: StopSlaInput) returns (r: Attempt<StopSlaOutcome>)
    requires db.active.Some? && UniqueKinds(db.active.value.timers)
    modifies db`active, db`faultIn
    ensures db.active.Some? && db.Flaky() == old(db.Flaky())
    ensures Worked(StopSlaTx(old(db.active.value), input), db.active.value, r, old(db.Flaky()))
  {
    ghost var before := db.active.value;
    var firstTime :- db.Claim(SlaStop(input.kind), input.eventId, input.tenantId);
    if !firstTime {
      return Ok(StopAlreadyProcessed);
    }
    var found :- db.FindRunning(input.tenantId, input.ticketId, input.kind);
    assert forall id :: RunningTimer(db.active.value, input.tenantId, input.ticketId, input.kind, id)
                        <==> RunningTimer(before, input.tenantId, input.ticketId, input.kind, id);
    if found.None? {
      return Ok(NoRunningTimer);
    }
    var timer := new Timer.Rehydrate(found.value, db.active.value.timers[found.value]);
    var margin := RemainingMinutes(timer.props.dueAt, input.occurredAt);
    timer.Stop(input.occurredAt);
    :- db.SaveTimer(timer.id, timer.props);
    return Ok(SlaStopped(margin));
  }

  method StopSlaTimer(db: Database, input: StopSlaInput) returns (r: Attempt<StopSlaOutcome>)
    requires db.active.None? && UniqueKinds(db.committed.timers)
    modifies db`active, db`committed, db`faultIn
    ensures db.active.None?
    ensures Settled(old(db.committed), StopSlaTx(old(db.committed), input), db.committed, r, old(db.Flaky()))
    ensures NothingDone(r, old(db.committed), db.committed, old(db.Flaky())) || Stops(old(db.committed), input, r, db.committed)
  {
    StopGrants(db.committed, input);
    db.Begin();
    r := StopSlaTimerBody(db, input);
    r := db.Finish(r);
  }

  // ---------------------------------------------------------------- breach

  /** The audit entry and the event of a breach; the ticket itself does not change and is not saved. */
  method RecordBreach(db: Database, timer: Timer, ticket: Ticket, eventId: Id, now: Time) returns (o: Done)
    requires db.active.Some? && ticket.domainEvents == []
    requires ticket.id in db.active.value.tickets && db.active.value.tickets[ticket.id] == ticket.props
    modifies db`active, db`faultIn, ticket
    ensures db.active.Some? && db.Flaky() == old(db.Flaky())
    ensures var row := old(ticket.props);
            var spec := Happened(old(db.active.value), ticket.id, row, SlaBreached(timer.id, timer.props.kind, timer.props.dueAt, row.assigneeId, row.priority),
                                 SYSTEM_ACTOR_ID, MetaBreached(timer.id, timer.props.kind, timer.props.dueAt), Stamp(now, eventId, db.requestId));
            && (o.Done? ==> spec == Ok(db.active.value))
            && (o.Broke? ==> spec == Err(Threw) || old(db.Flaky()))
  {
    ghost var before := db.active.value;
    var metadata := MetaBreached(timer.id, timer.props.kind, timer.props.dueAt);
    o := db.RecordAudit(AuditEntry(ticket.props.tenantId, SYSTEM_ACTOR_ID, NameBreached, TicketEntity(ticket.id), metadata, now));
    if o.Broke? { return; }
    ticket.RecordSlaBreach(timer.id, timer.props.kind, timer.props.dueAt, now);
    assert ticket.domainEvents == [ticket.domainEvents[0]];
    NumberedOne(ticket.domainEvents[0], eventId, db.requestId, db.active.value.outbox);
    o := RecordEvents(db, ticket, [eventId]);
    assert before.tickets[ticket.id := ticket.props] == before.tickets;
  }

  method MarkSlaBreachedBody(db: Database, input: MarkBreachedInput, eventId: Id, now: Time) returns (r: Attempt<MarkBreachedOutcome>)
    requires db.active.Some?
    modifies db`active, db`faultIn
    ensures db.active.Some? && db.Flaky() == old(db.Flaky())
    ensures Worked(MarkBreachedTx(old(db.active.value), input, Stamp(now, eventId, db.requestId)), db.active.value, r, old(db.Flaky()))
  {
    var found :- db.FindTimerById(input.tenantId, input.timerId);
    if found.None? {
      return Ok(TimerNotFound);
    }
    var timer := new Timer.Rehydrate(input.timerId, found.value);
    if !timer.props.IsRunning() {
      return Ok(NotRunning);
    }
    if !IsOverdue(timer.props, now) {
      return Ok(NotOverdue);
    }
    var owner :- db.FindTicketById(input.tenantId, timer.props.ticketId);
    if owner.None? {
      return Ok(TicketOfTimerNotFound);
    }
    var ticket := new Ticket.Rehydrate(timer.props.ticketId, owner.value);
    var _ := timer.MarkBreached(now);
    :- db.SaveTimer(timer.id, timer.props);
    :- RecordBreach(db, timer, ticket, eventId, now);
    return Ok(MarkedBreached(timer.props.kind));
  }

  method MarkSlaBreached(db: Database, input: MarkBreachedInput, eventId: Id, now: Time) returns (r: Attempt<MarkBreachedOutcome>)
    requires db.active.None?
    modifies db`active, db`committed, db`faultIn
    ensures db.active.None? && db.Flaky() == old(db.Flaky())
    ensures Settled(old(db.committed), MarkBreachedTx(old(db.committed), input, Stamp(now, eventId, db.requestId)), db.committed, r, old(db.Flaky()))
    ensures NothingDone(r, old(db.committed), db.committed, old(db.Flaky())) || Breaches(old(db.committed), input, Stamp(now, eventId, db.requestId), r, db.committed)
  {
    BreachGrants(db.committed, input, Stamp(now, eventId, db.requestId));
    db.Begin();
    r := MarkSlaBreachedBody(db, input, eventId, now);
    r := db.Finish(r);
  }

  // ---------------------------------------------------------------- policy

  method UpdateSlaPolicyBody(db: Database, input: UpdatePolicyInput, target: SlaTarget, now: Time) returns (r: Attempt<seq<EffectiveTarget>>)
    requires db.active.Some?
    requires MakeSlaTarget(input.responseMinutes, input.resolutionMinutes) == Ok(target)
    modifies db`active, db`faultIn
    ensures db.active.Some? && db.Flaky() == old(db.Flaky())
    ensures Worked(UpdatePolicyTx(old(db.active.value), input, now), db.active.value, r, old(db.Flaky()))
  {
    var overrides :- db.FindOverrides(input.tenantId);
    PoliciesAgree(overrides, input.priority);
    var before := FindTarget(EffectivePolicy(overrides), input.priority).value;
    :- db.UpsertPolicy(input.tenantId, input.priority, target);
    :- db.RecordAudit(PolicyEntry(input.tenantId, input.actorId, MetaPolicy(input.priority, before, target, false), now));
    return Ok(EffectivePolicy(overrides[input.priority := target]));
  }

  method UpdateSlaPolicy(db: Database, input: UpdatePolicyInput, now: Time) returns (r: Attempt<seq<EffectiveTarget>>)
    requires db.active.None?
    modifies db`active, db`committed, db`faultIn
    ensures db.active.None?
    ensures Settled(old(db.committed), UpdatePolicyTx(old(db.committed), input, now), db.committed, r, old(db.Flaky()))
    ensures NothingDone(r, old(db.committed), db.committed, old(db.Flaky())) || Updates(old(db.committed), input, now, r, db.committed)
  {
    UpdateGrants(db.committed, input, now);
    var target :- MakeSlaTarget(input.responseMinutes, input.resolutionMinutes);
    db.Begin();
    r := UpdateSlaPolicyBody(db, input, target, now);
    r := db.Finish(r);
  }

  /** What the body reads back is what the specification writes: the target in force before, and the
      default after. */
  lemma ResetReads(overrides: Overrides, left: Overrides, priority: Priority)
    requires priority !in left
    ensures FindTarget(EffectivePolicy(overrides), priority) == Some(EffectiveAt(overrides, priority))
    ensures FindTarget(EffectivePolicy(left), priority) == Some(EffectiveTarget(priority, DEFAULT_SLA_POLICY.At(priority), Source.Default))
  {
    PoliciesAgree(overrides, priority);
    PoliciesAgree(left, priority);
  }

  lemma ResetWrites(t: Tables, input: ResetPolicyInput, now: Time, before: EffectiveTarget, removed: bool)
    requires before == EffectiveAt(OverridesOf(t.policies, input.tenantId), input.priority)
    requires removed <==> (input.tenantId, input.priority) in t.policies
    ensures var left := t.(policies := t.policies - {(input.tenantId, input.priority)});
            var entry := PolicyEntry(input.tenantId, input.actorId, MetaPolicy(input.priority, before, DEFAULT_SLA_POLICY.At(input.priority), true), now);
            ResetPolicyTx(t, input, now) == Ok((if removed then left.(audit := t.audit + [entry]) else left, EffectivePolicy(OverridesOf(left.policies, input.tenantId))))
  {
    if !removed { assert t.policies - {(input.tenantId, input.priority)} == t.policies; }
  }

  method ResetSlaPolicyBody(db: Database, input: ResetPolicyInput, now: Time) returns (r: Attempt<seq<EffectiveTarget>>)
    requires db.active.Some?
    modifies db`active, db`faultIn
    ensures db.active.Some? && db.Flaky() == old(db.Flaky())
    ensures Worked(ResetPolicyTx(old(db.active.value), input, now), db.active.value, r, old(db.Flaky()))
  {
    ghost var t := db.active.value;
    var overrides :- db.FindOverrides(input.tenantId);
    PoliciesAgree(overrides, input.priority);
    var before := FindTarget(EffectivePolicy(overrides), input.priority).value;
    var removed :- db.RemovePolicy(input.tenantId, input.priority);
    var left :- db.FindOverrides(input.tenantId);
    var inForce := EffectivePolicy(left);
    ResetReads(overrides, left, input.priority);
    ResetWrites(t, input, now, before, removed);
    if removed {
      var after := FindTarget(inForce, input.priority).value.target;
      :- db.RecordAudit(PolicyEntry(input.tenantId, input.actorId, MetaPolicy(input.priority, before, after, true), now));
    }
    return Ok(inForce);
  }

  method ResetSlaPolicy(db: Database, input: ResetPolicyInput, now: Time) returns (r: Attempt<seq<EffectiveTarget>>)
    requires db.active.None?
    modifies db`active, db`committed, db`faultIn
    ensures db.active.None?
    ensures Settled(old(db.committed), ResetPolicyTx(old(db.committed), input, now), db.committed, r, old(db.Flaky()))
    ensures NothingDone(r, old(db.committed), db.committed, old(db.Flaky())) || Resets(old(db.committed), input, now, r, db.committed)
  {
    ResetGrants(db.committed, input, now);
    db.Begin();
    r := ResetSlaPolicyBody(db, input, now);
    r := db.Finish(r);
  }
}
