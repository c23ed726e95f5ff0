/** What the SLA use cases answer and leave behind, said of rows and fields, and proved of what each of them
    commits.
 */
module SlaRequests {
  import opened Kernel
  import opened TicketDomain
  import opened SlaPolicy
  import opened Tables
  import opened Persistence
  import opened TicketTransactions
  import opened SlaTransactions
  import opened Requests
  import SlaTimer

  /** No row of the claims has this consumer and this event. */
  ghost predicate IsUnclaimed(processed: seq<ProcessedRow>, consumer: Consumer, eventId: Id) {
    forall i :: 0 <= i < |processed| && processed[i].consumer == consumer ==> processed[i].eventId != eventId
  }

  // ------------------------------------------------------------------- start

  ghost predicate HasClocks(timers: map<Id, TimerRow>, ticketId: Id) {
    exists id :: id in timers && timers[id].ticketId == ticketId
  }

  /** A clock that has just started, due so many minutes after that instant. */
  predicate IsNewClock(row: TimerRow, input: StartSlaInput, kind: SlaKind, minutes: int) {
    && row.tenantId == input.tenantId && row.ticketId == input.ticketId && row.kind == kind
    && row.startedAt == input.occurredAt
    && row.dueAt == input.occurredAt + minutes * 60_000
    && row.stoppedAt == row.breachedAt == None
  }

  /** The minutes stored for this tenant and priority, or those everybody has. */
  function TargetInForce(policies: map<(Id, Priority), SlaTarget>, tenantId: Id, priority: Priority): SlaTarget {
    if (tenantId, priority) in policies then policies[(tenantId, priority)] else DEFAULT_SLA_POLICY.At(priority)
  }

  ghost predicate Starts(t: Tables, input: StartSlaInput, responseId: Id, resolutionId: Id, r: Attempt<StartSlaOutcome>, after: Tables) {
    var first := IsUnclaimed(t.processed, SlaStart, input.eventId);
    && (r == Ok(SlaAlreadyProcessed) <==> !first)
    && (r == Err(Threw) <==> first && (input.ticketId !in t.tickets || HasClocks(t.timers, input.ticketId)))
    && (r == Ok(SlaStarted(2)) <==> first && input.ticketId in t.tickets && !HasClocks(t.timers, input.ticketId))
    && (r != Ok(SlaStarted(2)) ==> after == t)
    && (r == Ok(SlaStarted(2)) ==>
          var target := TargetInForce(t.policies, input.tenantId, input.priority);
          && responseId in after.timers && IsNewClock(after.timers[responseId], input, Response, target.responseMinutes)
          && resolutionId in after.timers && IsNewClock(after.timers[resolutionId], input, Resolution, target.resolutionMinutes)
          && after == t.(processed := t.processed + [ProcessedRow(SlaStart, input.eventId, input.tenantId)],
                         timers := t.timers[responseId := after.timers[responseId]][resolutionId := after.timers[resolutionId]]))
  }

  lemma ResolvedIsInForce(policies: map<(Id, Priority), SlaTarget>, tenantId: Id, priority: Priority)
    ensures ResolvePolicy(OverridesOf(policies, tenantId)).At(priority) == TargetInForce(policies, tenantId, priority)
    ensures EffectiveAt(OverridesOf(policies, tenantId), priority).target == TargetInForce(policies, tenantId, priority)
  {
    assert TICKET_PRIORITIES[IndexOf(priority)] == priority;
  }

  lemma NoClocksIff(t: Tables, ticketId: Id)
    ensures CanStart(t, ticketId) <==> ticketId in t.tickets && !HasClocks(t.timers, ticketId)
  {
    if id :| id in t.timers && t.timers[id].ticketId == ticketId {
      assert KindTaken(t.timers, ticketId, t.timers[id].kind);
    }
  }

  /** A first start gives a ticket without clocks one of each kind, on the minutes in force. */
  lemma StartGrants(t: Tables, input: StartSlaInput, responseId: Id, resolutionId: Id)
    requires responseId != resolutionId
    ensures var spec := StartSlaTx(t, input, responseId, resolutionId);
            Starts(t, input, responseId, resolutionId, Answer(spec), Left(t, spec))
  {
    NoClocksIff(t, input.ticketId);
    ResolvedIsInForce(t.policies, input.tenantId, input.priority);
  }

  // -------------------------------------------------------------------- stop

  /** A clock of this kind and ticket with no outcome yet. */
  predicate IsToStop(t: Tables, input: StopSlaInput, id: Id) {
    && id in t.timers
    && t.timers[id].tenantId == input.tenantId && t.timers[id].ticketId == input.ticketId && t.timers[id].kind == input.kind
    && t.timers[id].stoppedAt == None && t.timers[id].breachedAt == None
  }

  /** One such clock is stopped at the instant of the event, and the answer is within half a minute of what
      was left on it. */
  ghost predicate StopsOne(t: Tables, input: StopSlaInput, remainingMinutes: int, after: Tables, id: Id) {
    && IsToStop(t, input, id)
    && after.timers == t.timers[id := t.timers[id].(stoppedAt := Some(input.occurredAt))]
    && -30_000 <= 60_000 * remainingMinutes - (t.timers[id].dueAt - input.occurredAt) <= 30_000
  }

  ghost predicate Stops(t: Tables, input: StopSlaInput, r: Attempt<StopSlaOutcome>, after: Tables) {
    var first := IsUnclaimed(t.processed, SlaStop(input.kind), input.eventId);
    && r.Ok?
    && (r.value == StopAlreadyProcessed <==> !first)
    && (r.value == NoRunningTimer <==> first && forall id :: !IsToStop(t, input, id))
    && (r.value == StopAlreadyProcessed ==> after == t)
    && (r.value != StopAlreadyProcessed ==>
          after == t.(processed := t.processed + [ProcessedRow(SlaStop(input.kind), input.eventId, input.tenantId)], timers := after.timers))
    && (r.value == NoRunningTimer ==> after.timers == t.timers)
    && (r.value.SlaStopped? ==> exists id :: StopsOne(t, input, r.value.remainingMinutes, after, id))
  }

  lemma RunningIsToStop(t: Tables, input: StopSlaInput, id: Id)
    ensures IsToStop(t, input, id) <==> RunningTimer(t, input.tenantId, input.ticketId, input.kind, id)
  {
  }

  /** A first stop stops the running clock, if there is one. */
  lemma StopGrants(t: Tables, input: StopSlaInput)
    ensures var spec := StopSlaTx(t, input);
            Stops(t, input, Answer(spec), Left(t, spec))
  {
    var found := RunningOf(t, input.tenantId, input.ticketId, input.kind);
    forall id ensures IsToStop(t, input, id) <==> RunningTimer(t, input.tenantId, input.ticketId, input.kind, id) {
      RunningIsToStop(t, input, id);
    }
    if found.Some? {
      var left := SlaTimer.RemainingMinutes(t.timers[found.value].dueAt, input.occurredAt);
      SlaTimer.MarginIsNearest(t.timers[found.value].dueAt, input.occurredAt);
      var spec := StopSlaTx(t, input);
      if spec.Ok? && spec.value.1.SlaStopped? {
        assert StopsOne(t, input, left, spec.value.0, found.value);
      }
    }
  }

  // ------------------------------------------------------------------ breach

  ghost predicate Breaches(t: Tables, input: MarkBreachedInput, s: Stamp, r: Attempt<MarkBreachedOutcome>, after: Tables) {
    var stored := input.timerId in t.timers && t.timers[input.timerId].tenantId == input.tenantId;
    && (r == Ok(TimerNotFound) <==> !stored)
    && (stored ==>
          var clock := t.timers[input.timerId];
          var running := clock.stoppedAt.None? && clock.breachedAt.None?;
          var overdue := running && clock.dueAt <= s.now;
          && (r == Ok(NotRunning) <==> !running)
          && (r == Ok(NotOverdue) <==> running && s.now < clock.dueAt)
          && (r == Ok(TicketOfTimerNotFound) <==> overdue && !IsOf(t, clock.ticketId, input.tenantId))
          && (r.Err? <==> overdue && IsOf(t, clock.ticketId, input.tenantId) && !IsNewMessage(t.outbox, s.eventId))
          && (r.Ok? && r.value.MarkedBreached? <==> overdue && IsOf(t, clock.ticketId, input.tenantId) && IsNewMessage(t.outbox, s.eventId))
          && (r.Ok? && r.value.MarkedBreached? ==>
                var row := t.tickets[clock.ticketId];
                && r.value.kind == clock.kind
                && after.timers == t.timers[input.timerId := clock.(breachedAt := Some(s.now))]
                && OneEvent(t.(timers := after.timers), after, clock.ticketId, input.tenantId, SYSTEM_ACTOR_ID,
                            MetaBreached(input.timerId, clock.kind, clock.dueAt),
                            SlaBreached(input.timerId, clock.kind, clock.dueAt, row.assigneeId, row.priority), s)
                && after.tickets == t.tickets && after.comments == t.comments && after.processed == t.processed && after.counters == t.counters))
    && (!(r.Ok? && r.value.MarkedBreached?) ==> after == t)
  }

  /** A clock is marked exactly when it has no outcome and its time has come by this reading. */
  lemma BreachGrants(t: Tables, input: MarkBreachedInput, s: Stamp)
    ensures var spec := MarkBreachedTx(t, input, s);
            Breaches(t, input, s, Answer(spec), Left(t, spec))
  {
    if input.timerId in t.timers && IsOf(t, t.timers[input.timerId].ticketId, input.tenantId) {
      var clock := t.timers[input.timerId];
      var row := t.tickets[clock.ticketId];
      HappenedIsOneEvent(t.(timers := t.timers[input.timerId := SlaTimer.Breached(clock, s.now)]), clock.ticketId, row,
                         SlaBreached(input.timerId, clock.kind, clock.dueAt, row.assigneeId, row.priority),
                         SYSTEM_ACTOR_ID, MetaBreached(input.timerId, clock.kind, clock.dueAt), s);
    }
  }

  // ------------------------------------------------------------------ policy

  predicate IsWhole(minutes: real) {
    minutes.Floor as real == minutes
  }

  /** Whole minutes, at least one and at most a year, no resolution before a response. */
  predicate IsAcceptable(responseMinutes: real, resolutionMinutes: real) {
    && IsWhole(responseMinutes) && IsWhole(resolutionMinutes)
    && 1.0 <= responseMinutes <= resolutionMinutes <= 525_600.0
  }

  /** One entry more, by this actor, from the minutes in force before to these. */
  predicate AuditsPolicy(t: Tables, after: Tables, tenantId: Id, actorId: Id, priority: Priority, target: SlaTarget, reset: bool, now: Time) {
    && |after.audit| == |t.audit| + 1 && after.audit[..|t.audit|] == t.audit
    && var entry := after.audit[|t.audit|];
       && entry.actorId == actorId && entry.tenantId == tenantId && entry.occurredAt == now
       && entry.entity == SlaPolicyEntity(tenantId)
       && entry.metadata.MetaPolicy? && entry.metadata.priority == priority && entry.metadata.reset == reset
       && entry.metadata.before.target == TargetInForce(t.policies, tenantId, priority)
       && entry.metadata.after == target
  }

  /** What was typed is what is in force from then on, for that tenant and priority and no other. */
  ghost predicate Updates(t: Tables, input: UpdatePolicyInput, now: Time, r: Attempt<seq<EffectiveTarget>>, after: Tables) {
    && (r.Ok? <==> IsAcceptable(input.responseMinutes, input.resolutionMinutes))
    && (r.Err? ==> r == Err(Rejected(InvalidSlaTarget)) && after == t)
    && (r.Ok? ==>
          var target := TargetInForce(after.policies, input.tenantId, input.priority);
          && target.responseMinutes as real == input.responseMinutes && target.resolutionMinutes as real == input.resolutionMinutes
          && after.policies == t.policies[(input.tenantId, input.priority) := target]
          && AuditsPolicy(t, after, input.tenantId, input.actorId, input.priority, target, false, now)
          && after == t.(policies := after.policies, audit := after.audit))
  }

  lemma AcceptableIff(responseMinutes: real, resolutionMinutes: real)
    ensures MakeSlaTarget(responseMinutes, resolutionMinutes).Ok? <==> IsAcceptable(responseMinutes, resolutionMinutes)
  {
  }

  lemma UpdateGrants(t: Tables, input: UpdatePolicyInput, now: Time)
    ensures var spec := UpdatePolicyTx(t, input, now);
            Updates(t, input, now, Answer(spec), Left(t, spec))
  {
    AcceptableIff(input.responseMinutes, input.resolutionMinutes);
    ResolvedIsInForce(t.policies, input.tenantId, input.priority);
  }

  /** After a reset the default is in force, for that tenant and priority and no other; only a reset that
      undoes something is audited. */
  ghost predicate Resets(t: Tables, input: ResetPolicyInput, now: Time, r: Attempt<seq<EffectiveTarget>>, after: Tables) {
    && r.Ok?
    && after.policies == t.policies - {(input.tenantId, input.priority)}
    && after == t.(policies := after.policies, audit := after.audit)
    && ((input.tenantId, input.priority) !in t.policies ==> after == t)
    && ((input.tenantId, input.priority) in t.policies ==>
          AuditsPolicy(t, after, input.tenantId, input.actorId, input.priority, TargetInForce(after.policies, input.tenantId, input.priority), true, now))
  }

  lemma ResetGrants(t: Tables, input: ResetPolicyInput, now: Time)
    ensures var spec := ResetPolicyTx(t, input, now);
            Resets(t, input, now, Answer(spec), Left(t, spec))
  {
    ResolvedIsInForce(t.policies, input.tenantId, input.priority);
  }
}
