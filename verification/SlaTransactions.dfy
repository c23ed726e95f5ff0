/** What each SLA use case commits, as a function of the committed tables. */
module SlaTransactions {
  import opened Kernel
  import opened TicketDomain
  import opened SlaPolicy
  import opened Tables
  import opened Persistence
  import opened TicketAggregate
  import opened TicketTransactions
  import SlaTimer

  datatype StartSlaInput = StartSlaInput(eventId: Id, tenantId: Id, ticketId: Id, priority: Priority, occurredAt: Time)

  datatype StartSlaOutcome = SlaStarted(timers: nat) | SlaAlreadyProcessed

  datatype StopSlaInput = StopSlaInput(eventId: Id, tenantId: Id, ticketId: Id, kind: SlaKind, occurredAt: Time)

  datatype StopSlaOutcome = SlaStopped(remainingMinutes: int) | StopAlreadyProcessed | NoRunningTimer

  datatype MarkBreachedInput = MarkBreachedInput(tenantId: Id, timerId: Id)

  datatype MarkBreachedOutcome = MarkedBreached(kind: SlaKind) | TimerNotFound | NotRunning | NotOverdue | TicketOfTimerNotFound

  datatype UpdatePolicyInput = UpdatePolicyInput(tenantId: Id, actorId: Id, priority: Priority, responseMinutes: real, resolutionMinutes: real)

  datatype ResetPolicyInput = ResetPolicyInput(tenantId: Id, actorId: Id, priority: Priority)

  const SLA_KINDS: seq<SlaKind> := [Response, Resolution]

  function MinutesFor(target: SlaTarget, kind: SlaKind): int {
    match kind
    case Response => target.responseMinutes
    case Resolution => target.resolutionMinutes
  }

  /** The unique index on (ticket, kind). */
  ghost predicate UniqueKinds(timers: map<Id, TimerRow>) {
    forall i, j :: i in timers && j in timers && timers[i].ticketId == timers[j].ticketId && timers[i].kind == timers[j].kind ==> i == j
  }

  /** The ticket exists and has no clock yet. */
  predicate CanStart(t: Tables, ticketId: Id) {
    ticketId in t.tickets && !KindTaken(t.timers, ticketId, Response) && !KindTaken(t.timers, ticketId, Resolution)
  }

  /** The timers table once the clocks of the first `n` kinds are saved. */
  function SavedKinds(timers: map<Id, TimerRow>, input: StartSlaInput, target: SlaTarget, responseId: Id, resolutionId: Id, n: nat): map<Id, TimerRow> {
    var one := timers[responseId := SlaTimer.Started(input.tenantId, input.ticketId, Response, target.responseMinutes, input.occurredAt)];
    if n == 0 then timers
    else if n == 1 then one
    else one[resolutionId := SlaTimer.Started(input.tenantId, input.ticketId, Resolution, target.resolutionMinutes, input.occurredAt)]
  }

  /** Two clocks, counted from the instant the ticket was created, on the policy in force now. */
  function StartSlaTx(t: Tables, input: StartSlaInput, responseId: Id, resolutionId: Id): Attempt<(Tables, StartSlaOutcome)> {
    if Claimed(t.processed, SlaStart, input.eventId) then Ok((t, SlaAlreadyProcessed))
    else if !CanStart(t, input.ticketId) then Err(Threw)
    else
      var target := ResolvePolicy(OverridesOf(t.policies, input.tenantId)).At(input.priority);
      Ok((t.(processed := t.processed + [ProcessedRow(SlaStart, input.eventId, input.tenantId)],
             timers := SavedKinds(t.timers, input, target, responseId, resolutionId, 2)),
          SlaStarted(2)))
  }

  /** The clock `findRunning` finds; the unique index leaves it no choice. */
  ghost function RunningOf(t: Tables, tenantId: Id, ticketId: Id, kind: SlaKind): (found: Option<Id>)
    ensures found.Some? ==> RunningTimer(t, tenantId, ticketId, kind, found.value)
  {
    if exists id :: RunningTimer(t, tenantId, ticketId, kind, id)
    then
      var id :| RunningTimer(t, tenantId, ticketId, kind, id);
      Some(id)
    else None
  }

  ghost function StopSlaTx(t: Tables, input: StopSlaInput): Attempt<(Tables, StopSlaOutcome)> {
    if Claimed(t.processed, SlaStop(input.kind), input.eventId) then Ok((t, StopAlreadyProcessed))
    else
      var t1 := t.(processed := t.processed + [ProcessedRow(SlaStop(input.kind), input.eventId, input.tenantId)]);
      match RunningOf(t, input.tenantId, input.ticketId, input.kind)
      case None => Ok((t1, NoRunningTimer))
      case Some(id) =>
        Ok((t1.(timers := t.timers[id := SlaTimer.Stopped(t.timers[id], input.occurredAt)]),
            SlaStopped(SlaTimer.RemainingMinutes(t.timers[id].dueAt, input.occurredAt))))
  }

  /** The sweep's verdict on one clock, checked again under this transaction's own clock reading. */
  function MarkBreachedTx(t: Tables, input: MarkBreachedInput, s: Stamp): Attempt<(Tables, MarkBreachedOutcome)> {
    if input.timerId !in t.timers || t.timers[input.timerId].tenantId != input.tenantId then Ok((t, TimerNotFound))
    else
      var timer := t.timers[input.timerId];
      if !timer.IsRunning() then Ok((t, NotRunning))
      else if !SlaTimer.IsOverdue(timer, s.now) then Ok((t, NotOverdue))
      else
        match FindTicket(t.tickets, input.tenantId, timer.ticketId)
        case None => Ok((t, TicketOfTimerNotFound))
        case Some(row) =>
          Yield(Happened(t.(timers := t.timers[input.timerId := SlaTimer.Breached(timer, s.now)]), timer.ticketId, row,
                         SlaBreached(input.timerId, timer.kind, timer.dueAt, row.assigneeId, row.priority),
                         SYSTEM_ACTOR_ID, MetaBreached(input.timerId, timer.kind, timer.dueAt), s),
                MarkedBreached(timer.kind))
  }

  /** The margin a stop answers with is the one the clock shows from then on, whenever one looks. */
  lemma StopAnswersTheMargin(t: Tables, input: StopSlaInput, now: Time)
    ensures var r := StopSlaTx(t, input);
            r.Ok? && r.value.1.SlaStopped? ==>
              exists id :: id in r.value.0.timers && RunningTimer(t, input.tenantId, input.ticketId, input.kind, id)
                           && r.value.0.timers[id].stoppedAt == Some(input.occurredAt)
                           && SlaTimer.ViewAt(r.value.0.timers[id], now).remainingMinutes == r.value.1.remainingMinutes
  {
  }

  function PolicyEntry(tenantId: Id, actorId: Id, metadata: Metadata, now: Time): AuditEntry {
    AuditEntry(tenantId, actorId, NamePolicyChanged, SlaPolicyEntity(tenantId), metadata, now)
  }

  /** The override is stored and the change audited together; the answer spreads the new target over what
      was read before. */
  function UpdatePolicyTx(t: Tables, input: UpdatePolicyInput, now: Time): Attempt<(Tables, seq<EffectiveTarget>)> {
    match MakeSlaTarget(input.responseMinutes, input.resolutionMinutes)
    case Err(failure) => Err(failure)
    case Ok(target) =>
      var overrides := OverridesOf(t.policies, input.tenantId);
      var before := EffectiveAt(overrides, input.priority);
      Ok((t.(policies := t.policies[(input.tenantId, input.priority) := target],
             audit := t.audit + [PolicyEntry(input.tenantId, input.actorId, MetaPolicy(input.priority, before, target, false), now)]),
          EffectivePolicy(overrides[input.priority := target])))
  }

  /** Only a reset that removes something is audited. */
  function ResetPolicyTx(t: Tables, input: ResetPolicyInput, now: Time): Attempt<(Tables, seq<EffectiveTarget>)> {
    var policies := t.policies - {(input.tenantId, input.priority)};
    var before := EffectiveAt(OverridesOf(t.policies, input.tenantId), input.priority);
    var t1 :=
      if (input.tenantId, input.priority) in t.policies
      then t.(policies := policies,
              audit := t.audit + [PolicyEntry(input.tenantId, input.actorId, MetaPolicy(input.priority, before, DEFAULT_SLA_POLICY.At(input.priority), true), now)])
      else t;
    Ok((t1, EffectivePolicy(OverridesOf(t1.policies, input.tenantId))))
  }
}
