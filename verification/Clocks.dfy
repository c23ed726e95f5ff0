/** SLA clocks: each ticket has none or exactly two, they never move, and whether they run is what the
    consumers' record of processed messages says.
 */
module Clocks {
  import opened Kernel
  import opened TicketDomain
  import opened SlaPolicy
  import opened Tables
  import opened Persistence
  import opened SlaTransactions
  import opened Consumers
  import opened Changes
  import opened History
  import opened PolicyTrail
  import SlaTimer

  // ------------------------------------------------------------ well-formed

  ghost predicate WholeMinutes(row: TimerRow) {
    exists m {:trigger DueAt(row.startedAt, m)} :: 1 <= m <= SLA_MAX_MINUTES && row.dueAt == DueAt(row.startedAt, m)
  }

  /** A clock belongs to an existing ticket of its tenant, starts when the ticket was created, has a
      deadline a whole number of minutes later, ends in at most one way and is only breached once due. */
  ghost predicate Healthy(row: TimerRow, tickets: map<Id, TicketRow>) {
    && row.ticketId in tickets
    && row.tenantId == tickets[row.ticketId].tenantId
    && row.startedAt == tickets[row.ticketId].createdAt
    && WholeMinutes(row)
    && (row.stoppedAt.None? || row.breachedAt.None?)
    && (row.breachedAt.Some? ==> row.breachedAt.value >= row.dueAt)
  }

  ghost predicate InPairs(timers: map<Id, TimerRow>) {
    && (forall k: Id :: KindTaken(timers, k, Response) <==> KindTaken(timers, k, Resolution))
    && (forall i, j :: i in timers && j in timers && timers[i].ticketId == timers[j].ticketId && timers[i].kind == Response && timers[j].kind == Resolution
                       ==> timers[i].dueAt <= timers[j].dueAt)
  }

  ghost predicate HealthyTimers(timers: map<Id, TimerRow>, tickets: map<Id, TicketRow>) {
    && UniqueKinds(timers)
    && InPairs(timers)
    && forall id :: id in timers ==> Healthy(timers[id], tickets)
  }

  /** The clock is the same one: who it times, from when and until when never changes; and once it has
      an outcome, that never changes either. */
  predicate SameClock(before: TimerRow, after: TimerRow) {
    && after == before.(stoppedAt := after.stoppedAt, breachedAt := after.breachedAt)
    && (!before.IsRunning() ==> after == before)
  }

  ghost predicate KeepsClocks(before: map<Id, TimerRow>, after: map<Id, TimerRow>) {
    forall id :: id in before ==> id in after && SameClock(before[id], after[id])
  }

  lemma ClocksAreKept(t: Tables, ch: Change)
    requires Sound(t, ch)
    ensures KeepsClocks(t.timers, Applied(t, ch).timers)
  {
  }

  /** Giving one clock an outcome keeps the table well-formed. */
  lemma OutcomeKeepsHealth(timers: map<Id, TimerRow>, tickets: map<Id, TicketRow>, id: Id, row: TimerRow)
    requires HealthyTimers(timers, tickets) && id in timers
    requires SameClock(timers[id], row) && (row.stoppedAt.None? || row.breachedAt.None?)
    requires row.breachedAt.Some? ==> row.breachedAt.value >= row.dueAt
    ensures HealthyTimers(timers[id := row], tickets)
  {
    var after := timers[id := row];
    forall k: Id, kind: SlaKind ensures KindTaken(after, k, kind) <==> KindTaken(timers, k, kind) {
      if i :| i in timers && timers[i].ticketId == k && timers[i].kind == kind {
        assert i in after && after[i].ticketId == k && after[i].kind == kind;
      }
    }
    var m :| 1 <= m <= SLA_MAX_MINUTES && timers[id].dueAt == DueAt(timers[id].startedAt, m);
    assert WholeMinutes(row);
  }

  lemma NoClockYet(timers: map<Id, TimerRow>, k: Id)
    requires !KindTaken(timers, k, Response) && !KindTaken(timers, k, Resolution)
    ensures forall i :: i in timers ==> timers[i].ticketId != k
  {
  }

  lemma PairKeepsHealth(timers: map<Id, TimerRow>, tickets: map<Id, TicketRow>, i: Id, first: TimerRow, j: Id, second: TimerRow)
    requires HealthyTimers(timers, tickets) && i !in timers && j !in timers && i != j
    requires first.kind == Response && second.kind == Resolution && first.ticketId == second.ticketId && first.dueAt <= second.dueAt
    requires Healthy(first, tickets) && Healthy(second, tickets)
    requires forall id :: id in timers ==> timers[id].ticketId != first.ticketId
    ensures HealthyTimers(timers[i := first][j := second], tickets)
  {
    var after := timers[i := first][j := second];
    forall k: Id, kind: SlaKind ensures KindTaken(after, k, kind) <==> k == first.ticketId || KindTaken(timers, k, kind) {
      if k == first.ticketId {
        assert i in after && j in after;
      } else if id :| id in timers && timers[id].ticketId == k && timers[id].kind == kind {
        assert id in after && after[id] == timers[id];
      }
    }
  }

  lemma StartKeepsHealth(t: Tables, ch: Change)
    requires HealthyTimers(t.timers, t.tickets) && Stories(t.tickets, t.audit, t.outbox) && Trails(t.policies, t.audit)
    requires ch.StartClocks? && Sound(t, ch)
    ensures HealthyTimers(Applied(t, ch).timers, t.tickets)
  {
    var event, target := ch.job.event, ch.target;
    MessageOfTicket(t.tickets, t.audit, t.outbox, ch.job);
    StoredIsValid(t.policies, t.audit, event.tenantId, event.payload.priority);
    NoClockYet(t.timers, event.aggregateId);
    var first := SlaTimer.Started(event.tenantId, event.aggregateId, Response, target.responseMinutes, event.occurredAt);
    var second := SlaTimer.Started(event.tenantId, event.aggregateId, Resolution, target.resolutionMinutes, event.occurredAt);
    assert first.dueAt == DueAt(first.startedAt, target.responseMinutes);
    assert second.dueAt == DueAt(second.startedAt, target.resolutionMinutes);
    PairKeepsHealth(t.timers, t.tickets, ch.responseId, first, ch.resolutionId, second);
  }

  lemma HealthIgnoresTicketEvents(timers: map<Id, TimerRow>, tickets: map<Id, TicketRow>, id: Id, row: TicketRow)
    requires HealthyTimers(timers, tickets)
    requires id in tickets ==> row.tenantId == tickets[id].tenantId && row.createdAt == tickets[id].createdAt
    ensures HealthyTimers(timers, tickets[id := row])
  {
  }

  lemma TimersStep(t: Tables, ch: Change)
    requires HealthyTimers(t.timers, t.tickets) && Stories(t.tickets, t.audit, t.outbox) && Trails(t.policies, t.audit)
    requires Sound(t, ch)
    ensures HealthyTimers(Applied(t, ch).timers, Applied(t, ch).tickets)
  {
    var after := Applied(t, ch);
    match ch
    case NewTicket(id, row, _, _) => HealthIgnoresTicketEvents(t.timers, t.tickets, id, row);
    case TicketEvent(id, _, m, _, _) => HealthIgnoresTicketEvents(t.timers, t.tickets, id, after.tickets[id]);
    case StartClocks(_, _, _, _) => StartKeepsHealth(t, ch);
    case StopClock(_, _, timerId) => OutcomeKeepsHealth(t.timers, t.tickets, timerId, after.timers[timerId]);
    case BreachClock(timerId, _, _, _) => OutcomeKeepsHealth(t.timers, t.tickets, timerId, after.timers[timerId]);
    case _ => assert after.timers == t.timers && after.tickets == t.tickets;
  }

  /** Zero or exactly two clocks, one of each kind, and the answer is due no later than the solution. */
  lemma NoneOrBoth(timers: map<Id, TimerRow>, tickets: map<Id, TicketRow>, k: Id)
    requires HealthyTimers(timers, tickets)
    ensures var mine := set id | id in timers && timers[id].ticketId == k;
            || mine == {}
            || exists i, j :: i != j && mine == {i, j} && timers[i].kind == Response && timers[j].kind == Resolution && timers[i].dueAt <= timers[j].dueAt
  {
    var mine := set id | id in timers && timers[id].ticketId == k;
    if mine != {} {
      var any :| any in mine;
      assert KindTaken(timers, k, timers[any].kind);
      assert KindTaken(timers, k, Response) && KindTaken(timers, k, Resolution);
      var i :| i in timers && timers[i].ticketId == k && timers[i].kind == Response;
      var j :| j in timers && timers[j].ticketId == k && timers[j].kind == Resolution;
      assert mine == {i, j};
    }
  }

  // ----------------------------------------------------------- the record

  /** Every processed row is of an outbox message, claimed by a consumer that message is for. */
  ghost predicate ProcessedRight(processed: seq<ProcessedRow>, outbox: seq<Message>) {
    forall i :: 0 <= i < |processed| ==> RightRow(processed[i], outbox)
  }

  ghost predicate RightRow(row: ProcessedRow, outbox: seq<Message>) {
    match FindMessage(outbox, row.eventId)
    case None => false
    case Some(m) => KeyOf(TicketRoutingAction(m)) == Some((row.consumer, m.id)) || KeyOf(SlaAction(m)) == Some((row.consumer, m.id))
  }

  ghost predicate ProcessedOnce(processed: seq<ProcessedRow>) {
    forall i, j :: 0 <= i < j < |processed| ==> processed[i].consumer != processed[j].consumer || processed[i].eventId != processed[j].eventId
  }

  lemma ProcessedStep(t: Tables, ch: Change)
    requires ProcessedRight(t.processed, t.outbox) && ProcessedOnce(t.processed) && UniqueMessages(t.outbox) && Sound(t, ch)
    ensures ProcessedRight(Applied(t, ch).processed, Applied(t, ch).outbox) && ProcessedOnce(Applied(t, ch).processed)
    ensures t.processed <= Applied(t, ch).processed
  {
    var after := Applied(t, ch);
    if ch.NewTicket? || ch.TicketEvent? || ch.BreachClock? {
      forall row | row in t.processed ensures RightRow(row, after.outbox) {
        FindMessageAppend(t.outbox, ch.m, row.eventId);
      }
    }
    match ch
    case TicketEvent(_, _, m, Some(job), _) =>
      FindMessageOf(t.outbox, job);
      FindMessageAppend(t.outbox, m, job.id);
    case ClaimOnly(_, job) => FindMessageOf(t.outbox, job);
    case StartClocks(job, _, _, _) => FindMessageOf(t.outbox, job);
    case StopClock(_, job, _) => FindMessageOf(t.outbox, job);
    case _ => assert after.processed == t.processed;
  }

  // --------------------------------------------------- clocks by the record

  function IsOf(outbox: seq<Message>, eventId: Id, k: Id): bool {
    var m := FindMessage(outbox, eventId);
    m.Some? && m.value.event.aggregateId == k
  }

  predicate StartsClock(row: ProcessedRow, outbox: seq<Message>, k: Id) {
    row.consumer == SlaStart && IsOf(outbox, row.eventId, k)
  }

  predicate StopsClock(row: ProcessedRow, outbox: seq<Message>, k: Id, kind: SlaKind) {
    row.consumer == SlaStop(kind) && IsOf(outbox, row.eventId, k)
  }

  /** What the record says of one clock: not started, running, or stopped at an instant. */
  ghost function Recorded(processed: seq<ProcessedRow>, outbox: seq<Message>, k: Id, kind: SlaKind): Option<Option<Time>> {
    if |processed| == 0 then None
    else
      var before := Recorded(processed[..|processed| - 1], outbox, k, kind);
      var row := processed[|processed| - 1];
      if before.None? && StartsClock(row, outbox, k) then Some(None)
      else if before == Some(None) && StopsClock(row, outbox, k, kind) then Some(Some(FindMessage(outbox, row.eventId).value.event.occurredAt))
      else before
  }

  lemma RecordedAppend(processed: seq<ProcessedRow>, outbox: seq<Message>, row: ProcessedRow, k: Id, kind: SlaKind)
    ensures Recorded(processed + [row], outbox, k, kind) ==
            var before := Recorded(processed, outbox, k, kind);
            if before.None? && StartsClock(row, outbox, k) then Some(None)
            else if before == Some(None) && StopsClock(row, outbox, k, kind) then Some(Some(FindMessage(outbox, row.eventId).value.event.occurredAt))
            else before
  {
    assert (processed + [row])[..|processed|] == processed;
  }

  lemma {:induction false} RecordedStable(processed: seq<ProcessedRow>, outbox: seq<Message>, m: Message, k: Id, kind: SlaKind)
    requires ProcessedRight(processed, outbox) && FindMessage(outbox, m.id).None?
    ensures Recorded(processed, outbox + [m], k, kind) == Recorded(processed, outbox, k, kind)
  {
    if |processed| > 0 {
      var init := processed[..|processed| - 1];
      assert forall i :: 0 <= i < |init| ==> init[i] == processed[i];
      RecordedStable(init, outbox, m, k, kind);
      assert RightRow(processed[|processed| - 1], outbox);
      FindMessageAppend(outbox, m, processed[|processed| - 1].eventId);
    }
  }

  /** A clock exists once its start is on record; while not breached it is stopped exactly as recorded. */
  ghost predicate AsRecorded(timers: map<Id, TimerRow>, processed: seq<ProcessedRow>, outbox: seq<Message>) {
    && (forall k: Id, kind: SlaKind :: Recorded(processed, outbox, k, kind).Some? ==> KindTaken(timers, k, kind))
    && (forall id :: id in timers ==> MatchesRecord(timers[id], processed, outbox))
  }

  ghost predicate MatchesRecord(row: TimerRow, processed: seq<ProcessedRow>, outbox: seq<Message>) {
    var said := Recorded(processed, outbox, row.ticketId, row.kind);
    said.Some? && (row.breachedAt.None? ==> row.stoppedAt == said.value)
  }

  lemma RecordIgnoresMessage(timers: map<Id, TimerRow>, processed: seq<ProcessedRow>, outbox: seq<Message>, m: Message)
    requires AsRecorded(timers, processed, outbox) && ProcessedRight(processed, outbox) && FindMessage(outbox, m.id).None?
    ensures AsRecorded(timers, processed, outbox + [m])
  {
    var longer := outbox + [m];
    forall k: Id, kind: SlaKind ensures Recorded(processed, longer, k, kind) == Recorded(processed, outbox, k, kind) {
      RecordedStable(processed, outbox, m, k, kind);
    }
  }

  /** A claim that starts or stops no clock of anybody. */
  lemma RecordIgnoresAutoAssign(timers: map<Id, TimerRow>, processed: seq<ProcessedRow>, outbox: seq<Message>, row: ProcessedRow)
    requires AsRecorded(timers, processed, outbox) && row.consumer == AutoAssign
    ensures AsRecorded(timers, processed + [row], outbox)
  {
  }

  /** The two clocks of a ticket whose start has just been recorded. */
  lemma StartIsRecorded(t: Tables, ch: Change)
    requires AsRecorded(t.timers, t.processed, t.outbox) && UniqueMessages(t.outbox)
    requires ch.StartClocks? && Sound(t, ch)
    ensures var after := Applied(t, ch); AsRecorded(after.timers, after.processed, after.outbox)
  {
    var after := Applied(t, ch);
    var row := ClaimRow(SlaStart, ch.job);
    var mine := ch.job.event.aggregateId;
    FindMessageOf(t.outbox, ch.job);
    NoClockYet(t.timers, mine);
    forall k: Id, kind: SlaKind
      ensures Recorded(after.processed, t.outbox, k, kind) == if k == mine then Some(None) else Recorded(t.processed, t.outbox, k, kind)
      ensures KindTaken(after.timers, k, kind) <==> k == mine || KindTaken(t.timers, k, kind)
    {
      RecordedAppend(t.processed, t.outbox, row, k, kind);
      assert k == mine ==> !KindTaken(t.timers, k, kind);
      assert ch.responseId in after.timers && ch.resolutionId in after.timers;
      if k != mine {
        if id :| id in t.timers && t.timers[id].ticketId == k && t.timers[id].kind == kind {
          assert id in after.timers && after.timers[id] == t.timers[id];
        }
      }
    }
  }

  /** Recording a stop: the running clock it stops, or no clock that was still running. */
  lemma StopIsRecorded(timers: map<Id, TimerRow>, tickets: map<Id, TicketRow>, processed: seq<ProcessedRow>, outbox: seq<Message>,
                       kind: SlaKind, job: Message, after: map<Id, TimerRow>)
    requires AsRecorded(timers, processed, outbox) && FindMessage(outbox, job.id) == Some(job)
    requires forall id :: id in timers ==> Healthy(timers[id], tickets)
    requires after.Keys == timers.Keys
    requires forall id :: id in timers ==>
               after[id] == if timers[id].IsRunning() && timers[id].ticketId == job.event.aggregateId && timers[id].kind == kind
                            then timers[id].(stoppedAt := Some(job.event.occurredAt)) else timers[id]
    ensures AsRecorded(after, processed + [ClaimRow(SlaStop(kind), job)], outbox)
  {
  }

  /** A clock of the ticket's tenant is any clock of the ticket. */
  lemma StopStep(t: Tables, kind: SlaKind, job: Message, after: map<Id, TimerRow>)
    requires AsRecorded(t.timers, t.processed, t.outbox) && UniqueMessages(t.outbox) && HealthyTimers(t.timers, t.tickets)
    requires Stories(t.tickets, t.audit, t.outbox) && job in t.outbox
    requires after.Keys == t.timers.Keys
    requires forall id :: id in t.timers ==>
               after[id] == if RunningTimer(t, job.event.tenantId, job.event.aggregateId, kind, id)
                             then t.timers[id].(stoppedAt := Some(job.event.occurredAt)) else t.timers[id]
    ensures AsRecorded(after, t.processed + [ClaimRow(SlaStop(kind), job)], t.outbox)
  {
    FindMessageOf(t.outbox, job);
    MessageOfTicket(t.tickets, t.audit, t.outbox, job);
    StopIsRecorded(t.timers, t.tickets, t.processed, t.outbox, kind, job, after);
  }

  /** A breach takes the clock out of the record's reach. */
  lemma BreachIsRecorded(t: Tables, timerId: Id, at: Time)
    requires AsRecorded(t.timers, t.processed, t.outbox) && timerId in t.timers
    ensures AsRecorded(t.timers[timerId := t.timers[timerId].(breachedAt := Some(at))], t.processed, t.outbox)
  {
    var after := t.timers[timerId := t.timers[timerId].(breachedAt := Some(at))];
    forall k: Id, kind: SlaKind | KindTaken(t.timers, k, kind) ensures KindTaken(after, k, kind) {
      var id :| id in t.timers && t.timers[id].ticketId == k && t.timers[id].kind == kind;
      assert id in after;
    }
  }

  lemma RecordStep(t: Tables, ch: Change)
    requires AsRecorded(t.timers, t.processed, t.outbox) && ProcessedRight(t.processed, t.outbox) && UniqueMessages(t.outbox)
    requires HealthyTimers(t.timers, t.tickets) && Stories(t.tickets, t.audit, t.outbox) && Sound(t, ch)
    ensures var after := Applied(t, ch); AsRecorded(after.timers, after.processed, after.outbox)
  {
    var after := Applied(t, ch);
    match ch
    case NewTicket(_, _, _, m) => RecordIgnoresMessage(t.timers, t.processed, t.outbox, m);
    case TicketEvent(_, _, m, claim, _) =>
      RecordIgnoresMessage(t.timers, t.processed, t.outbox, m);
      if claim.Some? {
        RecordIgnoresAutoAssign(t.timers, t.processed, after.outbox, ClaimRow(AutoAssign, claim.value));
      }
    case ClaimOnly(consumer, job) =>
      if consumer == AutoAssign {
        RecordIgnoresAutoAssign(t.timers, t.processed, t.outbox, ClaimRow(AutoAssign, job));
      } else {
        StopStep(t, consumer.kind, job, t.timers);
      }
    case StartClocks(_, _, _, _) => StartIsRecorded(t, ch);
    case StopClock(kind, job, timerId) => StopStep(t, kind, job, after.timers);
    case BreachClock(timerId, at, _, m) =>
      RecordIgnoresMessage(t.timers, t.processed, t.outbox, m);
      BreachIsRecorded(t.(outbox := after.outbox), timerId, at);
    case _ => assert after.timers == t.timers && after.processed == t.processed && after.outbox == t.outbox;
  }
}
