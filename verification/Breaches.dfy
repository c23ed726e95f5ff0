/** Every breach is counted once: by the clock, by the event and by the audit trail. */
module Breaches {
  import opened Kernel
  import opened TicketDomain
  import opened Tables
  import opened Changes
  import opened History

  function IsBreachOf(timerId: Id): Message -> bool {
    (m: Message) => m.event.payload.SlaBreached? && m.event.payload.timerId == timerId
  }

  /** One event for a breached clock, telling its ticket, kind, deadline and instant; none for any other. */
  ghost predicate BreachTold(timers: map<Id, TimerRow>, outbox: seq<Message>, timerId: Id) {
    var log := Filter(IsBreachOf(timerId), outbox);
    if timerId in timers && timers[timerId].breachedAt.Some? then
      var row := timers[timerId];
      && |log| == 1
      && log[0].event.aggregateId == row.ticketId
      && log[0].event.payload.SlaBreached?
      && log[0].event.payload.kind == row.kind
      && log[0].event.payload.dueAt == row.dueAt
      && Some(log[0].event.occurredAt) == row.breachedAt
    else log == []
  }

  ghost predicate AllBreachesTold(timers: map<Id, TimerRow>, outbox: seq<Message>) {
    forall timerId: Id :: BreachTold(timers, outbox, timerId)
  }

  lemma BreachTellingStep(t: Tables, ch: Change)
    requires AllBreachesTold(t.timers, t.outbox) && Sound(t, ch)
    ensures AllBreachesTold(Applied(t, ch).timers, Applied(t, ch).outbox)
  {
    var after := Applied(t, ch);
    forall timerId: Id ensures BreachTold(after.timers, after.outbox, timerId) {
      assert BreachTold(t.timers, t.outbox, timerId);
      if ch.BreachClock? {
        ToldByBreach(t.timers, t.outbox, ch.timerId, ch.at, ch.m, timerId);
      } else if ch.NewTicket? || ch.TicketEvent? {
        FilterAppend(IsBreachOf(timerId), t.outbox, ch.m);
      } else {
        assert timerId in t.timers ==> after.timers[timerId].breachedAt == t.timers[timerId].breachedAt;
      }
    }
  }

  lemma ToldByBreach(timers: map<Id, TimerRow>, outbox: seq<Message>, breached: Id, at: Time, m: Message, timerId: Id)
    requires BreachTold(timers, outbox, timerId) && breached in timers && timers[breached].breachedAt.None?
    requires m.event.payload.SlaBreached? && m.event.payload.timerId == breached && m.event.aggregateId == timers[breached].ticketId
    requires m.event.payload.kind == timers[breached].kind && m.event.payload.dueAt == timers[breached].dueAt && m.event.occurredAt == at
    ensures BreachTold(timers[breached := timers[breached].(breachedAt := Some(at))], outbox + [m], timerId)
  {
    FilterAppend(IsBreachOf(timerId), outbox, m);
  }

  // ---------------------------------------------------------------- totals

  function IsBreachEvent(event: DomainEvent): bool {
    event.payload.SlaBreached?
  }

  function IsBreachEntry(entry: AuditEntry): bool {
    entry.action == NameBreached
  }

  ghost function BreachedTimers(timers: map<Id, TimerRow>, k: Id): set<Id> {
    set id | id in timers && timers[id].ticketId == k && timers[id].breachedAt.Some?
  }

  ghost function BreachEvents(outbox: seq<Message>, k: Id): seq<DomainEvent> {
    Filter(IsBreachEvent, EventsOf(outbox, k))
  }

  ghost predicate Totals(timers: map<Id, TimerRow>, outbox: seq<Message>) {
    forall k: Id :: |BreachEvents(outbox, k)| == |BreachedTimers(timers, k)|
  }

  lemma BreachEventsAppend(outbox: seq<Message>, m: Message, k: Id)
    ensures BreachEvents(outbox + [m], k) == BreachEvents(outbox, k) + if m.event.aggregateId == k && m.event.payload.SlaBreached? then [m.event] else []
  {
  }

  /** One clock breached, one event. */
  lemma TotalsBreach(timers: map<Id, TimerRow>, outbox: seq<Message>, timerId: Id, at: Time, m: Message)
    requires Totals(timers, outbox)
    requires timerId in timers && timers[timerId].breachedAt.None?
    requires m.event.aggregateId == timers[timerId].ticketId && m.event.payload.SlaBreached?
    ensures Totals(timers[timerId := timers[timerId].(breachedAt := Some(at))], outbox + [m])
  {
    var after, longer := timers[timerId := timers[timerId].(breachedAt := Some(at))], outbox + [m];
    forall k: Id ensures |BreachEvents(longer, k)| == |BreachedTimers(after, k)| {
      BreachEventsAppend(outbox, m, k);
      assert BreachedTimers(after, k) == BreachedTimers(timers, k) + if timers[timerId].ticketId == k then {timerId} else {};
    }
  }

  /** No clock breached, no breach event. */
  lemma TotalsSame(timers: map<Id, TimerRow>, outbox: seq<Message>, after: map<Id, TimerRow>, records: seq<Message>)
    requires Totals(timers, outbox) && |records| <= 1
    requires forall i :: 0 <= i < |records| ==> !records[i].event.payload.SlaBreached?
    requires forall id :: id in timers ==> id in after && after[id].ticketId == timers[id].ticketId && after[id].breachedAt == timers[id].breachedAt
    requires forall id :: id in after && id !in timers ==> after[id].breachedAt.None?
    ensures Totals(after, outbox + records)
  {
    forall k: Id ensures |BreachEvents(outbox + records, k)| == |BreachedTimers(after, k)| {
      if records == [] {
        assert outbox + records == outbox;
      } else {
        assert records == [records[0]];
        BreachEventsAppend(outbox, records[0], k);
      }
      assert BreachedTimers(after, k) == BreachedTimers(timers, k);
    }
  }

  lemma TotalsStep(t: Tables, ch: Change)
    requires Totals(t.timers, t.outbox) && Sound(t, ch)
    ensures Totals(Applied(t, ch).timers, Applied(t, ch).outbox)
  {
    var after := Applied(t, ch);
    if ch.BreachClock? {
      TotalsBreach(t.timers, t.outbox, ch.timerId, ch.at, ch.m);
    } else {
      var records := if ch.NewTicket? || ch.TicketEvent? then [ch.m] else [];
      TotalsSame(t.timers, t.outbox, after.timers, records);
      assert after.outbox == t.outbox + records;
    }
  }

  lemma {:induction false} PairedCounts(entries: seq<AuditEntry>, events: seq<DomainEvent>)
    requires Paired(entries, events)
    ensures |Filter(IsBreachEntry, entries)| == |Filter(IsBreachEvent, events)|
  {
    if |events| > 0 {
      PairedCounts(entries[..|entries| - 1], events[..|events| - 1]);
      assert Tells(entries[|events| - 1], events[|events| - 1]);
    }
  }

  /** Breach events, breach audit entries and breached clocks of a ticket are equally many. */
  lemma BreachesAgree(t: Tables, k: Id)
    requires Stories(t.tickets, t.audit, t.outbox) && Totals(t.timers, t.outbox)
    ensures |BreachEvents(t.outbox, k)| == |BreachedTimers(t.timers, k)| == |Filter(IsBreachEntry, AuditOf(t.audit, k))|
  {
    assert Story(t.tickets, t.audit, t.outbox, k);
    PairedCounts(AuditOf(t.audit, k), EventsOf(t.outbox, k));
  }
}
