/** A run in which the queue delivers a ticket's resolution before its creation: everything is consumed, the
    ticket is resolved, and its resolution clock is running.
 */
module OutOfOrder {
  import opened Kernel
  import opened TicketDomain
  import opened Tables
  import opened Persistence
  import opened TicketAggregate
  import opened TicketTransactions
  import opened SlaTransactions
  import opened Consumers
  import opened Machine
  import opened ClockOrder
  import CreationLocks

  /** A database with one ticket, these messages, and nothing consumed or started but this. */
  predicate Holds(t: Tables, k: Id, row: TicketRow, outbox: seq<Message>, processed: seq<ProcessedRow>, timers: map<Id, TimerRow>) {
    && t.tickets == map[k := row]
    && t.outbox == outbox
    && t.processed == processed
    && t.timers == timers
  }

  /** The message of the resolution of an open, unassigned ticket. */
  function ResolvedMessage(k: Id, tenantId: Id, s: Stamp): Message {
    Message(s.eventId, EventAt(k, tenantId, s.now, TicketStatusChanged(Open, Resolved, None)), s.requestId)
  }

  lemma AfterCreation(input: CreateTicketInput, k: Id, s: Stamp) returns (row: TicketRow)
    requires ValidSubject(input.subject) && ValidDescription(input.description)
    ensures row.tenantId == input.tenantId && row.status == Open && row.assigneeId == None
    ensures Holds(Exec(EmptyTables, Create(input, k, s)), k, row, [Message(s.eventId, OpeningEvent(k, row), s.requestId)], [], map[])
  {
    row := Opened(input.tenantId, 1, input.subject, input.description, input.priority, input.actorId, s.now);
    CreationLocks.CreateInserts(EmptyTables, input, k, s, row);
    FirstInserted(row, k, input.actorId, s);
  }

  lemma FirstInserted(row: TicketRow, k: Id, actorId: Id, s: Stamp)
    requires row.number == 1
    ensures var r := Inserted(Reserved(EmptyTables, row.tenantId), k, row, actorId, s);
            r.Ok? && Holds(r.value, k, row, [Message(s.eventId, OpeningEvent(k, row), s.requestId)], [], map[])
  {
  }

  lemma AfterResolution(t: Tables, k: Id, row: TicketRow, created: Message, actorId: Id, s: Stamp) returns (resolved: TicketRow)
    requires Holds(t, k, row, [created], [], map[]) && row.status == Open && row.assigneeId == None && created.id != s.eventId
    ensures resolved.tenantId == row.tenantId && resolved.status == Resolved
    ensures Holds(Exec(t, ChangeStatus(ChangeStatusInput(row.tenantId, actorId, k, Resolved), s)), k, resolved, [created, ResolvedMessage(k, row.tenantId, s)], [], map[])
  {
    FindMessageAppend([], created, s.eventId);
    assert [] + [created] == [created];
    resolved := Evolved(row, EventAt(k, row.tenantId, s.now, TicketStatusChanged(Open, Resolved, None)));
  }

  lemma AfterEarlyStop(t: Tables, k: Id, row: TicketRow, created: Message, s: Stamp, with: Surroundings)
    requires Holds(t, k, row, [created, ResolvedMessage(k, row.tenantId, s)], [], map[])
    ensures Holds(Exec(t, Deliver(Sla, ResolvedMessage(k, row.tenantId, s), with)), k, row, t.outbox, [ProcessedRow(SlaStop(Resolution), s.eventId, row.tenantId)], map[])
  {
  }

  lemma AfterLateStart(t: Tables, k: Id, row: TicketRow, created: Message, resolved: Message, stop: ProcessedRow, with: Surroundings)
    requires Holds(t, k, row, [created, resolved], [stop], map[]) && stop.consumer == SlaStop(Resolution)
    requires created.event.aggregateId == k && created.event.payload.TicketCreated? && created.event.version == 1 && with.responseId != with.resolutionId
    ensures var after := Exec(t, Deliver(Sla, created, with));
            && Holds(after, k, row, t.outbox, [stop, ProcessedRow(SlaStart, created.id, created.event.tenantId)], after.timers)
            && with.resolutionId in after.timers
            && var clock := after.timers[with.resolutionId];
               clock.ticketId == k && clock.kind == Resolution && clock.IsRunning()
  {
  }

  /** With those two claims, every message the SLA consumer claims for the ticket is consumed, though not in
      the order they were written. */
  lemma ConsumedBackwards(outbox: seq<Message>, processed: seq<ProcessedRow>, k: Id, created: Message, s: Stamp, tenantId: Id)
    requires outbox == [created, ResolvedMessage(k, tenantId, s)] && created.id != s.eventId
    requires created.event.aggregateId == k && created.event.payload.TicketCreated? && created.event.version == 1
    requires processed == [ProcessedRow(SlaStop(Resolution), s.eventId, tenantId), ProcessedRow(SlaStart, created.id, created.event.tenantId)]
    ensures AllConsumed(processed, outbox, k) && !ConsumedInOrder(processed, outbox, k)
  {
    assert processed[0].eventId == outbox[1].id && processed[1].eventId == outbox[0].id;
    PositionOf(outbox, 0);
    PositionOf(outbox, 1);
    assert ClockRow(processed[0], outbox, k) && ClockRow(processed[1], outbox, k);
  }

  /** Every ticket is open to this: created and then resolved, with the resolution delivered first, it is
      resolved, every message is consumed, and its resolution clock is stored running. */
  lemma OutOfOrderRunsOn(input: CreateTicketInput, k: Id, s: Stamp, actorId: Id, later: Stamp, with: Surroundings) returns (created: Message, commands: seq<Command>)
    requires ValidSubject(input.subject) && ValidDescription(input.description)
    requires s.eventId != later.eventId && with.stamp.eventId !in {s.eventId, later.eventId} && with.responseId != with.resolutionId
    ensures commands == [Create(input, k, s), ChangeStatus(ChangeStatusInput(input.tenantId, actorId, k, Resolved), later),
                         Deliver(Sla, ResolvedMessage(k, input.tenantId, later), with), Deliver(Sla, created, with)]
    ensures EnabledRun(EmptyTables, commands)
    ensures var t := Run(EmptyTables, commands);
            && k in t.tickets && t.tickets[k].status == Resolved
            && AllConsumed(t.processed, t.outbox, k) && !ConsumedInOrder(t.processed, t.outbox, k)
            && with.resolutionId in t.timers
            && t.timers[with.resolutionId].ticketId == k && t.timers[with.resolutionId].kind == Resolution && t.timers[with.resolutionId].IsRunning()
  {
    var c1, c2 := Create(input, k, s), ChangeStatus(ChangeStatusInput(input.tenantId, actorId, k, Resolved), later);
    var row := AfterCreation(input, k, s);
    created := Message(s.eventId, OpeningEvent(k, row), s.requestId);
    var t1 := Exec(EmptyTables, c1);
    var resolved := AfterResolution(t1, k, row, created, actorId, later);
    var t2 := Exec(t1, c2);
    var m := ResolvedMessage(k, input.tenantId, later);
    var c3, c4 := Deliver(Sla, m, with), Deliver(Sla, created, with);
    AfterEarlyStop(t2, k, resolved, created, later, with);
    var t3 := Exec(t2, c3);
    var stop := ProcessedRow(SlaStop(Resolution), later.eventId, input.tenantId);
    AfterLateStart(t3, k, resolved, created, m, stop, with);
    ConsumedBackwards(t3.outbox, [stop, ProcessedRow(SlaStart, created.id, created.event.tenantId)], k, created, later, input.tenantId);
    DeliveriesAreEnabled(t2, t3, k, resolved, created, later, with);
    commands := [c1, c2, c3, c4];
    FourSteps(c1, c2, c3, c4, t1, t2, t3, Exec(t3, c4));
    RunOfSteps(commands, [EmptyTables, t1, t2, t3, Exec(t3, c4)]);
  }

  lemma DeliveriesAreEnabled(t2: Tables, t3: Tables, k: Id, row: TicketRow, created: Message, s: Stamp, with: Surroundings)
    requires t2.outbox == t3.outbox == [created, ResolvedMessage(k, row.tenantId, s)] && t2.timers == t3.timers == map[]
    requires with.stamp.eventId !in {created.id, s.eventId} && with.responseId != with.resolutionId && created.event.payload.TicketCreated?
    ensures Enabled(t2, Deliver(Sla, ResolvedMessage(k, row.tenantId, s), with)) && Enabled(t3, Deliver(Sla, created, with))
  {
    var m := ResolvedMessage(k, row.tenantId, s);
    assert [] + [created] + [m] == [created, m] && [created, m][0] == created && [created, m][1] == m;
    FindMessageAppend([], created, with.stamp.eventId);
    FindMessageAppend([] + [created], m, with.stamp.eventId);
  }

  ghost predicate IsStep(t: Tables, c: Command, after: Tables) {
    Enabled(t, c) && after == Exec(t, c)
  }

  /** These states, one after each command. */
  ghost predicate Steps(commands: seq<Command>, states: seq<Tables>) {
    && |states| == |commands| + 1
    && forall i :: 0 <= i < |commands| ==> IsStep(states[i], commands[i], states[i + 1])
  }

  lemma {:induction false} StepsAreRun(commands: seq<Command>, states: seq<Tables>)
    requires Steps(commands, states)
    ensures EnabledRun(states[0], commands) && Run(states[0], commands) == states[|commands|]
  {
    if |commands| > 0 {
      var n := |commands| - 1;
      StepsAreRun(commands[..n], states[..n + 1]);
      assert IsStep(states[n], commands[n], states[n + 1]);
    }
  }

  lemma FourSteps(c1: Command, c2: Command, c3: Command, c4: Command, t1: Tables, t2: Tables, t3: Tables, t4: Tables)
    requires IsStep(EmptyTables, c1, t1) && IsStep(t1, c2, t2) && IsStep(t2, c3, t3) && IsStep(t3, c4, t4)
    ensures Steps([c1, c2, c3, c4], [EmptyTables, t1, t2, t3, t4])
  {
  }

  lemma RunOfSteps(commands: seq<Command>, states: seq<Tables>)
    requires Steps(commands, states) && |commands| == 4 && states[0] == EmptyTables
    ensures EnabledRun(EmptyTables, commands) && Run(EmptyTables, commands) == states[4]
  {
    StepsAreRun(commands, states);
  }
}
