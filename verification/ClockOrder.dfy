/** When does the record of consumed messages stop a clock, and when is a resolved ticket's clock left
    running? It depends on the order in which the queue delivers, and exactly on this.
 */
module ClockOrder {
  import opened Kernel
  import opened TicketDomain
  import opened Tables
  import opened Persistence
  import opened SlaTransactions
  import opened Consumers
  import opened Clocks
  import opened History

  function TimeOf(row: ProcessedRow, outbox: seq<Message>): Option<Time> {
    match FindMessage(outbox, row.eventId)
    case None => None
    case Some(m) => Some(m.event.occurredAt)
  }

  /** No row in `processed[from..to]` stops this clock. */
  ghost predicate NoStop(processed: seq<ProcessedRow>, outbox: seq<Message>, k: Id, kind: SlaKind, from: int, to: int) {
    forall i :: 0 <= from <= i < to <= |processed| ==> !StopsClock(processed[i], outbox, k, kind)
  }

  ghost predicate NoStart(processed: seq<ProcessedRow>, outbox: seq<Message>, k: Id, to: int) {
    forall i :: 0 <= i < to <= |processed| ==> !StartsClock(processed[i], outbox, k)
  }

  /** What the record says, row by row: a clock not started has no start on record; a running one has no
      stop after its start, only before it; a stopped one shows the time of the first stop after it. */
  lemma {:induction false} RecordedTells(processed: seq<ProcessedRow>, outbox: seq<Message>, k: Id, kind: SlaKind) returns (start: nat, stop: nat)
    ensures match Recorded(processed, outbox, k, kind)
            case None => NoStart(processed, outbox, k, |processed|)
            case Some(None) =>
              && start < |processed| && StartsClock(processed[start], outbox, k) && NoStart(processed, outbox, k, start)
              && NoStop(processed, outbox, k, kind, start, |processed|)
            case Some(Some(at)) =>
              && start < stop < |processed| && StartsClock(processed[start], outbox, k) && NoStart(processed, outbox, k, start)
              && NoStop(processed, outbox, k, kind, start, stop)
              && StopsClock(processed[stop], outbox, k, kind) && TimeOf(processed[stop], outbox) == Some(at)
  {
    start, stop := 0, 0;
    if |processed| > 0 {
      var last := |processed| - 1;
      var init := processed[..last];
      assert forall i :: 0 <= i < last ==> init[i] == processed[i];
      start, stop := RecordedTells(init, outbox, k, kind);
      var before := Recorded(init, outbox, k, kind);
      if before.None? && StartsClock(processed[last], outbox, k) {
        start := last;
      } else if before == Some(None) && StopsClock(processed[last], outbox, k, kind) {
        stop := last;
      }
    }
  }

  /** The exact condition: a started clock that was never breached is still running if and only if every
      stop consumed so far was consumed before the start. */
  lemma RunsOnIff(t: Tables, id: Id) returns (start: nat)
    requires AsRecorded(t.timers, t.processed, t.outbox) && id in t.timers && t.timers[id].breachedAt.None?
    ensures start < |t.processed| && StartsClock(t.processed[start], t.outbox, t.timers[id].ticketId)
    ensures NoStart(t.processed, t.outbox, t.timers[id].ticketId, start)
    ensures t.timers[id].IsRunning() <==> NoStop(t.processed, t.outbox, t.timers[id].ticketId, t.timers[id].kind, start, |t.processed|)
  {
    var stop;
    assert MatchesRecord(t.timers[id], t.processed, t.outbox);
    start, stop := RecordedTells(t.processed, t.outbox, t.timers[id].ticketId, t.timers[id].kind);
  }

  // -------------------------------------------------------- in outbox order

  /** Is this message one the SLA consumer claims for ticket `k`? */
  predicate ForClocksOf(m: Message, k: Id) {
    m.event.aggregateId == k && KeyOf(SlaAction(m)).Some?
  }

  /** Where in the outbox a message is. */
  function Position(outbox: seq<Message>, id: Id): int {
    if |outbox| == 0 then -1
    else if outbox[|outbox| - 1].id == id then |outbox| - 1
    else Position(outbox[..|outbox| - 1], id)
  }

  lemma {:induction false} PositionOf(outbox: seq<Message>, a: nat)
    requires UniqueMessages(outbox) && a < |outbox|
    ensures Position(outbox, outbox[a].id) == a && FindMessage(outbox, outbox[a].id) == Some(outbox[a])
  {
    if a < |outbox| - 1 {
      PositionOf(outbox[..|outbox| - 1], a);
    }
  }

  /** A claim of the SLA consumer on a message of ticket `k`. */
  predicate ClockRow(row: ProcessedRow, outbox: seq<Message>, k: Id) {
    row.consumer != AutoAssign && IsOf(outbox, row.eventId, k)
  }

  /** The ticket's SLA messages were claimed in the order in which they were written. */
  ghost predicate ConsumedInOrder(processed: seq<ProcessedRow>, outbox: seq<Message>, k: Id) {
    forall i, j :: 0 <= i < j < |processed| && ClockRow(processed[i], outbox, k) && ClockRow(processed[j], outbox, k)
                   ==> Position(outbox, processed[i].eventId) < Position(outbox, processed[j].eventId)
  }

  ghost predicate AllConsumed(processed: seq<ProcessedRow>, outbox: seq<Message>, k: Id) {
    forall a :: 0 <= a < |outbox| && ForClocksOf(outbox[a], k) ==> Claimed(processed, KeyOf(SlaAction(outbox[a])).value.0, outbox[a].id)
  }

  /** A message that stops the clock of this kind, whoever's ticket it is of. */
  predicate IsStop(m: Message, kind: SlaKind) {
    SlaAction(m).RunStopSla? && SlaAction(m).stop.kind == kind
  }

  ghost predicate FirstStop(outbox: seq<Message>, k: Id, kind: SlaKind, f: int) {
    && 0 <= f < |outbox| && outbox[f].event.aggregateId == k && IsStop(outbox[f], kind)
    && forall i :: 0 <= i < f && outbox[i].event.aggregateId == k ==> !IsStop(outbox[i], kind)
  }

  /** A claim on record is on an outbox message of that kind, at its position. */
  lemma RowOfMessage(processed: seq<ProcessedRow>, outbox: seq<Message>, k: Id, i: nat) returns (a: nat)
    requires UniqueMessages(outbox) && ProcessedRight(processed, outbox) && i < |processed| && ClockRow(processed[i], outbox, k)
    ensures a < |outbox| && outbox[a].event.aggregateId == k && a == Position(outbox, processed[i].eventId)
    ensures KeyOf(SlaAction(outbox[a])) == Some((processed[i].consumer, processed[i].eventId))
  {
    assert RightRow(processed[i], outbox);
    FindMessageIsIn(outbox, processed[i].eventId);
    var m := FindMessage(outbox, processed[i].eventId).value;
    a :| 0 <= a < |outbox| && outbox[a] == m;
    PositionOf(outbox, a);
  }

  /** Where in the record a consumed message is. */
  lemma MessageOfRow(processed: seq<ProcessedRow>, outbox: seq<Message>, k: Id, a: nat) returns (i: nat)
    requires UniqueMessages(outbox) && AllConsumed(processed, outbox, k) && a < |outbox| && ForClocksOf(outbox[a], k)
    ensures i < |processed| && Position(outbox, processed[i].eventId) == a && ClockRow(processed[i], outbox, k)
    ensures Some((processed[i].consumer, processed[i].eventId)) == KeyOf(SlaAction(outbox[a]))
  {
    PositionOf(outbox, a);
    var consumer := KeyOf(SlaAction(outbox[a])).value.0;
    assert Claimed(processed, consumer, outbox[a].id);
    i :| 0 <= i < |processed| && processed[i].consumer == consumer && processed[i].eventId == outbox[a].id;
  }

  /** A start, then the first stop there is: the clock is stopped by that one. */
  lemma StoppedByFirst(processed: seq<ProcessedRow>, outbox: seq<Message>, k: Id, kind: SlaKind, i: nat, j: nat)
    requires i < j < |processed| && StartsClock(processed[i], outbox, k) && StopsClock(processed[j], outbox, k, kind)
    requires NoStop(processed, outbox, k, kind, 0, j)
    ensures Recorded(processed, outbox, k, kind) == Some(TimeOf(processed[j], outbox))
  {
    var start, stop := RecordedTells(processed, outbox, k, kind);
  }

  /** Consumed in outbox order and to the end, the record stops the clock at the first message that is a
      stop, and never starts it again. */
  lemma InOrderStopsAtFirst(processed: seq<ProcessedRow>, outbox: seq<Message>, k: Id, kind: SlaKind, c: nat, f: nat)
    requires UniqueMessages(outbox) && ProcessedRight(processed, outbox)
    requires ConsumedInOrder(processed, outbox, k) && AllConsumed(processed, outbox, k)
    requires c < f < |outbox| && outbox[c].event.aggregateId == k && SlaAction(outbox[c]).RunStartSla?
    requires FirstStop(outbox, k, kind, f)
    ensures Recorded(processed, outbox, k, kind) == Some(Some(outbox[f].event.occurredAt))
  {
    var i := MessageOfRow(processed, outbox, k, c);
    var j := MessageOfRow(processed, outbox, k, f);
    assert i < j;
    forall stop: nat | stop < j ensures !StopsClock(processed[stop], outbox, k, kind) {
      if StopsClock(processed[stop], outbox, k, kind) {
        var _ := RowOfMessage(processed, outbox, k, stop);
      }
    }
    StoppedByFirst(processed, outbox, k, kind, i, j);
    PositionOf(outbox, f);
  }

  /** The message that announces a ticket, and that it comes before any other of that ticket. */
  lemma {:induction false} AnnouncedFirst(outbox: seq<Message>, k: Id) returns (c: nat)
    requires EventsOf(outbox, k) != []
    ensures c < |outbox| && outbox[c].event == EventsOf(outbox, k)[0] && outbox[c].event.aggregateId == k
    ensures forall i :: 0 <= i < c ==> outbox[i].event.aggregateId != k
  {
    var last := |outbox| - 1;
    var init := outbox[..last];
    if EventsOf(init, k) == [] {
      c := last;
      EventsOfMembers(init, k);
      forall i | 0 <= i < last ensures outbox[i].event.aggregateId != k {
        assert init[i] in init;
      }
    } else {
      c := AnnouncedFirst(init, k);
      assert forall i :: 0 <= i < last ==> init[i] == outbox[i];
    }
  }

  /** The first stop there is, given one. */
  lemma {:induction false} FirstStopExists(outbox: seq<Message>, k: Id, kind: SlaKind, i: nat) returns (f: nat)
    requires i < |outbox| && outbox[i].event.aggregateId == k && IsStop(outbox[i], kind)
    ensures FirstStop(outbox, k, kind, f) && f <= i
  {
    if j :| 0 <= j < i && outbox[j].event.aggregateId == k && IsStop(outbox[j], kind) {
      f := FirstStopExists(outbox, k, kind, j);
    } else {
      f := i;
    }
  }

  /** Once the SLA messages of a ticket are consumed in outbox order, a ticket with a message that stops a
      kind of clock has that clock, not running: stopped at the first such message, or breached. */
  lemma ConsumedClockIsSettled(t: Tables, k: Id, kind: SlaKind, i: nat) returns (id: Id, f: nat)
    requires Stories(t.tickets, t.audit, t.outbox) && UniqueMessages(t.outbox)
    requires ProcessedRight(t.processed, t.outbox) && AsRecorded(t.timers, t.processed, t.outbox)
    requires ConsumedInOrder(t.processed, t.outbox, k) && AllConsumed(t.processed, t.outbox, k)
    requires i < |t.outbox| && t.outbox[i].event.aggregateId == k && IsStop(t.outbox[i], kind)
    ensures FirstStop(t.outbox, k, kind, f) && f <= i
    ensures id in t.timers && t.timers[id].ticketId == k && t.timers[id].kind == kind
    ensures !t.timers[id].IsRunning()
    ensures t.timers[id].breachedAt.None? ==> t.timers[id].stoppedAt == Some(t.outbox[f].event.occurredAt)
  {
    assert Story(t.tickets, t.audit, t.outbox, k);
    EventsOfMembers(t.outbox, k);
    assert t.outbox[i] in t.outbox;
    assert t.outbox[i].event in EventsOf(t.outbox, k);
    var c := AnnouncedFirst(t.outbox, k);
    ReplayIdentity(EventsOf(t.outbox, k));
    f := FirstStopExists(t.outbox, k, kind, i);
    assert c != f;
    InOrderStopsAtFirst(t.processed, t.outbox, k, kind, c, f);
    assert KindTaken(t.timers, k, kind);
    id :| id in t.timers && t.timers[id].ticketId == k && t.timers[id].kind == kind;
    assert MatchesRecord(t.timers[id], t.processed, t.outbox);
  }

  /** A resolved or closed ticket has a message that stops the resolution clock. */
  lemma ResolvedHasStop(t: Tables, k: Id) returns (i: nat)
    requires Stories(t.tickets, t.audit, t.outbox)
    requires k in t.tickets && t.tickets[k].status in {Resolved, Status.Closed}
    ensures i < |t.outbox| && t.outbox[i].event.aggregateId == k && IsStop(t.outbox[i], Resolution)
    ensures t.outbox[i].event.payload.TicketStatusChanged? && t.outbox[i].event.payload.to == Resolved
  {
    assert Story(t.tickets, t.audit, t.outbox, k);
    var e := ReplayResolved(EventsOf(t.outbox, k));
    EventsOfMembers(t.outbox, k);
    var m :| m in t.outbox && m.event == EventsOf(t.outbox, k)[e];
    i :| 0 <= i < |t.outbox| && t.outbox[i] == m;
  }

  /** A message that says a ticket was resolved stops the resolution clock, whatever came after. */
  lemma ResolvedIsStop(t: Tables, k: Id, i: nat)
    requires Stories(t.tickets, t.audit, t.outbox)
    requires i < |t.outbox| && t.outbox[i].event.aggregateId == k
    requires t.outbox[i].event.payload.TicketStatusChanged? && t.outbox[i].event.payload.to == Resolved
    ensures IsStop(t.outbox[i], Resolution)
  {
    MessageOfTicket(t.tickets, t.audit, t.outbox, t.outbox[i]);
    StopsAre(t.outbox[i]);
  }

  /** A comment by an agent or an administrator stops the response clock. */
  lemma AnsweredIsStop(t: Tables, k: Id, i: nat)
    requires Stories(t.tickets, t.audit, t.outbox)
    requires i < |t.outbox| && t.outbox[i].event.aggregateId == k
    requires t.outbox[i].event.payload.CommentAdded? && IsResponder(t.outbox[i].event.payload.authorRole)
    ensures IsStop(t.outbox[i], Response)
  {
    MessageOfTicket(t.tickets, t.audit, t.outbox, t.outbox[i]);
  }

  /** What is a stop: the ticket reaching RESOLVED for the resolution clock, a comment by an agent or an
      administrator for the response clock, nothing else. */
  lemma StopsAre(m: Message)
    requires m.event.version == VersionOf(m.event.payload)
    ensures IsStop(m, Resolution) <==> m.event.payload.TicketStatusChanged? && m.event.payload.to == Resolved
    ensures IsStop(m, Response) <==> m.event.payload.CommentAdded? && (m.event.payload.authorRole == "AGENT" || m.event.payload.authorRole == "ADMIN")
  {
  }
}
