/** Effectively once: the queues deliver an event any number of times, attempts are cut short and
    retried, other transactions run in between, and still every consumer's effect on an event happens
    once.
 */
module Idempotency {
  import opened Kernel
  import opened TicketDomain
  import opened Tables
  import opened Persistence
  import opened TicketTransactions
  import opened SlaTransactions
  import opened Consumers
  import opened Machine
  import opened Changes
  import opened History
  import opened Clocks
  import opened Invariants
  import opened SlaPolicy
  import ClockOrder
  import SlaTimer

  type Key = (Consumer, Id)

  /** A transaction that reaches its commit, or one that is cut short before. */
  datatype Try = Commits(command: Command) | Aborts(command: Command)

  ghost function After(t: Tables, try: Try): Tables {
    match try
    case Commits(c) => Exec(t, c)
    case Aborts(_) => t
  }

  ghost function Play(t: Tables, tries: seq<Try>): Tables
    decreases |tries|
  {
    if tries == [] then t else Play(After(t, tries[0]), tries[1..])
  }

  ghost predicate Playable(t: Tables, tries: seq<Try>)
    decreases |tries|
  {
    tries != [] ==> Enabled(t, tries[0].command) && Playable(After(t, tries[0]), tries[1..])
  }

  function CommandKey(c: Command): Option<Key> {
    if c.Deliver? then KeyOf(ActionFor(c.queue, c.job)) else None
  }

  predicate HasClaim(t: Tables, key: Key) {
    Claimed(t.processed, key.0, key.1)
  }

  /** The same sequence without what was cut short and without every delivery after the first. */
  function Deduped(tries: seq<Try>, seen: set<Key>): seq<Try> {
    if tries == [] then []
    else
      match tries[0]
      case Aborts(_) => Deduped(tries[1..], seen)
      case Commits(c) =>
        match CommandKey(c)
        case None => [tries[0]] + Deduped(tries[1..], seen)
        case Some(key) =>
          if key in seen then Deduped(tries[1..], seen)
          else [tries[0]] + Deduped(tries[1..], seen + {key})
  }

  /** A delivery whose key is claimed changes nothing. */
  lemma RepeatIsNoop(t: Tables, c: Command)
    requires CommandKey(c).Some? && HasClaim(t, CommandKey(c).value)
    ensures Exec(t, c) == t
  {
  }

  /** Only the first message of a ticket announces it. */
  lemma {:induction false} OneCreation(outbox: seq<Message>, k: Id, a: nat, b: nat)
    requires Replay(EventsOf(outbox, k)).Some?
    requires a < b < |outbox| && outbox[a].event.aggregateId == outbox[b].event.aggregateId == k
    ensures !outbox[b].event.payload.TicketCreated?
  {
    var last := |outbox| - 1;
    var init := outbox[..last];
    var events := EventsOf(init, k);
    EventsOfMembers(init, k);
    assert init[a] in init && events != [];
    assert outbox == init + [outbox[last]];
    EventsOfAppend(init, outbox[last], k);
    if outbox[last].event.aggregateId == k {
      LaterIsNoCreation(events, outbox[last].event);
    }
    if b < last {
      OneCreation(init, k, a, b);
    }
  }

  lemma LaterIsNoCreation(events: seq<DomainEvent>, event: DomainEvent)
    requires events != [] && Replay(events + [event]).Some?
    ensures Replay(events).Some? && !event.payload.TicketCreated?
  {
    assert (events + [event])[..|events|] == events;
  }

  lemma SameCreation(t: Tables, k: Id, a: nat, b: nat)
    requires Stories(t.tickets, t.audit, t.outbox) && k in t.tickets
    requires a < |t.outbox| && b < |t.outbox| && t.outbox[a].event.aggregateId == t.outbox[b].event.aggregateId == k
    requires t.outbox[a].event.payload.TicketCreated? && t.outbox[b].event.payload.TicketCreated?
    ensures a == b
  {
    assert Story(t.tickets, t.audit, t.outbox, k);
    if a < b { OneCreation(t.outbox, k, a, b); }
    if b < a { OneCreation(t.outbox, k, b, a); }
  }

  /** A clock was started by a claim on the message that announces its ticket. */
  lemma ClockWasStarted(t: Tables, id: Id) returns (a: nat)
    requires AsRecorded(t.timers, t.processed, t.outbox) && UniqueMessages(t.outbox) && ProcessedRight(t.processed, t.outbox) && id in t.timers
    ensures a < |t.outbox| && t.outbox[a].event.aggregateId == t.timers[id].ticketId && t.outbox[a].event.payload.TicketCreated?
    ensures Claimed(t.processed, SlaStart, t.outbox[a].id)
  {
    var row := t.timers[id];
    assert MatchesRecord(row, t.processed, t.outbox);
    var start, _ := ClockOrder.RecordedTells(t.processed, t.outbox, row.ticketId, row.kind);
    a := ClockOrder.RowOfMessage(t.processed, t.outbox, row.ticketId, start);
  }

  /** A creation not yet consumed finds its ticket without clocks. */
  lemma CreationFindsNoClocks(t: Tables, job: Message)
    requires Inv(t) && job in t.outbox && job.event.payload.TicketCreated? && !Claimed(t.processed, SlaStart, job.id)
    ensures CanStart(t, job.event.aggregateId)
  {
    var k := job.event.aggregateId;
    MessageOfTicket(t.tickets, t.audit, t.outbox, job);
    var b :| 0 <= b < |t.outbox| && t.outbox[b] == job;
    forall id | id in t.timers ensures t.timers[id].ticketId != k {
      var a := ClockWasStarted(t, id);
      if t.timers[id].ticketId == k {
        SameCreation(t, k, a, b);
      }
    }
  }

  /** The first delivery of a creation, however late, gives the ticket both its clocks, counted from its
      creation on the policy its tenant has in force by then for its priority. */
  lemma FirstStartSetsDeadlines(t: Tables, job: Message, with: Surroundings)
    requires Inv(t) && Enabled(t, Deliver(Sla, job, with)) && job.event.payload.TicketCreated? && !Claimed(t.processed, SlaStart, job.id)
    ensures var k := job.event.aggregateId;
            && k in t.tickets
            && var row := t.tickets[k];
               var target := EffectiveAt(OverridesOf(t.policies, row.tenantId), row.priority).target;
               Exec(t, Deliver(Sla, job, with)).timers
               == t.timers[with.responseId := SlaTimer.Started(row.tenantId, k, Response, target.responseMinutes, row.createdAt)]
                          [with.resolutionId := SlaTimer.Started(row.tenantId, k, Resolution, target.resolutionMinutes, row.createdAt)]
  {
    MessageOfTicket(t.tickets, t.audit, t.outbox, job);
    CreationFindsNoClocks(t, job);
    PoliciesAgree(OverridesOf(t.policies, job.event.tenantId), job.event.payload.priority);
  }

  lemma AutoAssignClaims(t: Tables, input: AutoAssignInput, agents: seq<Id>, s: Stamp)
    requires !Claimed(t.processed, AutoAssign, input.eventId) && FindMessage(t.outbox, s.eventId).None?
    ensures Outcome(t, AutoAssignTx(t, input, agents, s)).processed == t.processed + [ProcessedRow(AutoAssign, input.eventId, input.tenantId)]
  {
  }

  lemma StopClaims(t: Tables, input: StopSlaInput)
    requires !Claimed(t.processed, SlaStop(input.kind), input.eventId)
    ensures Outcome(t, StopSlaTx(t, input)).processed == t.processed + [ProcessedRow(SlaStop(input.kind), input.eventId, input.tenantId)]
  {
  }

  lemma StartClaims(t: Tables, input: StartSlaInput, responseId: Id, resolutionId: Id)
    requires !Claimed(t.processed, SlaStart, input.eventId) && CanStart(t, input.ticketId)
    ensures Outcome(t, StartSlaTx(t, input, responseId, resolutionId)).processed == t.processed + [ProcessedRow(SlaStart, input.eventId, input.tenantId)]
  {
  }

  /** A complete first delivery leaves its claim behind, whatever it decided. */
  lemma FirstDeliveryClaims(t: Tables, c: Command)
    requires Inv(t) && Enabled(t, c) && CommandKey(c).Some? && !HasClaim(t, CommandKey(c).value)
    ensures Exec(t, c).processed == t.processed + [ProcessedRow(CommandKey(c).value.0, CommandKey(c).value.1, c.job.event.tenantId)]
  {
    match ActionFor(c.queue, c.job)
    case RunAutoAssign(input) => AutoAssignClaims(t, input, c.with.agents, c.with.stamp);
    case RunStopSla(input) => StopClaims(t, input);
    case RunStartSla(input) =>
      CreationFindsNoClocks(t, c.job);
      StartClaims(t, input, c.with.responseId, c.with.resolutionId);
    case _ =>
  }

  lemma OthersClaimNothing(t: Tables, c: Command)
    requires CommandKey(c).None? && Enabled(t, c)
    ensures Exec(t, c).processed == t.processed
  {
    Classify(t, c);
    var ch := ChangeOf(t, c);
    assert !(ch.ClaimOnly? || ch.StartClocks? || ch.StopClock? || (ch.TicketEvent? && ch.claim.Some?));
  }

  /** So a delivery adds its own claim and no other. */
  lemma DeliveryClaims(t: Tables, c: Command, key: Key)
    requires Inv(t) && Enabled(t, c)
    ensures HasClaim(Exec(t, c), key) <==> HasClaim(t, key) || CommandKey(c) == Some(key)
  {
    if CommandKey(c).None? {
      OthersClaimNothing(t, c);
    } else if HasClaim(t, CommandKey(c).value) {
      RepeatIsNoop(t, c);
    } else {
      FirstDeliveryClaims(t, c);
      ClaimsAppend(t.processed, ProcessedRow(CommandKey(c).value.0, CommandKey(c).value.1, c.job.event.tenantId), key);
    }
  }

  lemma ClaimsAppend(processed: seq<ProcessedRow>, row: ProcessedRow, key: Key)
    ensures Claimed(processed + [row], key.0, key.1) <==> Claimed(processed, key.0, key.1) || (row.consumer == key.0 && row.eventId == key.1)
  {
    var longer := processed + [row];
    if i :| 0 <= i < |processed| && processed[i].consumer == key.0 && processed[i].eventId == key.1 {
      assert longer[i] == processed[i];
    }
    assert longer[|processed|] == row;
  }

  /** Repeats, retries and aborted attempts make no difference: the final state is that of the sequence
      without them. `seen` is what was already claimed at the start. */
  lemma {:induction false} EffectivelyOnce(t: Tables, tries: seq<Try>, seen: set<Key>)
    requires Inv(t) && Playable(t, tries)
    requires forall key :: key in seen <==> HasClaim(t, key)
    ensures Play(t, tries) == Play(t, Deduped(tries, seen))
    decreases |tries|
  {
    if tries != [] {
      var next := After(t, tries[0]);
      var rest := tries[1..];
      match tries[0]
      case Aborts(_) => EffectivelyOnce(t, rest, seen);
      case Commits(c) =>
        InvStep(t, c);
        forall key: Key ensures HasClaim(next, key) <==> HasClaim(t, key) || CommandKey(c) == Some(key) {
          DeliveryClaims(t, c, key);
        }
        if CommandKey(c).None? {
          EffectivelyOnce(next, rest, seen);
          PlayFirst(t, tries[0], Deduped(rest, seen));
        } else if CommandKey(c).value in seen {
          RepeatIsNoop(t, c);
          EffectivelyOnce(t, rest, seen);
        } else {
          var now := seen + {CommandKey(c).value};
          EffectivelyOnce(next, rest, now);
          PlayFirst(t, tries[0], Deduped(rest, now));
        }
    }
  }

  lemma PlayFirst(t: Tables, first: Try, rest: seq<Try>)
    ensures Play(t, [first] + rest) == Play(After(t, first), rest)
  {
    assert ([first] + rest)[1..] == rest;
  }

  /** How many deliveries under `key` change the database in this sequence. */
  ghost function Effects(t: Tables, tries: seq<Try>, key: Key): nat
    decreases |tries|
  {
    if tries == [] then 0
    else
      (if CommandKey(tries[0].command) == Some(key) && After(t, tries[0]) != t then 1 else 0)
      + Effects(After(t, tries[0]), tries[1..], key)
  }

  /** At most one of them does, and none if the key was claimed before. */
  lemma {:induction false} AtMostOneEffect(t: Tables, tries: seq<Try>, key: Key)
    requires Inv(t) && Playable(t, tries)
    ensures Effects(t, tries, key) <= if HasClaim(t, key) then 0 else 1
    decreases |tries|
  {
    if tries != [] {
      match tries[0]
      case Aborts(_) => AtMostOneEffect(t, tries[1..], key);
      case Commits(c) =>
        InvStep(t, c);
        DeliveryClaims(t, c, key);
        AtMostOneEffect(Exec(t, c), tries[1..], key);
        if HasClaim(t, key) && CommandKey(c) == Some(key) {
          RepeatIsNoop(t, c);
        }
    }
  }
}
