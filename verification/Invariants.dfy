/** What holds in every reachable state, over every run. */
module Invariants {
  import opened Kernel
  import opened TicketDomain
  import opened SlaPolicy
  import opened Tables
  import opened SlaTransactions
  import opened Consumers
  import opened Machine
  import opened Changes
  import opened Numbering
  import opened History
  import opened PolicyTrail
  import opened Clocks
  import opened Breaches
  import opened Discussion
  import ClockOrder
  import Requests
  import TicketTransactions
  import SlaTimer

  ghost predicate Inv(t: Tables) {
    && Gapless(t.tickets, t.counters)
    && UniqueMessages(t.outbox)
    && Stories(t.tickets, t.audit, t.outbox)
    && Trails(t.policies, t.audit)
    && HealthyTimers(t.timers, t.tickets)
    && ProcessedRight(t.processed, t.outbox)
    && ProcessedOnce(t.processed)
    && AsRecorded(t.timers, t.processed, t.outbox)
    && AllBreachesTold(t.timers, t.outbox)
    && Totals(t.timers, t.outbox)
    && AllCommentsTold(t.comments, t.outbox)
    && AllTextsFit(t.tickets)
  }

  /** A subject has 1 to 200 code units, a description 1 to 10000. */
  predicate TextsFit(row: TicketRow) {
    1 <= |row.subject| <= 200 && 1 <= |row.description| <= 10_000
  }

  ghost predicate AllTextsFit(tickets: map<Id, TicketRow>) {
    forall id :: id in tickets ==> TextsFit(tickets[id])
  }

  lemma CreatedTextsFit(t: Tables, asked: TicketTransactions.CreateTicketInput, k: Id, s: TicketTransactions.Stamp, r: Attempt<Id>, after: Tables)
    requires AllTextsFit(t.tickets) && Requests.Creates(t, asked, k, s, r, after)
    ensures AllTextsFit(after.tickets)
  {
  }

  lemma CreateKeepsTexts(t: Tables, c: Command)
    requires AllTextsFit(t.tickets) && c.Create?
    ensures AllTextsFit(Exec(t, c).tickets)
  {
    var spec := TicketTransactions.CreateTicketTx(t, c.create, c.ticketId, c.stamp);
    Requests.CreateGrants(t, c.create, c.ticketId, c.stamp);
    CreatedTextsFit(t, Requests.Trimmed(c.create), c.ticketId, c.stamp, Requests.Answer(spec), Requests.Left(t, spec));
  }

  lemma ChangeKeepsTexts(t: Tables, ch: Change)
    requires AllTextsFit(t.tickets) && Sound(t, ch) && !ch.NewTicket?
    ensures AllTextsFit(Applied(t, ch).tickets)
  {
  }

  /** Texts are checked when a ticket opens, and stay. */
  lemma TextsStep(t: Tables, c: Command)
    requires AllTextsFit(t.tickets) && Enabled(t, c)
    ensures AllTextsFit(Exec(t, c).tickets)
  {
    if c.Create? {
      CreateKeepsTexts(t, c);
    } else {
      Classify(t, c);
      ChangeKeepsTexts(t, ChangeOf(t, c));
    }
  }

  lemma InvEmpty()
    ensures Inv(EmptyTables)
  {
    forall k: Id ensures BreachedTimers(EmptyTables.timers, k) == {} {}
  }

  lemma InvStep(t: Tables, c: Command)
    requires Inv(t) && Enabled(t, c)
    ensures Inv(Exec(t, c))
  {
    var ch := ChangeOf(t, c);
    Classify(t, c);
    NumberingStep(t, ch);
    OutboxStep(t, ch);
    HistoryStep(t, ch);
    TrailStep(t, ch);
    TimersStep(t, ch);
    ProcessedStep(t, ch);
    RecordStep(t, ch);
    BreachTellingStep(t, ch);
    TotalsStep(t, ch);
    CommentsStep(t, ch);
    TextsStep(t, c);
  }

  lemma {:induction false} InvRun(t: Tables, commands: seq<Command>)
    requires Inv(t) && EnabledRun(t, commands)
    ensures Inv(Run(t, commands))
  {
    if |commands| > 0 {
      var init := commands[..|commands| - 1];
      InvRun(t, init);
      InvStep(Run(t, init), commands[|commands| - 1]);
    }
  }

  /** The invariant holds in every state the system can reach from an empty database. */
  lemma ReachableInv(t: Tables)
    requires Reachable(t)
    ensures Inv(t)
  {
    var commands :| EnabledRun(EmptyTables, commands) && t == Run(EmptyTables, commands);
    InvEmpty();
    InvRun(EmptyTables, commands);
  }

  /** The part of it that the clocks' record rests on. */
  lemma ReachableRecord(t: Tables)
    requires Reachable(t)
    ensures Stories(t.tickets, t.audit, t.outbox) && UniqueMessages(t.outbox)
    ensures ProcessedRight(t.processed, t.outbox) && AsRecorded(t.timers, t.processed, t.outbox)
  {
    ReachableInv(t);
  }

  // -------------------------------------------------- what that comes down to

  /** Row, audit trail and outbox of a ticket tell the same story, in every reachable state. */
  lemma OneStory(t: Tables, k: Id)
    requires Reachable(t)
    ensures Paired(AuditOf(t.audit, k), EventsOf(t.outbox, k))
    ensures Replay(EventsOf(t.outbox, k)) == if k in t.tickets then Some(Bare(t.tickets[k])) else None
  {
    ReachableInv(t);
    assert Story(t.tickets, t.audit, t.outbox, k);
  }

  /** The dates of a stored ticket agree with its status. */
  lemma DatesAgree(t: Tables, k: Id)
    requires Reachable(t) && k in t.tickets
    ensures t.tickets[k].resolvedAt.Some? <==> t.tickets[k].status in {Resolved, Status.Closed}
    ensures t.tickets[k].closedAt.Some? <==> t.tickets[k].status == Status.Closed
  {
    OneStory(t, k);
    ReplayDates(EventsOf(t.outbox, k));
  }

  /** No stored text is empty or too long. */
  lemma StoredTextsFit(t: Tables, k: Id)
    requires Reachable(t) && k in t.tickets
    ensures 1 <= |t.tickets[k].subject| <= 200 && 1 <= |t.tickets[k].description| <= 10_000
  {
    ReachableInv(t);
  }

  ghost function NumbersOf(t: Tables, tenantId: Id): set<TicketNumber> {
    set k | k in t.tickets && t.tickets[k].tenantId == tenantId :: t.tickets[k].number
  }

  /** The numbers of a tenant's tickets are exactly 1..n, each used once. */
  lemma NumbersAreGapless(t: Tables, tenantId: Id) returns (n: nat)
    requires Reachable(t)
    ensures forall m: TicketNumber :: m in NumbersOf(t, tenantId) <==> m <= n
    ensures forall i, j :: i in t.tickets && j in t.tickets && t.tickets[i].tenantId == t.tickets[j].tenantId == tenantId && t.tickets[i].number == t.tickets[j].number
                           ==> i == j
  {
    ReachableInv(t);
    n := Persistence.NextNumber(t.counters, tenantId) - 1;
    forall m: TicketNumber | m <= n ensures m in NumbersOf(t, tenantId) {
      assert Persistence.NumberTaken(t.tickets, tenantId, m);
    }
  }

  /** The policy in force is the one its audit trail leaves, for every tenant and priority. */
  lemma PolicyIsAudited(t: Tables, tenantId: Id, priority: Priority)
    requires Reachable(t)
    ensures Chained(TrailOf(t.audit, tenantId, priority), priority)
    ensures EffectiveAt(OverridesOf(t.policies, tenantId), priority) == InForce(ReplayTrail(TrailOf(t.audit, tenantId, priority)), priority)
  {
    ReachableInv(t);
    assert Trail(t.policies, t.audit, tenantId, priority);
    OverrideIsStored(t.policies, tenantId, priority);
  }

  /** A breach is counted once by everybody, and told with the clock's own kind, deadline and instant. */
  lemma BreachesAreCounted(t: Tables, k: Id, timerId: Id)
    requires Reachable(t)
    ensures |BreachEvents(t.outbox, k)| == |BreachedTimers(t.timers, k)| == |Filter(IsBreachEntry, AuditOf(t.audit, k))|
    ensures BreachTold(t.timers, t.outbox, timerId)
  {
    ReachableInv(t);
    BreachesAgree(t, k);
  }

  /** Every ticket has no clock or one of each kind; a clock counts from the ticket's creation, for a
      whole number of minutes, and ends in one way at most. */
  lemma ClocksAreHealthy(t: Tables, k: Id)
    requires Reachable(t)
    ensures var mine := set id | id in t.timers && t.timers[id].ticketId == k;
            || mine == {}
            || exists i, j :: i != j && mine == {i, j} && t.timers[i].kind == Response && t.timers[j].kind == Resolution && t.timers[i].dueAt <= t.timers[j].dueAt
    ensures forall id :: id in t.timers ==> Healthy(t.timers[id], t.tickets)
  {
    ReachableInv(t);
    NoneOrBoth(t.timers, t.tickets, k);
  }

  /** Whatever happens next, a clock keeps its start and its deadline, and its outcome once it has one:
      no policy change and no later stop or breach moves it. */
  lemma {:induction false} ClocksNeverMove(t: Tables, commands: seq<Command>)
    requires EnabledRun(t, commands)
    ensures KeepsClocks(t.timers, Run(t, commands).timers)
  {
    if |commands| > 0 {
      var init := commands[..|commands| - 1];
      var c := commands[|commands| - 1];
      ClocksNeverMove(t, init);
      Classify(Run(t, init), c);
      ClocksAreKept(Run(t, init), ChangeOf(Run(t, init), c));
    }
  }

  /** A resolved or closed ticket whose SLA messages were consumed in the order they were written has a
      resolution clock that is not running: stopped when the ticket was first resolved, or breached. */
  lemma ResolvedClockIsSettled(t: Tables, k: Id) returns (id: Id, f: nat)
    requires Reachable(t) && k in t.tickets && t.tickets[k].status in {Resolved, Status.Closed}
    requires ClockOrder.ConsumedInOrder(t.processed, t.outbox, k) && ClockOrder.AllConsumed(t.processed, t.outbox, k)
    ensures ClockOrder.FirstStop(t.outbox, k, Resolution, f)
    ensures id in t.timers && t.timers[id].ticketId == k && t.timers[id].kind == Resolution
    ensures t.timers[id].breachedAt.Some? || t.timers[id].stoppedAt == Some(t.outbox[f].event.occurredAt)
  {
    ReachableRecord(t);
    var i := ClockOrder.ResolvedHasStop(t, k);
    id, f := ClockOrder.ConsumedClockIsSettled(t, k, Resolution, i);
  }

  /** The same for any ticket that ever was resolved, whatever it is now: reopening does not start the
      clock again, and the first resolution is the one that counts. */
  lemma EverResolvedClockIsSettled(t: Tables, k: Id, i: nat) returns (id: Id, f: nat)
    requires Reachable(t) && i < |t.outbox| && t.outbox[i].event.aggregateId == k
    requires t.outbox[i].event.payload.TicketStatusChanged? && t.outbox[i].event.payload.to == Resolved
    requires ClockOrder.ConsumedInOrder(t.processed, t.outbox, k) && ClockOrder.AllConsumed(t.processed, t.outbox, k)
    ensures ClockOrder.FirstStop(t.outbox, k, Resolution, f) && f <= i
    ensures id in t.timers && t.timers[id].ticketId == k && t.timers[id].kind == Resolution
    ensures t.timers[id].breachedAt.Some? || t.timers[id].stoppedAt == Some(t.outbox[f].event.occurredAt)
  {
    ReachableRecord(t);
    ClockOrder.ResolvedIsStop(t, k, i);
    id, f := ClockOrder.ConsumedClockIsSettled(t, k, Resolution, i);
  }

  /** Likewise a ticket an agent or an administrator has commented on has a response clock that is not
      running. */
  lemma AnsweredClockIsSettled(t: Tables, k: Id, i: nat) returns (id: Id, f: nat)
    requires Reachable(t) && i < |t.outbox| && t.outbox[i].event.aggregateId == k
    requires t.outbox[i].event.payload.CommentAdded? && IsResponder(t.outbox[i].event.payload.authorRole)
    requires ClockOrder.ConsumedInOrder(t.processed, t.outbox, k) && ClockOrder.AllConsumed(t.processed, t.outbox, k)
    ensures ClockOrder.FirstStop(t.outbox, k, Response, f) && f <= i
    ensures id in t.timers && t.timers[id].ticketId == k && t.timers[id].kind == Response
    ensures t.timers[id].breachedAt.Some? || t.timers[id].stoppedAt == Some(t.outbox[f].event.occurredAt)
  {
    ReachableRecord(t);
    ClockOrder.AnsweredIsStop(t, k, i);
    id, f := ClockOrder.ConsumedClockIsSettled(t, k, Response, i);
  }

  /** Every stored comment is told by one event, and every comment event tells a stored comment. */
  lemma CommentsAreTold(t: Tables, commentId: Id)
    requires Reachable(t)
    ensures CommentTold(t.comments, t.outbox, commentId)
  {
    ReachableInv(t);
  }

  /** What is shown of a clock that has an outcome depends on neither who looks nor when, and a breached
      one never shows time left. */
  lemma ShownMarginIsFinal(t: Tables, id: Id, now: Time, later: Time)
    requires Reachable(t) && id in t.timers && !t.timers[id].IsRunning()
    ensures SlaTimer.ViewAt(t.timers[id], now) == SlaTimer.ViewAt(t.timers[id], later)
    ensures t.timers[id].breachedAt.Some? ==> SlaTimer.ViewAt(t.timers[id], now).remainingMinutes <= 0
    ensures t.timers[id].breachedAt.Some? <==> SlaTimer.ViewAt(t.timers[id], now).status == SlaTimer.Overrun
  {
    ReachableInv(t);
    var row := t.timers[id];
    assert Healthy(row, t.tickets);
    if row.breachedAt.Some? {
      SlaTimer.BreachedMarginIsFrozen(row.(breachedAt := None), row.breachedAt.value, now, later);
    }
  }

  lemma WrittenAtItsVersion(t: Tables, m: Message)
    requires Reachable(t) && m in t.outbox
    ensures m.event.version == VersionOf(m.event.payload)
  {
    ReachableRecord(t);
    MessageOfTicket(t.tickets, t.audit, t.outbox, m);
  }

  /** No event of this system is ever discarded by the consumer its queue feeds. */
  lemma NothingIsDiscarded(t: Tables, m: Message, queue: Queue)
    requires Reachable(t) && m in t.outbox && queue in QueuesFor(NameOf(m.event.payload))
    ensures ActionFor(queue, m) != Discard
  {
    WrittenAtItsVersion(t, m);
    if queue in {TicketRouting, Sla} { RoutedIffUseful(m, queue); }
  }
}
