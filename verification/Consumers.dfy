/** The queue consumers that change the database: which use case each job runs, and which jobs end in
    the dead-letter queue.
 */
module Consumers {
  import opened Kernel
  import opened TicketDomain
  import opened Tables
  import opened Persistence
  import opened TicketTransactions
  import opened SlaTransactions
  import TicketUseCases
  import SlaUseCases

  datatype Action =
    | RunAutoAssign(assign: AutoAssignInput)
    | RunStartSla(start: StartSlaInput)
    | RunStopSla(stop: StopSlaInput)
    | Ignore
    | Discard

  /** `TicketRoutingProcessor.process`. */
  function TicketRoutingAction(job: Message): Action {
    match job.event.payload
    case TicketCreated(number, _, _, _, _) =>
      if job.event.version != 1 then Discard
      else RunAutoAssign(AutoAssignInput(job.id, job.event.tenantId, job.event.aggregateId, number))
    case _ => Discard
  }

  /** `SlaProcessor.despachar` and its three handlers. */
  function SlaAction(job: Message): Action {
    var event := job.event;
    match event.payload
    case TicketCreated(_, _, priority, _, _) =>
      if event.version != 1 then Discard
      else RunStartSla(StartSlaInput(job.id, event.tenantId, event.aggregateId, priority, event.occurredAt))
    case CommentAdded(_, _, authorRole) =>
      if event.version < 2 then Discard
      else if !IsResponder(authorRole) then Ignore
      else RunStopSla(StopSlaInput(job.id, event.tenantId, event.aggregateId, Response, event.occurredAt))
    case TicketStatusChanged(_, to, _) =>
      if to != Resolved then Ignore
      else RunStopSla(StopSlaInput(job.id, event.tenantId, event.aggregateId, Resolution, event.occurredAt))
    case _ => Discard
  }

  /** The real-time queue writes nothing, and nobody consumes the dead-letter queue. */
  function ActionFor(queue: Queue, job: Message): Action {
    match queue
    case TicketRouting => TicketRoutingAction(job)
    case Sla => SlaAction(job)
    case Realtime => Ignore
    case DeadLetter => Ignore
  }

  /** The routing table and the consumers agree: an event as this system writes it is sent to a consumer
      exactly when that consumer has a use for it, and no consumer discards what it is sent. */
  lemma RoutedIffUseful(job: Message, queue: Queue)
    requires job.event.version == VersionOf(job.event.payload) && queue in {TicketRouting, Sla}
    ensures queue in QueuesFor(NameOf(job.event.payload)) <==> ActionFor(queue, job) != Discard
  {
  }

  /** The key an action claims in `processed_messages`, if it claims one. */
  function KeyOf(action: Action): Option<(Consumer, Id)> {
    match action
    case RunAutoAssign(input) => Some((AutoAssign, input.eventId))
    case RunStartSla(input) => Some((SlaStart, input.eventId))
    case RunStopSla(input) => Some((SlaStop(input.kind), input.eventId))
    case Ignore => None
    case Discard => None
  }

  /** What a delivery takes from its surroundings: the ordered agents of the tenant, two generated timer
      ids and the stamp of the transaction. */
  datatype Surroundings = Surroundings(agents: seq<Id>, responseId: Id, resolutionId: Id, stamp: Stamp)

  function Outcome<T>(before: Tables, r: Attempt<(Tables, T)>): Tables {
    if r.Ok? then r.value.0 else before
  }

  /** The committed tables after one complete, fault-free delivery. */
  ghost function Delivered(t: Tables, action: Action, with: Surroundings): Tables {
    match action
    case RunAutoAssign(input) => Outcome(t, AutoAssignTx(t, input, with.agents, with.stamp))
    case RunStartSla(input) => Outcome(t, StartSlaTx(t, input, with.responseId, with.resolutionId))
    case RunStopSla(input) => Outcome(t, StopSlaTx(t, input))
    case Ignore => t
    case Discard => t
  }

  /** What a processor tells the queue: done, or an exception, on which the queue retries. */
  datatype JobResult = JobDone | JobThrew

  /** A consumer of one queue, and the ids it has put in the dead-letter queue. */
  class Processor {
    const queue: Queue
    const db: Database
    /** Events sent to the dead-letter queue, under a job id made of the queue and the event id. */
    var deadLetters: map<(Queue, Id), Message>
    /** What becomes of the next additions to that queue; all others arrive. */
    var fates: seq<Fate>

    constructor (queue: Queue, db: Database, fates: seq<Fate>)
      ensures this.queue == queue && this.db == db && deadLetters == map[] && this.fates == fates
    {
      this.queue, this.db, this.deadLetters, this.fates := queue, db, map[], fates;
    }

    /** One attempt at one job: the database moves by exactly the action's effect, or does not move and
        the job is reported failed. Only a discard touches the dead-letter queue; it is done only once the
        job is there, and fails only if that queue throws. */
    method Process(job: Message, with: Surroundings) returns (r: JobResult)
      requires db.active.None? && UniqueKinds(db.committed.timers)
      requires with.responseId !in db.committed.timers && with.resolutionId !in db.committed.timers && with.responseId != with.resolutionId
      requires with.stamp.requestId == db.requestId
      modifies db`active, db`committed, db`faultIn, this`deadLetters, this`fates
      ensures db.active.None?
      ensures r.JobDone? ==> db.committed == Delivered(old(db.committed), ActionFor(queue, job), with)
      ensures r.JobThrew? ==> db.committed == old(db.committed)
      ensures r.JobThrew? && !old(db.Flaky()) ==> Delivered(old(db.committed), ActionFor(queue, job), with) == old(db.committed)
      ensures ActionFor(queue, job) != Discard ==> deadLetters == old(deadLetters)
      ensures ActionFor(queue, job) == Discard ==> deadLetters in {old(deadLetters), old(Buried(job))}
      ensures ActionFor(queue, job) == Discard && r.JobDone? ==> deadLetters == old(Buried(job))
      ensures ActionFor(queue, job) == Discard && old(fates) == [] ==> r.JobDone?
    {
      match ActionFor(queue, job) {
        case RunAutoAssign(input) =>
          var outcome := TicketUseCases.AutoAssignTicket(db, input, with.agents, with.stamp.eventId, with.stamp.now);
          r := if outcome.Ok? then JobDone else JobThrew;
        case RunStartSla(input) =>
          var started := SlaUseCases.StartSlaTimers(db, input, with.responseId, with.resolutionId);
          r := if started.Ok? then JobDone else JobThrew;
        case RunStopSla(input) =>
          var stopped := SlaUseCases.StopSlaTimer(db, input);
          r := if stopped.Ok? then JobDone else JobThrew;
        case Ignore =>
          r := JobDone;
        case Discard =>
          var buried := ToDeadLetter(job);
          r := if buried.Done? then JobDone else JobThrew;
      }
    }

    /** The dead letters with this job among them; the queue keeps the first copy of a job id. */
    function Buried(job: Message): map<(Queue, Id), Message>
      reads this`deadLetters
    {
      if (queue, job.id) in deadLetters then deadLetters else deadLetters[(queue, job.id) := job]
    }

    method ToDeadLetter(job: Message) returns (o: Done)
      modifies this`deadLetters, this`fates
      ensures deadLetters in {old(deadLetters), old(Buried(job))}
      ensures o.Done? ==> deadLetters == old(Buried(job))
      ensures old(fates) == [] ==> o.Done?
    {
      var fate := Arrives;
      if |fates| > 0 {
        fate := fates[0];
        fates := fates[1..];
      }
      if fate != Dropped && (queue, job.id) !in deadLetters {
        deadLetters := deadLetters[(queue, job.id) := job];
      }
      o := if fate == Arrives then Done else Broke;
    }

    /** Called after a failed attempt: the job is buried once its attempts are used up. What that queue throws
        is lost with the notice. */
    method OnFailed(job: Message, attemptsMade: nat, maxAttempts: nat)
      modifies this`deadLetters, this`fates
      ensures attemptsMade < maxAttempts ==> deadLetters == old(deadLetters)
      ensures attemptsMade >= maxAttempts ==> deadLetters in {old(deadLetters), old(Buried(job))}
      ensures attemptsMade >= maxAttempts && old(fates) == [] ==> deadLetters == old(Buried(job))
    {
      if attemptsMade < maxAttempts { return; }
      var _ := ToDeadLetter(job);
    }
  }
}
