# Helpdesk: a verified model of its event protocol

The helpdesk keeps tickets for many organisations in one database and reacts to what happens to them
asynchronously. This project models the protocol behind that and proves what it is built to guarantee:

- **Transactions.** Each use case writes a ticket row, an audit entry and an outbox message in one
  transaction. `TicketTransactions` and `SlaTransactions` say what each commits as a function of the
  committed tables; `TicketUseCases` and `SlaUseCases` are the use cases statement by statement, over the
  `Ticket` and `Timer` classes and a `Database` whose connection may drop at any statement, proved against
  those functions. `Requests` and `SlaRequests` say independently, in the fields of rows and messages, what
  is granted, refused and left behind, and the use cases are proved against that too; `Assignments` follows
  who a ticket is with. `Machine` makes each a step, and `Invariants` holds over every run.
- **Creation under locks.** `CreationLocks` takes ticket creations statement by statement, interleaved,
  waiting for and holding the counter lock, and proves that every run comes down to whole transactions.
- **Publishing.** `OutboxMachine` and `OutboxRuns` are several publishers over the same outbox, with row
  locks, failing queues and crashes; `OutboxPublisher` is the publisher's code, whose every statement is a
  step of that machine.
- **Consuming.** `Consumers`, `Idempotency` and `EndToEnd` deliver jobs any number of times, cut short or
  not, and show that each takes effect once; `DeliveryLocks` has several deliveries of one event open at
  once, waiting for one another's claim.
- **SLA clocks.** `Clocks`, `ClockOrder` with `OutOfOrder`, `Breaches`, `Sweep` with `SweepBacklog`,
  `TimerRaces` and `PolicyTrail`.
- **Three smaller machines.** `RefreshFamilies` with `RefreshAnswers` and `RefreshUseCases`, `Realtime`
  with `RealtimeGateway`, and `TicketPages` with `TicketListing` and `LostTicket`.

`dafny verify dfyconfig.toml` checks the whole project.

## Assumptions

- Generated ids (tickets, timers, messages, tokens, families, sockets) are new; token hashing is injective.
- Tenant ids contain no colon. No organisation, user or ticket is deleted. `sla_policies` is written only
  by its two use cases.
- A non-nested `transactions.run` commits all its writes or none, and the histories, the breach counts and
  the refresh families are stated for transactions (or calls) one after the other. `CreationLocks`,
  `DeliveryLocks`, `TimerRaces`, `Sweep`, `Realtime` and the outbox machine interleave.
- Clocks, membership lists, the ordered list of agents, token verification and the fate of each statement
  are parameters; nothing is assumed about clocks unless a row says so.
- Prisma's cursor fixes a place in the order by the cursor's own row, whether or not that row passes the
  filter, and a cursor that is no stored row selects nothing.

## Choices

- Ids are natural numbers except where names are built from them (`Realtime`), instants are integer
  milliseconds, and text is a sequence of UTF-16 code units trimmed as JavaScript trims it.
- Event payloads are typed. An event name this version does not know is `Unlisted`.
- The minutes an administrator types are reals, since the check for whole numbers is part of the code.
- A queue is the set of all jobs it ever received: what its retention forgets only makes for more
  deliveries, and deliveries are unlimited here.
- Where comments and code disagree the model follows the code: a breach is recorded with the time of the
  transaction that marks it, not with the deadline (`mark-sla-breached.use-case.ts:87-102`); saving a clock
  is an unconditional upsert by id, so the re-check under no lock can be overtaken
  (`TimerRaces.OverlapLosesAStop`); the caller of `markRotated` does not look at how many rows it changed.
- Four properties one might expect are false of the code, and each comes with its exact condition: a clock
  of a resolved ticket is stopped only if the start was consumed before the stop (`ClockOrder.RunsOnIff`,
  with the run of `OutOfOrder.OutOfOrderRunsOn`); an outcome is final only if the clock is written as it was
  read (`TimerRaces.CommitAbsorbsIff`); a page goes on where the last one ended only if the cursor still
  passes the filter (`TicketPages.PageIsExactIff`, with the two calls of `LostTicket.LostWhileRunning`); a
  registered socket is open only if it was not closed while its handler ran (`Realtime.RegisteredClosedIff`).

## Model

| member | source | states |
|---|---|---|
| Invariants.OneStory | src/modules/ticketing/domain/entities/ticket.entity.ts:124-324 | In every reachable state the audit entries of a ticket pair one to one, in commit order, with its outbox events (name, instant, tenant, facts, actor), and replaying the events gives back the stored row but for its description; an unknown ticket has no events. |
| Invariants.ReachableInv | src/infrastructure/prisma/prisma-transaction.manager.ts:37-46 | Every state reachable from an empty database by any run of committed transactions has all the invariants below at once. |
| Invariants.InvStep | src/modules/ticketing/application/transactional.ts:28-51 | Each single transaction, whatever it is, keeps all of them. |
| Invariants.DatesAgree | src/modules/ticketing/domain/entities/ticket.entity.ts:251-265 | A stored ticket has a resolution date exactly when it is resolved or closed, and a closing date exactly when it is closed. |
| Invariants.StoredTextsFit | src/modules/ticketing/domain/entities/ticket.entity.ts:288-304 | In every reachable state a stored subject has 1 to 200 code units and a description 1 to 10000. |
| History.StoryContinues | src/modules/ticketing/domain/entities/ticket.entity.ts:124-249 | Saving a row together with the event that leads to it and the entry that tells it extends that ticket's story and leaves every other ticket's as it was. |
| History.HistoryStep | src/modules/ticketing/application/event-recorder.ts:27-36 | Every kind of change the system commits keeps row, trail and outbox telling the same story. |
| History.OutboxStep | src/infrastructure/prisma/prisma-outbox.writer.ts:29-61 | The outbox only grows, at its end, and no message id is used twice. |
| History.ReplayResolved | src/modules/ticketing/domain/ticket-status.ts:43-51 | A ticket that is resolved or closed has an event that resolved it, at the instant it keeps as its resolution date, and has at most been closed since: closing is only possible from there. |
| History.ReplayClosed | src/modules/ticketing/domain/entities/ticket.entity.ts:251-265 | A closed ticket keeps as its closing date the instant of the event that closed it. |
| History.ReplayAssignee | src/modules/ticketing/domain/entities/ticket.entity.ts:155-182 | A ticket is with whomever its last assignment event names, with nobody if that took it away or there is none. |
| History.ReplayUpdated | src/modules/ticketing/domain/entities/ticket.entity.ts:226-242 | A ticket was last changed at the instant of its last event that is not a breach. |
| History.ReplayClosedIsFinal | src/modules/ticketing/domain/ticket-status.ts:36-47 | After the event that closes a ticket nothing but a breach is ever recorded for it, and it stays closed. |
| History.ReplayDates | src/modules/ticketing/domain/entities/ticket.entity.ts:251-265 | Any replayable sequence of events ends with dates that match its status. |
| History.ReplayIdentity | src/modules/ticketing/domain/events/ticketing.events.ts:21-38 | The first event of a ticket announces number, priority, requester and creation date for good; all its events carry its tenant and the version this code writes; it is announced once. |
| Discussion.CommentsStep | src/modules/ticketing/application/add-comment.use-case.ts:70-107 | Every transaction keeps comments and comment events one to one: same id, ticket, tenant, author and instant, body of 1 to 10000 code units. |
| Invariants.CommentsAreTold | src/modules/ticketing/application/add-comment.use-case.ts:50-110 | In every reachable state a comment id is stored exactly when one event tells it. |
| Kernel.TrimIsEmptyIffBlank | src/modules/ticketing/domain/entities/ticket.entity.ts:288-296 | A text counts as empty after trimming exactly when it is all white space, which is what the required-text checks rest on. |
| Kernel.TrimIsMiddle | src/modules/ticketing/domain/entities/ticket.entity.ts:288-296 | Trimming keeps the part between the first and the last character that is not white space, and cuts nothing else. |
| Changes.Classify | src/modules/ticketing/application/transactional.ts:28-51 | Every command commits exactly one of nine kinds of change, with the conditions under which the code makes it. |
| TicketAggregate.Ticket.OpenTicket | src/modules/ticketing/domain/entities/ticket.entity.ts:278-324 | Opens a ticket exactly when both texts are valid after trimming, with each text, the priority and the requester in its place in the row and in the one event that announces it; otherwise the first failing check is the error. |
| TicketAggregate.Ticket.ChangeStatus | src/modules/ticketing/domain/entities/ticket.entity.ts:124-148 | Same status: nothing changes at all. Forbidden transition: an error and nothing changes. Otherwise one event that describes the state found and leads to the state left. |
| TicketAggregate.Ticket.AssignTo | src/modules/ticketing/domain/entities/ticket.entity.ts:155-168 | A closed ticket refuses and does not change; any other is assigned with the one event that says so. |
| TicketAggregate.Ticket.Unassign | src/modules/ticketing/domain/entities/ticket.entity.ts:170-182 | Likewise for taking the assignee away. |
| TicketAggregate.Ticket.RegisterComment | src/modules/ticketing/domain/entities/ticket.entity.ts:198-217 | A closed ticket refuses; any other is touched with the one event that tells the comment. |
| TicketAggregate.Ticket.RecordSlaBreach | src/modules/ticketing/domain/entities/ticket.entity.ts:226-242 | The breach is an event with the ticket's assignee and priority; the row does not change. |
| TicketAggregate.Ticket.ApplyLifecycleTimestamps | src/modules/ticketing/domain/entities/ticket.entity.ts:251-265 | Closing keeps the resolution date, resolving sets it, going back to work clears both dates. |
| TicketAggregate.Ticket.PullDomainEvents | src/shared-kernel/domain/aggregate-root.ts:30-34 | Hands over the buffered events and empties the buffer. |
| Persistence.Database.Finish | src/modules/ticketing/application/transactional.ts:28-51 | An error result or an exception leaves the committed tables as they were and comes out unchanged; a success commits everything or, if the connection drops, nothing. |
| Persistence.Database.Begin | src/infrastructure/prisma/prisma-transaction.manager.ts:37-46 | A transaction works on the committed tables as it finds them. |
| Persistence.Database.TakeNumber | src/modules/ticketing/infrastructure/persistence/prisma-ticket-number.generator.ts:34-54 | The first number of a tenant is 1 and leaves 2 in the counter; later ones hand out what the counter holds and add one. |
| Persistence.Database.SaveTicket | src/modules/ticketing/infrastructure/persistence/prisma-ticket.repository.ts:24-55 | An insert needs a free (tenant, number); an update leaves tenant, number, requester and creation date as stored. |
| Persistence.Database.AppendOutbox | src/infrastructure/prisma/prisma-outbox.writer.ts:29-61 | An empty batch does nothing, one that mixes tenants throws, any other is appended whole or not at all. |
| Persistence.Database.Claim | src/infrastructure/prisma/prisma-processed-messages.ts:33-53 | Answers true exactly when the (consumer, event) pair was not there, and then it is. |
| Persistence.Database.FindOverrides | src/modules/ticketing/infrastructure/persistence/prisma-sla.repository.ts:31-52 | Collects exactly the tenant's own rows, row by row. |
| Persistence.Database.RemovePolicy | src/modules/ticketing/infrastructure/persistence/prisma-sla.repository.ts:88-97 | Answers whether there was an override to remove, and leaves none. |
| Persistence.Database.SaveTimer | src/modules/ticketing/infrastructure/persistence/prisma-sla.repository.ts:109-131 | An insert needs a free (ticket, kind); an update writes the two outcome dates and nothing else. |
| Persistence.Database.FindRunning | src/modules/ticketing/infrastructure/persistence/prisma-sla.repository.ts:146-163 | Finds a running clock of that tenant, ticket and kind if there is one, and none otherwise. |
| TicketUseCases.RecordEvents | src/modules/ticketing/application/event-recorder.ts:27-36 | Drains the aggregate's buffer into the outbox, one new message id per event, in order. |
| TicketUseCases.CreateTicket | src/modules/ticketing/application/create-ticket.use-case.ts:45-86 | Commits number, row, audit entry and event together, or nothing, and answers which: granted exactly when both trimmed texts fit, and then stored and announced as asked for (Requests.Creates). |
| TicketUseCases.ChangeTicketStatus | src/modules/ticketing/application/change-ticket-status.use-case.ts:40-80 | Commits row, entry and event or nothing; asking for the current status writes nothing; granted and refused by the table of pairs (Requests.ChangesStatus). |
| TicketUseCases.AssignTicket | src/modules/ticketing/application/assign-ticket.use-case.ts:48-95 | Commits row, entry and event or nothing: unknown ticket, an assignee who is no member and a closed ticket are told apart in that order (Requests.Assigns). |
| TicketUseCases.AddComment | src/modules/ticketing/application/add-comment.use-case.ts:50-110 | Commits comment, row, entry and event, or nothing; what is stored is what was typed, trimmed (Requests.Comments). |
| TicketUseCases.AutoAssignTicket | src/modules/ticketing/application/auto-assign-ticket.use-case.ts:73-140 | Commits the claim and, only if nobody is assigned, the ticket is open to it and there are agents, the assignment; what it skips is final and keeps the claim; each answer has its own cause (Requests.AutoAssigns). |
| Requests.CreateGrants | src/modules/ticketing/application/create-ticket.use-case.ts:45-86 | A creation that is granted stores trimmed subject, trimmed description, priority, requester and tenant as asked for, under the counter's number, with one entry by the requester and one message that announces that subject and priority; it is refused for the first text that does not have 1 to 200, or 1 to 10000, code units. |
| Requests.TransitionsAre | src/modules/ticketing/domain/ticket-status.ts:43-60 | The changes of status that are granted are six pairs, reopening and returning to the queue among them, and only a closed ticket is final. |
| Requests.ChangeStatusGrants | src/modules/ticketing/application/change-ticket-status.use-case.ts:40-80 | A change of status is granted exactly for those pairs, or for the status there is; it moves status and dates of that row alone, with one entry by whoever asked and one message from the old status to the new. |
| Requests.AssignGrants | src/modules/ticketing/application/assign-ticket.use-case.ts:48-95 | Assigning by hand is granted exactly on a ticket that is not closed and, if somebody is named, for a member; the row has that assignee, and entry and message name who did it and to whom. |
| Requests.CommentGrants | src/modules/ticketing/application/add-comment.use-case.ts:50-110 | A comment is granted exactly on a ticket that is not closed and with a trimmed body of 1 to 10000 code units; it is stored with that body, author and ticket, and the message carries the author's role. |
| Requests.AutoAssignGrants | src/modules/ticketing/application/auto-assign-ticket.use-case.ts:73-140 | The system assigns exactly when it sees the event for the first time, nobody is assigned, the ticket is not closed and there are agents; every other answer leaves row, trail and outbox alone. |
| Assignments.DeliveryFillsIn | src/modules/ticketing/application/auto-assign-ticket.use-case.ts:106-116 | A `ticket.created` job delivered in any state with the invariant assigns its ticket if and only if it is unclaimed, unassigned and not closed and there are agents, to the agent whose turn its number is; otherwise row, trail and outbox do not move: an assignment made by hand wins. |
| Assignments.StepMoves | src/modules/ticketing/application/assign-ticket.use-case.ts:48-95 | No transaction moves an assignment but one by hand, to a member or to nobody, or a delivery to one of the agents where there was none. |
| Assignments.OnlyAHandMoves | src/modules/ticketing/application/auto-assign-ticket.use-case.ts:106-109 | Over any run, an assignment that is there and later is another or gone was moved by a command that assigns that ticket by hand. |
| Assignments.AssigneeWasChosen | src/modules/ticketing/application/assign-ticket.use-case.ts:62-70 | Over any run from an empty database, whoever a ticket is with was a member somebody assigned it to, or an agent a delivery gave it to when nobody had it; and nothing has moved it since. |
| SlaUseCases.StartSlaTimers | src/modules/ticketing/application/sla/start-sla-timers.use-case.ts:52-98 | Commits the claim and one clock of each kind, on the minutes in force, or nothing (SlaRequests.Starts). |
| SlaUseCases.SaveClocks | src/modules/ticketing/application/sla/start-sla-timers.use-case.ts:77-93 | The loop over the kinds saves exactly one clock per kind, or breaks when the ticket is missing or already has one. |
| SlaUseCases.StopSlaTimer | src/modules/ticketing/application/sla/stop-sla-timer.use-case.ts:51-91 | Commits the claim and the stop of the running clock, or nothing (SlaRequests.Stops). |
| SlaUseCases.MarkSlaBreached | src/modules/ticketing/application/sla/mark-sla-breached.use-case.ts:51-116 | Commits clock, entry and event or nothing, after checking everything again under its own clock reading; each answer has its own cause (SlaRequests.Breaches). |
| SlaUseCases.UpdateSlaPolicy | src/modules/ticketing/application/sla/update-sla-policy.use-case.ts:52-105 | Commits override and audit entry, or nothing; the minutes typed are those in force from then on (SlaRequests.Updates). |
| SlaUseCases.ResetSlaPolicy | src/modules/ticketing/application/sla/reset-sla-policy.use-case.ts:38-73 | Commits removal and, if something was removed, the entry, or nothing; the defaults are in force again (SlaRequests.Resets). |
| SlaRequests.StartGrants | src/modules/ticketing/application/sla/start-sla-timers.use-case.ts:52-98 | A start is granted exactly the first time on a stored ticket without clocks; it leaves one clock of each kind, running from the instant of the event and due so many times 60000 ms later as the tenant's own minutes or the defaults say; any other clock stays. |
| SlaRequests.StopGrants | src/modules/ticketing/application/sla/stop-sla-timer.use-case.ts:51-91 | A first stop dates the running clock of that ticket and kind with the instant of the event and answers what was left to the nearest minute; without such a clock only the claim is written. |
| SlaRequests.BreachGrants | src/modules/ticketing/application/sla/mark-sla-breached.use-case.ts:51-116 | A clock is marked exactly when it is stored for that tenant, has no outcome, is due by this reading and has its ticket; entry and message tell its kind, deadline, assignee and priority. |
| SlaRequests.UpdateGrants | src/modules/ticketing/application/sla/update-sla-policy.use-case.ts:52-105 | An update is granted exactly for whole minutes from 1 to 525600 with no resolution before a response; they are then in force for that tenant and priority and nothing changes for any other; the entry names who did it and what was in force before. |
| SlaRequests.ResetGrants | src/modules/ticketing/application/sla/reset-sla-policy.use-case.ts:38-73 | A reset takes away the override of that tenant and priority and no other; it is audited, with who did it and what was in force before, exactly if there was one. |
| Numbering.GaplessNext | src/modules/ticketing/infrastructure/persistence/prisma-ticket-number.generator.ts:20-33 | A new ticket on the counter's number finds that number free and extends the series by one. |
| Numbering.NumberingStep | src/modules/ticketing/infrastructure/persistence/prisma-ticket-number.generator.ts:34-54 | Every transaction keeps each tenant's numbers exactly those below its counter, each used once. |
| Invariants.NumbersAreGapless | src/modules/ticketing/infrastructure/persistence/prisma-ticket-number.generator.ts:16-33 | In every reachable state the numbers of a tenant's tickets are exactly 1..n and no two tickets share one. |
| CreationLocks.LocksRefine | src/modules/ticketing/application/create-ticket.use-case.ts:45-86 | Any interleaving of creation statements, waits for the counter lock, commits and aborts comes down to whole transactions in commit order. |
| CreationLocks.CommitIsCreate | src/modules/ticketing/application/create-ticket.use-case.ts:50-85 | A commit adds exactly what the whole creation would, run at once on the tables as they are when it commits. |
| CreationLocks.GaplessUnderLocks | src/modules/ticketing/infrastructure/persistence/prisma-ticket-number.generator.ts:31-33 | However creations interleave and wherever they abort, the committed numbers of each tenant are exactly 1..n, each used once. |
| CreationLocks.AbortGivesBack | src/modules/ticketing/application/create-ticket.use-case.ts:51-53 | While a number is held nobody else of that tenant can reserve; after an abort the next to reserve is handed the same number. |
| CreationLocks.CommitMovesOn | src/modules/ticketing/infrastructure/persistence/prisma-ticket-number.generator.ts:25-27 | After a commit the next to reserve is handed the number after it. |
| CreationLocks.SaveNeverClashes | src/modules/ticketing/infrastructure/persistence/prisma-ticket.repository.ts:24-42 | While a number is held the unique index on it cannot be hit: saving fails for a bad text only, and exactly then. |
| CreationLocks.NoDeadlock | src/modules/ticketing/infrastructure/persistence/prisma-ticket-number.generator.ts:31-33 | Whoever cannot get the lock, its holder can take its next statement at once, commit, or has only to abort a bad text. |
| CreationLocks.OthersLeaveCounters | src/modules/ticketing/infrastructure/persistence/prisma-ticket-number.generator.ts:34-54 | No transaction but a creation moves a counter. |
| Consumers.Processor.Process | src/modules/ticketing/infrastructure/queue/sla.processor.ts:79-196 | One attempt moves the database by the action's whole effect or not at all, and then reports failure; only a discard touches the dead letters, and it is done only once the job is among them. |
| Consumers.Processor.OnFailed | src/modules/ticketing/infrastructure/queue/ticket-routing.processor.ts:123-140 | A failed job is buried only when its attempts are used up, and then it is unless that addition throws, once per id. |
| Consumers.RoutedIffUseful | src/infrastructure/queue/queues.ts:31-42 | An event as this system writes it is routed to a consumer exactly when that consumer does not discard it. |
| Invariants.NothingIsDiscarded | src/modules/ticketing/infrastructure/queue/ticket-routing.processor.ts:70-84 | No event in any reachable outbox is discarded by a consumer it is routed to. |
| Idempotency.EffectivelyOnce | src/infrastructure/prisma/prisma-processed-messages.ts:33-53 | For any sequence of deliveries, repeats, aborted attempts and other transactions, the final state is that of the sequence without the aborted ones and without every delivery after the first. |
| Idempotency.AtMostOneEffect | prisma/migrations/20260909200000_outbox_publisher/migration.sql:23-25 | Over any such sequence a (consumer, event) pair has at most one committed effect, none if it was claimed before. |
| Idempotency.RepeatIsNoop | src/infrastructure/prisma/prisma-processed-messages.ts:33-53 | A delivery whose pair is claimed changes nothing whatever. |
| Idempotency.DeliveryClaims | src/infrastructure/prisma/prisma-processed-messages.ts:33-53 | A delivery leaves its own pair claimed and no other pair changes. |
| DeliveryLocks.DeliveriesRefine | src/infrastructure/prisma/prisma-processed-messages.ts:33-53 | Deliveries open at the same time, each inserting its claim, waiting for whoever holds the same one, committing or aborting in any order, come down to whole deliveries one after the other in commit order. |
| DeliveryLocks.StepIsCommand | prisma/migrations/20260909200000_outbox_publisher/migration.sql:23-25 | A commit is exactly the whole delivery run at once on the tables as they are then; waiting, claiming and aborting change no table. |
| DeliveryLocks.SecondWaits | src/infrastructure/prisma/prisma-processed-messages.ts:33-53 | While one delivery holds a claim another of the same event waits; if the first commits the second finds it and skips, if it aborts the second acts. |
| DeliveryLocks.OneActs | prisma/migrations/20260909200000_outbox_publisher/migration.sql:23-25 | However many deliveries of an event are open at once, at most one ever acts, and exactly one does once the claim is stored. |
| Idempotency.CreationFindsNoClocks | src/modules/ticketing/application/sla/start-sla-timers.use-case.ts:52-98 | A creation not yet consumed finds its ticket without clocks, so the unique index never makes it fail. |
| Idempotency.FirstStartSetsDeadlines | src/modules/ticketing/application/sla/start-sla-timers.use-case.ts:70-93 | However late, the first start gives the ticket both clocks from its creation date, on the minutes its tenant has in force for its priority. |
| RoundRobin.Balanced | src/modules/ticketing/application/auto-assign-ticket.use-case.ts:96-137 | With a fixed list of k agents and no manual assignment or early closing, once tickets 1..n are auto-assigned in any order and any number of times, the agent at place j holds exactly ceil((n - j) / k) of them. |
| RoundRobin.LoadsDifferByOne | src/modules/ticketing/application/auto-assign-ticket.use-case.ts:111-116 | So the loads of any two agents differ by at most one. |
| RoundRobin.InTurnRun | src/modules/ticketing/application/auto-assign-ticket.use-case.ts:73-140 | Along such runs every ticket is either with the agent whose turn its number is, or still unassigned, open to assignment and unconsumed. |
| RoundRobin.ShareIs | src/modules/ticketing/application/auto-assign-ticket.use-case.ts:116 | An agent's share is the quotient, plus one for the first n mod k places. |
| SlaPolicy.MakeSlaTarget | src/modules/ticketing/domain/sla/sla-policy.ts:75-106 | Lets a pair of numbers through exactly when they are whole minutes from 1 to a year with no resolution before a response, and then unchanged. |
| SlaPolicy.PoliciesAgree | src/modules/ticketing/domain/sla/sla-policy.ts:44-60 | The resolved policy and the effective list always agree: every priority is listed once, in its place, with the same minutes, and marked as the organisation's exactly when overridden. |
| SlaPolicy.ResolvedIsValid | src/modules/ticketing/domain/sla/sla-policy.ts:31-60 | Valid overrides over the defaults resolve to a valid target for every priority. |
| SlaPolicy.DefaultsTighten | src/modules/ticketing/domain/sla/sla-policy.ts:31-36 | The defaults are valid and strictly shorter for each more urgent priority, from 8 and 72 hours down to 15 minutes and 4 hours. |
| Invariants.PolicyIsAudited | src/modules/ticketing/application/sla/update-sla-policy.use-case.ts:64-104 | In every reachable state the target in force for a tenant and priority is the one its audit trail leaves, and the trail is a chain. |
| PolicyTrail.ChainedNeighbours | src/modules/ticketing/application/sla/update-sla-policy.use-case.ts:71-98 | Each entry's minutes before are the previous entry's minutes after; the first's are the defaults. |
| PolicyTrail.TrailStep | src/modules/ticketing/application/sla/reset-sla-policy.use-case.ts:38-73 | Every transaction keeps stored overrides equal to the replay of the trail; a reset that removes nothing is not audited. |
| PolicyTrail.UpdateAnswersTheNextRead | src/modules/ticketing/application/sla/update-sla-policy.use-case.ts:99-104 | The list an update answers with is the list the next read gives. |
| PolicyTrail.ResetIsIdempotent | src/modules/ticketing/application/sla/reset-sla-policy.use-case.ts:38-73 | A reset leaves the default in force, and doing it again changes nothing and answers the same. |
| SlaTimer.Timer.Stop | src/modules/ticketing/domain/sla/sla-timer.entity.ts:91-94 | Stops a running clock; a clock with an outcome does not change. |
| SlaTimer.Timer.MarkBreached | src/modules/ticketing/domain/sla/sla-timer.entity.ts:101-105 | Breaches a running clock and says so; a clock with an outcome does not change. |
| SlaTimer.MarginIsNearest | src/modules/ticketing/domain/sla/sla-timer.entity.ts:108-112 | The margin is within 30 seconds of the true difference. |
| SlaTimer.MarginNeverGrows | src/modules/ticketing/domain/sla/sla-timer.entity.ts:200-202 | Time only shortens a margin. |
| SlaTimer.RunningMarginFallsFromTarget | src/modules/ticketing/domain/sla/sla-timer.entity.ts:174-204 | A clock shows its whole target in minutes when it starts and never more as time passes. |
| SlaTimer.StoppedMarginIsFrozen | src/modules/ticketing/domain/sla/sla-timer.entity.ts:167-204 | A stopped clock shows the margin of the instant it stopped, whenever one looks and whatever is tried on it later. |
| SlaTimer.BreachedMarginIsFrozen | src/modules/ticketing/domain/sla/sla-timer.entity.ts:174-204 | Likewise a breached one, and it never shows a positive margin. |
| Invariants.ShownMarginIsFinal | src/modules/ticketing/domain/sla/sla-timer.entity.ts:174-204 | The same for every stored clock of every reachable state. |
| SlaTransactions.StopAnswersTheMargin | src/modules/ticketing/application/sla/stop-sla-timer.use-case.ts:84-88 | The margin a stop answers with is the one the clock shows from then on. |
| Invariants.ClocksAreHealthy | src/modules/ticketing/application/sla/start-sla-timers.use-case.ts:70-93 | A ticket has no clock or exactly one of each kind, the response deadline not after the resolution one; each starts at the ticket's creation, is due a whole number of minutes (1 to a year) later, has at most one outcome and is not breached early. |
| Invariants.ClocksNeverMove | src/modules/ticketing/infrastructure/persistence/prisma-sla.repository.ts:123-128 | Over any further run a clock keeps ticket, start and deadline, and its outcome with its first date once it has one. |
| Clocks.TimersStep | src/modules/ticketing/application/sla/start-sla-timers.use-case.ts:52-98 | Every transaction keeps the clocks in that shape. |
| Clocks.RecordStep | src/modules/ticketing/infrastructure/queue/sla.processor.ts:79-196 | Every transaction keeps each clock's start and stop equal to what the processed messages, read in order, say of it. |
| ClockOrder.RunsOnIff | src/modules/ticketing/application/sla/stop-sla-timer.use-case.ts:72-82 | A clock that was never breached is still running if and only if every stop consumed so far was consumed before its start. |
| ClockOrder.InOrderStopsAtFirst | src/modules/ticketing/infrastructure/queue/sla.processor.ts:98-196 | Consumed in outbox order and to the end, the record stops a clock at the first message that is a stop. |
| OutOfOrder.OutOfOrderRunsOn | src/modules/ticketing/application/sla/stop-sla-timer.use-case.ts:77-82 | Out of order it need not: any ticket, created and then resolved, with the resolution delivered before the creation, ends resolved with every message consumed and its resolution clock stored running. |
| ClockOrder.StopsAre | src/modules/ticketing/infrastructure/queue/sla.processor.ts:124-196 | What stops a resolution clock is the ticket reaching RESOLVED, what stops a response clock is a comment by AGENT or ADMIN, and nothing else does. |
| Invariants.ResolvedClockIsSettled | src/modules/ticketing/infrastructure/queue/sla.processor.ts:167-196 | A resolved or closed ticket whose SLA messages were consumed in outbox order has a resolution clock that is not running: breached, or stopped at its first resolution. |
| Invariants.EverResolvedClockIsSettled | src/modules/ticketing/infrastructure/queue/sla.processor.ts:167-196 | So has any ticket that ever was resolved, reopened or not. |
| Invariants.AnsweredClockIsSettled | src/modules/ticketing/infrastructure/queue/sla.processor.ts:124-166 | And any ticket an agent or administrator commented on, for its response clock and the first such comment. |
| Invariants.BreachesAreCounted | src/modules/ticketing/application/sla/mark-sla-breached.use-case.ts:84-113 | A ticket's breach events, breach audit entries and breached clocks are equally many, and each breached clock has one event with its kind, deadline and instant. |
| Breaches.BreachTellingStep | src/modules/ticketing/application/sla/mark-sla-breached.use-case.ts:84-111 | Every transaction keeps one breach event per breached clock and none for any other. |
| Breaches.TotalsStep | src/modules/ticketing/application/sla/mark-sla-breached.use-case.ts:84-111 | Every transaction keeps the two counts equal for every ticket. |
| TimerRaces.NeverBoth | src/modules/ticketing/infrastructure/persistence/prisma-sla.repository.ts:109-131 | However reads, writes, commits and aborts of stops and breaches interleave, no stored clock has both outcomes, none is breached early and none moves its start or deadline. |
| TimerRaces.StoredClocksAreFit | src/modules/ticketing/infrastructure/persistence/prisma-sla.repository.ts:109-131 | The clocks of any state with the invariant are a fit start for such a race. |
| TimerRaces.CommitAbsorbsIff | src/modules/ticketing/infrastructure/persistence/prisma-sla.repository.ts:123-128 | A commit keeps the outcome a clock already has if and only if the clock is still as it was read or the same outcome is written again. |
| TimerRaces.UndisturbedIsFinal | src/modules/ticketing/application/sla/mark-sla-breached.use-case.ts:32-40 | If every commit finds the clock as it was read, stopped and breached are final with their first date. |
| TimerRaces.OverlapLosesAStop | src/modules/ticketing/application/sla/mark-sla-breached.use-case.ts:32-40 | Otherwise not: a sweep that read a clock before it was stopped overwrites the committed stop with a breach. |
| Sweep.DueTimers | prisma/migrations/20260909220000_sla/migration.sql:124-140 | The due list holds, without repeats, the longest overdue running clocks, as many as there are up to the limit. |
| Sweep.SlaSweeper.Sweep | src/modules/ticketing/infrastructure/sla/sla-sweeper.service.ts:70-97 | Goes through the due list clock by clock, each with its own verdict on the tables as other transactions have left them by then, and answers how many clocks it marked. |
| Sweep.CountsWhatItMarked | src/modules/ticketing/infrastructure/sla/sla-sweeper.service.ts:76-97 | The answer counts no clock twice: it is the number of clocks marked. |
| Sweep.MarksStay | src/modules/ticketing/infrastructure/sla/sla-sweeper.service.ts:81-94 | A clock the sweep marked was running and past its deadline at the reading of its verdict, and is breached with that date whatever commits meanwhile. |
| Sweep.CalmSweepSettles | src/modules/ticketing/infrastructure/sla/sla-sweeper.service.ts:70-97 | If nothing throws and no reading is behind, no listed clock is left running, whoever settled it. |
| Sweep.QuietSweepIsExact | src/modules/ticketing/infrastructure/sla/sla-sweeper.service.ts:70-97 | With nothing else committing, the sweep changes listed clocks only, each marked one by a breach at a reading not before its deadline, and answers exactly how many changed. |
| Sweep.SlaSweeper.Judge | src/modules/ticketing/infrastructure/sla/sla-sweeper.service.ts:81-94 | One clock, one transaction: its whole verdict or, if it throws, nothing. |
| Sweep.BacklogDrops | src/modules/ticketing/infrastructure/sla/sla-sweeper.service.ts:70-97 | Whatever else commits during a sweep that is not disturbed by failures, if no clock is started meanwhile, the backlog n drops by min(limit, n) at least, to due clocks that were not listed. |
| Sweep.QuietBacklog | src/modules/ticketing/infrastructure/sla/sla-sweeper.service.ts:70-97 | With nothing else committing it leaves exactly the others due: the drop is min(limit, n). |
| SweepBacklog.SweepsClearBacklog | src/modules/ticketing/infrastructure/sla/sla-sweeper.service.ts:70-97 | Over such sweeps, with other transactions during and between them but nothing newly due, a backlog of n is gone after ceil(n / limit) of them at the latest. |
| SweepBacklog.QuietSweepsClearExactly | src/modules/ticketing/infrastructure/sla/sla-sweeper.service.ts:70-97 | With nothing else committing it is gone after m of them exactly when m is at least ceil(n / limit). |
| Sweep.OwnedByInvariant | src/modules/ticketing/application/sla/mark-sla-breached.use-case.ts:73-82 | In every state with the invariant each clock has its ticket, so the last of the re-checks never skips one. |
| Sweep.VerdictKeepsInv | src/modules/ticketing/infrastructure/sla/sla-sweeper.service.ts:81-88 | A verdict is one transaction of the machine, so it keeps every invariant. |
| Sweep.TurnsKeepInv | src/modules/ticketing/infrastructure/sla/sla-sweeper.service.ts:76-94 | So every invariant holds at every turn of a sweep and after it. |
| OutboxRuns.NoEventIsLost | src/infrastructure/outbox/outbox-publisher.service.ts:84-160 | Under any interleaving of publishers, enqueue failures and crashes: a published row has reached every queue it is for with exactly its data, queues hold nothing else, no row is held by two transactions, attempts stay within the maximum. |
| OutboxRuns.RunKeeps | src/infrastructure/outbox/outbox-reader.ts:54-93 | Over any run messages keep place and content, a published row stays published with its date, attempts and queues only grow. |
| OutboxRuns.CrashGivesBack | src/infrastructure/outbox/outbox-publisher.service.ts:41-46 | A crash leaves rows and jobs as they are and every row the publisher held can be claimed again. |
| OutboxRuns.CommitLowersWork | src/infrastructure/outbox/outbox-publisher.service.ts:84-114 | A committed batch lowers the attempts left over claimable rows by at least the rows it claimed. |
| OutboxRuns.DealtIsBounded | src/infrastructure/outbox/outbox-publisher.service.ts:84-114 | Over any run of any publishers the rows dealt with by committed batches never exceed the attempts left at the start plus the maximum for every message appended. |
| OutboxRuns.DrainedIff | prisma/migrations/20260909230000_outbox_request_id/migration.sql:66-74 | With nobody else publishing, a claim can come back empty if and only if every row is published or at the maximum. |
| OutboxMachine.SysStep | src/infrastructure/outbox/outbox-publisher.service.ts:84-160 | Every step of any publisher keeps the invariant. |
| OutboxMachine.ClaimKeeps | prisma/migrations/20260909230000_outbox_request_id/migration.sql:66-74 | Claiming the oldest pending unlocked rows keeps claims of different transactions disjoint. |
| OutboxMachine.ClaimTakesOldest | prisma/migrations/20260909230000_outbox_request_id/migration.sql:66-74 | Along any claim instants never decrease, ids grow where they are equal, and every waiting row left out comes after every claimed one, which only happens when the limit is reached. |
| OutboxMachine.MarkedRow | prisma/migrations/20260909200000_outbox_publisher/migration.sql:120-146 | A commit changes the rows its batch holds and no other: each is published, and then every queue has it, or has one attempt more. |
| OutboxPublisher.MarksAreCommit | prisma/migrations/20260909200000_outbox_publisher/migration.sql:120-146 | The statements that mark failures one by one and publications together amount to that commit. |
| OutboxPublisher.Backends.Claim | prisma/migrations/20260909230000_outbox_request_id/migration.sql:46-76 | Locks and returns the oldest rows that wait, in the order of their instants and ids, up to the limit: none is left out while a younger one is taken; it is a step of the machine. |
| OutboxPublisher.OutboxPublisher.Enqueue | src/infrastructure/outbox/outbox-publisher.service.ts:116-160 | Succeeds only when every queue has the message, fails for an unregistered queue, and has no other reason when no addition throws; one that throws may have delivered all the same. |
| OutboxPublisher.OutboxPublisher.PublishOne | src/infrastructure/outbox/outbox-publisher.service.ts:93-108 | A message that cannot be enqueued gets one attempt more and does not hold up the next. |
| OutboxPublisher.OutboxPublisher.PublishPending | src/infrastructure/outbox/outbox-publisher.service.ts:84-114 | A tick is a run of the machine; it claims the oldest rows that wait and answers their number, each claimed row is published or has one attempt more, no other row changes, the work left drops by that number; if the database fails the table is as it was; either way whatever is marked published every queue it is for has, whole. |
| OutboxPublisher.OutboxPublisher.DrainAll | src/infrastructure/outbox/outbox-publisher.service.ts:84-114 | Ticking until one claims nothing ends, with every row published or at the maximum; if no addition throws and the queues are registered, every row that had attempts left ends published. |
| EndToEnd.WorldHolds | src/infrastructure/outbox/outbox-publisher.service.ts:33-46 | Over any run of requests, sweeps, publishers and deliveries together, the tables stay reachable, the outbox mirrors them and the outbox invariant holds. |
| EndToEnd.EveryEventArrives | src/infrastructure/queue/queues.ts:31-42 | In that run, once an event's row is published every queue it is routed to has received it as it was written. |
| EndToEnd.HandedIsEnabled | src/infrastructure/outbox/outbox-publisher.service.ts:124-148 | Whatever a queue hands over is a message of the outbox, unchanged and routed to it. |
| EndToEnd.HandedTwiceActsOnce | src/infrastructure/outbox/outbox-publisher.service.ts:41-46 | However often a job was enqueued and is handed over, its first complete delivery claims its event and every later one changes nothing. |
| RefreshFamilies.AtMostOneUsable | src/modules/iam/application/refresh-tokens.use-case.ts:36-82 | Over any run of logins, refreshes and logouts, each cut short after any write, no family has two usable tokens. |
| RefreshFamilies.CallKeeps | src/modules/iam/application/refresh-tokens.use-case.ts:55-81 | Every call keeps it, however it ends. |
| RefreshFamilies.OneTokenPerIssue | src/modules/iam/application/session-issuer.ts:32-69 | Without crashes a family has one token for its login and one for each refresh that succeeded in it. |
| RefreshFamilies.RevokedFamilyNeverRefreshes | src/modules/iam/application/refresh-tokens.use-case.ts:55-59 | Once a reuse or a logout has revoked a family, no refresh with any of its tokens ever succeeds, crashes included. |
| RefreshFamilies.ReplayIsReuse | src/modules/iam/application/refresh-tokens.use-case.ts:19-26 | Presenting a token at any time after it was refreshed, whatever was called in between, is refused as reuse and leaves no usable token in the family, the newest included. |
| RefreshFamilies.RotatedKeeps | src/modules/iam/application/refresh-tokens.use-case.ts:73-74 | A crash between rotating and issuing leaves the family without a usable token. |
| RefreshFamilies.ReuseAndLogoutKill | src/modules/iam/application/logout.use-case.ts:23-42 | After an answered reuse or logout every token of the family is spent. |
| RefreshAnswers.RefreshIsGrantedIff | src/modules/iam/application/refresh-tokens.use-case.ts:36-82 | In any run an answered refresh is granted if and only if its token is stored for that tenant, neither rotated nor revoked, not yet at its date, and its owner is a member; reuse, an invalid token and lost membership each have exactly their own cause. |
| RefreshAnswers.CallChanges | src/modules/iam/application/refresh-tokens.use-case.ts:55-81 | A granted refresh dates the rotation of the old token and adds one fresh token for the same user and family with the date it was issued for; reuse and logout date the revocation of the tokens of that family not revoked yet; no other row changes. |
| RefreshAnswers.OtherFamiliesStay | src/modules/iam/infrastructure/persistence/prisma-refresh-token.repository.ts:48-72 | However a call ends, crashes included, tokens of every other family are as they were. |
| RefreshAnswers.UnknownChangesNothing | src/modules/iam/application/logout.use-case.ts:23-42 | A call that presents no stored token changes nothing, and a logout accepts it. |
| RefreshAnswers.LoginAdds | src/modules/iam/application/session-issuer.ts:32-69 | An answered login adds one fresh token of a family of its own and changes nothing else. |
| RefreshUseCases.RefreshTokens | src/modules/iam/application/refresh-tokens.use-case.ts:36-82 | Ends in one of the ways a refresh can end, in the order of its checks, with the answer its token's row calls for, and crashes only if a statement does. |
| RefreshUseCases.Logout | src/modules/iam/application/logout.use-case.ts:23-42 | Revokes the family of a stored token and accepts anything else. |
| RefreshUseCases.OpenSession | src/modules/iam/application/session-issuer.ts:32-69 | Opens a family of its own with one usable token, or nothing. |
| RefreshUseCases.Issue | src/modules/iam/application/session-issuer.ts:32-69 | Saves one fresh token in the given family, or in a new one. |
| RefreshUseCases.RefreshTokenRepository.FindByHash | src/modules/iam/infrastructure/persistence/prisma-refresh-token.repository.ts:28-40 | Finds the tenant's token with that hash if there is one. |
| RefreshUseCases.RefreshTokenRepository.MarkRotated | src/modules/iam/infrastructure/persistence/prisma-refresh-token.repository.ts:48-59 | Dates the rotation of a token not rotated yet and changes nothing else. |
| RefreshUseCases.RefreshTokenRepository.RevokeFamily | src/modules/iam/infrastructure/persistence/prisma-refresh-token.repository.ts:61-72 | Dates the revocation of every token of the family not revoked yet and changes nothing else. |
| Realtime.RoomsAreInjective | src/infrastructure/realtime/realtime.gateway.ts:43-52 | Room names tell any two audiences apart, whatever ticket id a client sends, if tenant ids have no colon. |
| Realtime.ColonBreaksRooms | src/infrastructure/realtime/realtime.gateway.ts:43-52 | With a colon they do not. |
| Realtime.TenantsNeverMix | src/infrastructure/realtime/realtime.gateway.ts:82-168 | Over any run in which handlers of new connections, disconnections, watches and deliveries fall between one another at every wait, a message reaches verified sockets of its tenant only, and an assignee or a breach reaches AGENT and ADMIN sockets only. |
| Realtime.NobodyIsLeftOut | src/infrastructure/realtime/realtime.gateway.ts:91-102 | The tenant room reaches exactly the tenant's open verified sockets, the staff room exactly those of them that are AGENT or ADMIN, each from the moment it joined. |
| Realtime.WatchingIsExact | src/infrastructure/realtime/realtime.gateway.ts:128-161 | Watching adds the socket to the receivers of that ticket of its own tenant and of no other audience; unwatching takes it out of that one only; an unregistered socket and an empty id watch nothing. |
| Realtime.UninterruptedEntry | src/infrastructure/realtime/realtime.gateway.ts:82-108 | A verified connection that nothing interrupts ends registered, in the tenant's room and, with the rank, in the staff room, and in no other. |
| Realtime.RegisteredClosedIff | src/infrastructure/realtime/realtime.gateway.ts:82-116 | A registered socket is a closed one if and only if it was closed while its handler was still running; no audience reaches it. |
| Realtime.ClosedYetRegistered | src/infrastructure/realtime/realtime.gateway.ts:82-108 | That can happen: the handler does not look whether its socket is still open. |
| Realtime.BroadcastIsRun | src/modules/ticketing/application/realtime/broadcast-ticket-event.use-case.ts:59-61 | Broadcasting an event is one step of that machine per delivery, in order. |
| Realtime.DeliveriesAreAddressed | src/modules/ticketing/application/realtime/broadcast-ticket-event.use-case.ts:65-157 | Deliveries stay in the event's tenant, go to the staff exactly when they are internal, and there is one exactly when the event is routed to the real-time queue. |
| Realtime.DeliveriesGoTo | src/modules/ticketing/application/realtime/broadcast-ticket-event.use-case.ts:65-157 | An opening goes to the tenant, a change of status to the tenant and to the ticket's followers, a comment to the followers, assignments and breaches to the staff, each once and nowhere else. |
| Realtime.ShownIsState | src/modules/ticketing/application/realtime/broadcast-ticket-event.use-case.ts:71-152 | What clients are shown of an event is the ticket as the event leaves it. |
| Realtime.RolesAreOrdered | src/modules/iam/domain/role.ts:20-33 | "At least this role" is a total order in which only AGENT and ADMIN reach AGENT. |
| RealtimeGateway.Gateway.HandleConnection | src/infrastructure/realtime/realtime.gateway.ts:82-84 | A new connection joins nothing and is not registered while its token is being verified. |
| RealtimeGateway.Gateway.AfterVerify | src/infrastructure/realtime/realtime.gateway.ts:86-93 | Without a principal the socket is closed; with one it joins its tenant's room and waits again. |
| RealtimeGateway.Gateway.AfterJoin | src/infrastructure/realtime/realtime.gateway.ts:98-107 | A socket with the rank joins the staff room and waits once more; then, or without it at once, it is registered. |
| RealtimeGateway.Gateway.HandleDisconnect | src/infrastructure/realtime/realtime.gateway.ts:110-116 | The gateway forgets a closed socket it had registered and no other. |
| RealtimeGateway.Gateway.Close | src/infrastructure/realtime/realtime.gateway.ts:187-191 | A closed socket is in no room and, if it was registered, no longer known; a handler of it that still runs goes on. |
| RealtimeGateway.Gateway.WatchTicket | src/infrastructure/realtime/realtime.gateway.ts:128-147 | Unknown sockets and empty or non-text ids are refused; otherwise the room joined is of the socket's own tenant. |
| RealtimeGateway.Gateway.UnwatchTicket | src/infrastructure/realtime/realtime.gateway.ts:149-161 | Leaves that room and no other. |
| RealtimeGateway.Gateway.Publish | src/infrastructure/realtime/realtime.gateway.ts:165-168 | Reaches exactly the sockets in the room by then. |
| RealtimeGateway.BroadcastTicketEvent | src/modules/ticketing/application/realtime/broadcast-ticket-event.use-case.ts:50-63 | Publishes every delivery of the event, in order, and answers how many there were. |
| TicketPages.Take | src/modules/ticketing/infrastructure/persistence/ticket.read-model.ts:110 | A page has room for as many tickets as asked for, at least 1 and at most 100. |
| TicketListing.PageIsAsAsked | src/modules/ticketing/infrastructure/persistence/ticket.read-model.ts:112-148 | One call lists stored tickets of the tenant only, with the status, the assignee and the requester asked for, newest first with ids breaking ties, a hundred at most. |
| TicketPages.PageIsExactIff | src/modules/ticketing/infrastructure/persistence/ticket.read-model.ts:124-129 | A page is what comes right after the cursor if and only if the cursor's ticket still passes the filter or nothing that passes it is left. |
| TicketPages.NothingTwice | src/modules/ticketing/infrastructure/persistence/ticket.read-model.ts:90-98 | Whatever changes between calls, what a client gathers is in order and nothing is listed twice. |
| TicketPages.SteadyExactlyOnce | src/modules/ticketing/infrastructure/persistence/ticket.read-model.ts:90-98 | A walk that ended listed every ticket that passed the filter all along exactly once, if every cursor still passed the filter when it was used. |
| LostTicket.LostWhileRunning | src/modules/ticketing/infrastructure/persistence/ticket.read-model.ts:125-128 | Without that proviso it can miss one: two list calls over two states of a run, between which the ticket of the first page leaves the status filter, skip an older ticket that is open all along. |
| TicketPages.FixedWalkIsListing | src/modules/ticketing/infrastructure/persistence/ticket.read-model.ts:112-148 | On a fixed table a walk that ended is the whole filtered list in order, in n / take + 1 calls. |
| TicketPages.OneMoreCall | src/modules/ticketing/infrastructure/persistence/ticket.read-model.ts:145-147 | A walk whose last page was full can always be gone on with by one more call. |
| TicketPages.EndsOnTime | src/modules/ticketing/infrastructure/persistence/ticket.read-model.ts:145-147 | It ends at call n / take + 1, neither before nor after. |
| TicketListing.WholeListWhenStill | src/modules/ticketing/infrastructure/persistence/ticket.read-model.ts:100-150 | Following nextCursor to its end over a fixed table lists exactly the tickets of the tenant with the status, the assignee and the requester asked for, newest first, in n / take + 1 calls, for every filter and every limit. |
| TicketListing.WholeListWhileRunning | src/modules/ticketing/infrastructure/persistence/ticket.read-model.ts:90-98 | Listing a tenant, or one requester, while the system runs: by the page without nextCursor every such ticket there was at the start has been listed exactly once, newest first, and nothing of another tenant or requester. |
| TicketListing.RunKeepsIdentity | src/modules/ticketing/infrastructure/persistence/prisma-ticket.repository.ts:43-52 | Over any run tickets stay, with their tenant, number, subject, description, priority, requester and creation date. |

## Left out

- HTTP controllers, request validation, guards, throttling, logging, health probes, configuration, seeds and deploy scripts: no hard property of their own.
- JWT signing, password hashing, the socket server and the queue server: tokens, rooms and queues are taken by what they promise.
- Row-Level Security policies, roles and grants; the tenant id stays part of every key and every lookup.
- Timers and scheduling of the publisher, the sweep and token expiry: when a tick, a sweep or a disconnection comes is not fixed.
- Nested `runTransactional`: the manager joins an open transaction, so an inner error rolls back only if the outer call fails too; no use case nests it.
- DeliveryLocks.DeliveriesRefine: only the claim is taken at statement grain; what a delivery reads and writes after that is taken at its commit. `TimerRaces` takes reads and writes of clocks apart.
- Interleavings of two updates of one ticket, or of two refreshes of one token: the code reads and then writes without row locks, so the properties above are for one after the other.
- Jobs with malformed payloads (missing number, priority, role or timestamps) and jobs of other aggregates, which the processors bury: the payloads here are typed.
- The text of stored errors and log lines, and the ids of audit entries and of jobs in the dead-letter queue beyond one per queue and event.
- Registration, login credentials, invitations, email and password rules, slugs and the ticket detail and history views: they would add easy members only.
- That a reply made in time is always shown as met, or that a stop delivered before its start still stops the clock: the code does not decide the first and does not do the second.
