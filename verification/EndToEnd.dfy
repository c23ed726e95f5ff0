/** The whole path of an event: written with the change it tells, published by any number of publishers,
    delivered any number of times by the queues, and consumed once.
 */
module EndToEnd {
  import opened Kernel
  import opened TicketDomain
  import opened Tables
  import opened Machine
  import opened Changes
  import opened Invariants
  import Consumers
  import Idempotency
  import Outbox = OutboxMachine

  /** The use cases' tables, and the outbox as its publishers see it. */
  datatype World = World(tables: Tables, site: Outbox.Sys)

  datatype Step =
    | Serve(command: Command)
    | Publish(step: Outbox.Step)
    | Hand(job: Outbox.Job, with: Consumers.Surroundings)

  /** A transaction that serves a request or a sweep is any command but a delivery; publishing is any step
      of the publishers; and a queue hands over, as often as it likes, a job it has received. */
  ghost predicate Can(w: World, step: Step) {
    match step
    case Serve(c) => !c.Deliver? && Enabled(w.tables, c)
    case Publish(step) => !step.Append? && Outbox.Can(w.site, step)
    case Hand(job, with) => job in w.site.jobs && FreshFor(w.tables, with)
  }

  /** Generated ids are new. */
  predicate FreshFor(t: Tables, with: Consumers.Surroundings) {
    && FindMessage(t.outbox, with.stamp.eventId).None?
    && with.responseId !in t.timers && with.resolutionId !in t.timers && with.responseId != with.resolutionId
  }

  /** What a transaction appends to the outbox is there for the publishers as soon as it commits. */
  ghost function Committed(w: World, c: Command): World {
    var after := Exec(w.tables, c);
    World(after, Caught(w.site, after.outbox))
  }

  function NewRows(outbox: seq<Message>, from: nat): seq<Outbox.Row> {
    if from >= |outbox| then [] else NewRows(outbox[..|outbox| - 1], from) + [Outbox.Row(outbox[|outbox| - 1], None, 0)]
  }

  ghost function After(w: World, step: Step): World
    requires Can(w, step)
  {
    match step
    case Serve(c) => Committed(w, c)
    case Publish(step) => w.(site := Outbox.After(w.site, step))
    case Hand(job, with) => Committed(w, Deliver(job.queue, job.data, with))
  }

  /** Use cases and publishers look at the same messages. */
  ghost predicate Mirrors(outbox: seq<Message>, rows: seq<Outbox.Row>) {
    |rows| == |outbox| && forall i :: 0 <= i < |rows| ==> rows[i].message == outbox[i]
  }

  ghost predicate WorldInv(w: World) {
    && Reachable(w.tables)
    && Mirrors(w.tables.outbox, w.site.rows)
    && Outbox.SysInv(w.site)
  }

  // ------------------------------------------------------------------- steps

  /** A transaction appends one message, under a new id, or none. */
  lemma OneMessageAtMost(t: Tables, c: Command)
    requires Enabled(t, c)
    ensures AtMostOneMore(t.outbox, Exec(t, c).outbox)
  {
    Classify(t, c);
  }

  lemma IsNewRow(outbox: seq<Message>, rows: seq<Outbox.Row>, id: Id)
    requires Mirrors(outbox, rows) && FindMessage(outbox, id).None?
    ensures Outbox.IsNew(rows, id)
  {
    FindMessageIsIn(outbox, id);
    forall i | 0 <= i < |rows| ensures rows[i].message.id != id {
      assert outbox[i] in outbox;
    }
  }

  lemma NoNewRows(outbox: seq<Message>)
    ensures NewRows(outbox, |outbox|) == []
  {
  }

  lemma OneNewRow(outbox: seq<Message>, m: Message)
    ensures NewRows(outbox + [m], |outbox|) == [Outbox.Row(m, None, 0)]
  {
  }

  predicate AtMostOneMore(outbox: seq<Message>, after: seq<Message>) {
    after == outbox || (|after| == |outbox| + 1 && after[..|outbox|] == outbox && FindMessage(outbox, after[|outbox|].id).None?)
  }

  function Caught(site: Outbox.Sys, outbox: seq<Message>): Outbox.Sys {
    site.(rows := site.rows + NewRows(outbox, |site.rows|))
  }

  lemma CatchingUp(site: Outbox.Sys, outbox: seq<Message>, after: seq<Message>)
    requires Mirrors(outbox, site.rows) && AtMostOneMore(outbox, after)
    ensures Mirrors(after, Caught(site, after).rows)
    ensures Caught(site, after) == site || exists m :: Outbox.Can(site, Outbox.Append(m)) && Caught(site, after) == Outbox.After(site, Outbox.Append(m))
  {
    if after == outbox {
      NoNewRows(outbox);
    } else {
      var m := after[|outbox|];
      assert after == outbox + [m];
      OneNewRow(outbox, m);
      IsNewRow(outbox, site.rows, m.id);
      assert Caught(site, after) == Outbox.After(site, Outbox.Append(m));
    }
  }

  /** For the publishers, a transaction is an append or nothing. */
  lemma CommitIsAppend(w: World, c: Command)
    requires Mirrors(w.tables.outbox, w.site.rows) && Enabled(w.tables, c)
    ensures Mirrors(Committed(w, c).tables.outbox, Committed(w, c).site.rows)
    ensures || Committed(w, c).site == w.site
            || exists m :: Outbox.Can(w.site, Outbox.Append(m)) && Committed(w, c).site == Outbox.After(w.site, Outbox.Append(m))
  {
    OneMessageAtMost(w.tables, c);
    CatchingUp(w.site, w.tables.outbox, Exec(w.tables, c).outbox);
  }

  /** A job some queue has received carries a message of the outbox, as it was written, and is routed to
      that queue: its delivery is one the machine of transactions allows. */
  lemma HandedIsEnabled(w: World, job: Outbox.Job, with: Consumers.Surroundings)
    requires WorldInv(w) && Can(w, Hand(job, with))
    ensures Enabled(w.tables, Deliver(job.queue, job.data, with))
    ensures job.jobId == job.data.id && FindMessage(w.tables.outbox, job.jobId) == Some(job.data)
  {
    assert Outbox.HasRow(w.site.rows, job.data);
    var i :| 0 <= i < |w.site.rows| && w.site.rows[i].message == job.data;
    assert w.tables.outbox[i] == job.data;
    OutboxIsUnique(w.tables);
    FindMessageOf(w.tables.outbox, job.data);
  }

  lemma OutboxIsUnique(t: Tables)
    requires Reachable(t)
    ensures UniqueMessages(t.outbox)
  {
    ReachableInv(t);
  }

  lemma CommitKeeps(w: World, c: Command)
    requires WorldInv(w) && Enabled(w.tables, c)
    ensures WorldInv(Committed(w, c))
  {
    StaysReachable(w.tables, c);
    CommitIsAppend(w, c);
    if Committed(w, c).site != w.site {
      var m :| Outbox.Can(w.site, Outbox.Append(m)) && Committed(w, c).site == Outbox.After(w.site, Outbox.Append(m));
      Outbox.SysStep(w.site, Outbox.Append(m));
    }
  }

  lemma PublishKeeps(w: World, step: Outbox.Step)
    requires WorldInv(w) && Can(w, Publish(step))
    ensures WorldInv(After(w, Publish(step)))
  {
    Outbox.SysStep(w.site, step);
  }

  lemma WorldStep(w: World, step: Step)
    requires WorldInv(w) && Can(w, step)
    ensures WorldInv(After(w, step))
  {
    match step
    case Serve(c) => CommitKeeps(w, c);
    case Publish(step) => PublishKeeps(w, step);
    case Hand(job, with) =>
      HandedIsEnabled(w, job, with);
      CommitKeeps(w, Deliver(job.queue, job.data, with));
  }

  // -------------------------------------------------------------------- runs

  function Start(maxAttempts: nat): World {
    World(EmptyTables, Outbox.Sys(maxAttempts, [], map[], {}))
  }

  ghost predicate CanRun(maxAttempts: nat, steps: seq<Step>)
    decreases |steps|, 0
  {
    |steps| > 0 ==> CanRun(maxAttempts, steps[..|steps| - 1]) && Can(WorldAfter(maxAttempts, steps[..|steps| - 1]), steps[|steps| - 1])
  }

  ghost function WorldAfter(maxAttempts: nat, steps: seq<Step>): World
    requires CanRun(maxAttempts, steps)
    decreases |steps|, 1
  {
    if |steps| == 0 then Start(maxAttempts) else After(WorldAfter(maxAttempts, steps[..|steps| - 1]), steps[|steps| - 1])
  }

  lemma {:induction false} WorldHolds(maxAttempts: nat, steps: seq<Step>)
    requires CanRun(maxAttempts, steps)
    ensures WorldInv(WorldAfter(maxAttempts, steps))
  {
    if |steps| == 0 {
      EmptyIsReachable();
    } else {
      var init := steps[..|steps| - 1];
      WorldHolds(maxAttempts, init);
      WorldStep(WorldAfter(maxAttempts, init), steps[|steps| - 1]);
    }
  }

  /** From the change to the queues, over any run: every event a ticket's row tells is a row of the outbox,
      and once that row is marked published every queue it is for has received it as it was written. */
  lemma EveryEventArrives(maxAttempts: nat, steps: seq<Step>, i: nat)
    requires CanRun(maxAttempts, steps) && i < |WorldAfter(maxAttempts, steps).tables.outbox|
    ensures var w := WorldAfter(maxAttempts, steps);
            var m := w.tables.outbox[i];
            && i < |w.site.rows|
            && (w.site.rows[i].publishedAt.Some? ==>
                  forall queue :: queue in QueuesFor(NameOf(m.event.payload)) ==> Outbox.Job(queue, m.id, m) in w.site.jobs)
  {
    WorldHolds(maxAttempts, steps);
    var w := WorldAfter(maxAttempts, steps);
    var m := w.tables.outbox[i];
    if w.site.rows[i].publishedAt.Some? {
      assert Outbox.EverywhereReceived(w.site.jobs, m);
      forall queue | queue in QueuesFor(NameOf(m.event.payload)) ensures Outbox.Job(queue, m.id, m) in w.site.jobs {
        var q :| 0 <= q < |Outbox.QueuesOf(m)| && Outbox.QueuesOf(m)[q] == queue;
      }
    }
  }

  /** From the queues to the effect: the first delivery of a job claims its event, and from then on no
      delivery of it, however often it was enqueued, changes the tables. */
  lemma HandedTwiceActsOnce(maxAttempts: nat, steps: seq<Step>, job: Outbox.Job, with: Consumers.Surroundings)
    requires CanRun(maxAttempts, steps) && Can(WorldAfter(maxAttempts, steps), Hand(job, with))
    requires Idempotency.CommandKey(Deliver(job.queue, job.data, with)).Some?
    ensures var t := WorldAfter(maxAttempts, steps).tables;
            var c := Deliver(job.queue, job.data, with);
            var key := Idempotency.CommandKey(c).value;
            && (Idempotency.HasClaim(t, key) ==> Exec(t, c) == t)
            && (!Idempotency.HasClaim(t, key) ==> Idempotency.HasClaim(Exec(t, c), key))
            && forall again :: Idempotency.HasClaim(Exec(t, c), key) && Exec(Exec(t, c), Deliver(job.queue, job.data, again)) == Exec(t, c)
  {
    WorldHolds(maxAttempts, steps);
    var w := WorldAfter(maxAttempts, steps);
    var t := w.tables;
    var c := Deliver(job.queue, job.data, with);
    var key := Idempotency.CommandKey(c).value;
    HandedIsEnabled(w, job, with);
    ReachableInv(t);
    Idempotency.DeliveryClaims(t, c, key);
    if Idempotency.HasClaim(t, key) { Idempotency.RepeatIsNoop(t, c); }
    forall again ensures Exec(Exec(t, c), Deliver(job.queue, job.data, again)) == Exec(t, c) {
      Idempotency.RepeatIsNoop(Exec(t, c), Deliver(job.queue, job.data, again));
    }
  }
}
