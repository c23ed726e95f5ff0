/** Deliveries at the grain of their claim: several workers have a delivery open at once, each inserts its
    (consumer, event) row, waits for whoever has inserted the same one and not ended yet, and goes on once
    that one commits or aborts. What it does after its claim is taken at its commit. Every run comes down to whole
    deliveries, in commit order.
 */
module DeliveryLocks {
  import opened Kernel
  import opened TicketDomain
  import opened Tables
  import opened Consumers
  import opened Machine
  import opened Invariants
  import opened Idempotency

  /** Not inserted yet; inserted, which holds the key until the end; or found committed, so nothing to do. */
  datatype Claiming = NotYet | Holding | Skipping

  /** An open delivery: the command it would be if it ran whole, and how its claim went. */
  datatype Delivery = Delivery(command: Command, key: Key, claiming: Claiming)

  datatype Floor = Floor(db: Tables, open: map<Id, Delivery>)

  const IdleFloor: Floor := Floor(EmptyTables, map[])

  datatype Step =
    | Begin(tx: Id, command: Command)
    | Insert(tx: Id)
    | Commit(tx: Id)
    | Abort(tx: Id)
    | Other(command: Command)

  /** No other open delivery has inserted this row. */
  predicate KeyFree(open: map<Id, Delivery>, key: Key) {
    forall tx :: tx in open && open[tx].claiming == Holding ==> open[tx].key != key
  }

  /** The insert answers at once when the row is committed or nobody holds it; otherwise it waits. A commit
      goes on as long as the ids the delivery generated are still new; so does any other transaction. */
  ghost predicate Can(s: Floor, step: Step) {
    match step
    case Begin(tx, c) => tx !in s.open && CommandKey(c).Some?
    case Insert(tx) => tx in s.open && s.open[tx].claiming == NotYet && (HasClaim(s.db, s.open[tx].key) || KeyFree(s.open, s.open[tx].key))
    case Commit(tx) => tx in s.open && s.open[tx].claiming != NotYet && Enabled(s.db, s.open[tx].command)
    case Abort(tx) => tx in s.open
    case Other(c) => CommandKey(c).None? && Enabled(s.db, c)
  }

  /** A delivery that skips writes nothing; one that holds its key does what a first delivery does. */
  ghost function After(s: Floor, step: Step): Floor
    requires Can(s, step)
  {
    match step
    case Begin(tx, c) => s.(open := s.open[tx := Delivery(c, CommandKey(c).value, NotYet)])
    case Insert(tx) => s.(open := s.open[tx := s.open[tx].(claiming := if HasClaim(s.db, s.open[tx].key) then Skipping else Holding)])
    case Commit(tx) =>
      Floor(if s.open[tx].claiming == Skipping then s.db else Exec(s.db, s.open[tx].command), s.open - {tx})
    case Abort(tx) => s.(open := s.open - {tx})
    case Other(c) => s.(db := Exec(s.db, c))
  }

  // --------------------------------------------------------------- invariant

  /** A held key is not claimed yet, a skipped one is, and no key is held twice. */
  ghost predicate Coherent(open: map<Id, Delivery>, db: Tables) {
    && (forall tx :: tx in open ==> CommandKey(open[tx].command) == Some(open[tx].key))
    && (forall tx :: tx in open && open[tx].claiming == Holding ==> !HasClaim(db, open[tx].key))
    && (forall tx :: tx in open && open[tx].claiming == Skipping ==> HasClaim(db, open[tx].key))
    && (forall x, y :: x in open && y in open && x != y && open[x].claiming == Holding && open[y].claiming == Holding ==> open[x].key != open[y].key)
  }

  lemma ClaimsAfter(t: Tables, c: Command)
    requires Reachable(t) && Enabled(t, c)
    ensures forall key :: HasClaim(Exec(t, c), key) <==> HasClaim(t, key) || CommandKey(c) == Some(key)
  {
    ReachableInv(t);
    forall key ensures HasClaim(Exec(t, c), key) <==> HasClaim(t, key) || CommandKey(c) == Some(key) {
      DeliveryClaims(t, c, key);
    }
  }

  /** Taking another claim, or none, leaves everybody else's as it was. */
  lemma OthersCoherent(open: map<Id, Delivery>, db: Tables, after: Tables, claimed: Option<Key>)
    requires Coherent(open, db)
    requires forall key :: HasClaim(after, key) <==> HasClaim(db, key) || claimed == Some(key)
    requires forall tx :: tx in open && open[tx].claiming == Holding ==> claimed != Some(open[tx].key)
    ensures Coherent(open, after)
  {
  }

  lemma CommitCoherent(s: Floor, tx: Id)
    requires Reachable(s.db) && Coherent(s.open, s.db) && Can(s, Commit(tx))
    ensures Coherent(s.open - {tx}, After(s, Commit(tx)).db)
  {
    var d := s.open[tx];
    assert Coherent(s.open - {tx}, s.db);
    if d.claiming == Holding {
      ClaimsAfter(s.db, d.command);
      OthersCoherent(s.open - {tx}, s.db, Exec(s.db, d.command), Some(d.key));
    }
  }

  lemma StepCoherent(s: Floor, step: Step)
    requires Reachable(s.db) && Coherent(s.open, s.db) && Can(s, step)
    ensures Coherent(After(s, step).open, After(s, step).db)
  {
    match step
    case Commit(tx) => CommitCoherent(s, tx);
    case Other(c) =>
      ClaimsAfter(s.db, c);
      OthersCoherent(s.open, s.db, Exec(s.db, c), None);
    case _ =>
  }

  // -------------------------------------------------------------- refinement

  ghost function CommandOf(s: Floor, step: Step): Option<Command>
    requires Can(s, step)
  {
    match step
    case Commit(tx) => Some(s.open[tx].command)
    case Other(c) => Some(c)
    case _ => None
  }

  /** A commit is the whole delivery, run at once on the tables as they are then: a skipped one finds its
      claim still there. */
  lemma StepIsCommand(s: Floor, step: Step)
    requires Coherent(s.open, s.db) && Can(s, step)
    ensures match CommandOf(s, step)
            case Some(c) => Enabled(s.db, c) && After(s, step).db == Exec(s.db, c)
            case None => After(s, step).db == s.db
  {
    if step.Commit? && s.open[step.tx].claiming == Skipping {
      RepeatIsNoop(s.db, s.open[step.tx].command);
    }
  }

  ghost predicate CanRun(steps: seq<Step>)
    decreases |steps|, 0
  {
    |steps| > 0 ==> CanRun(steps[..|steps| - 1]) && Can(FloorAfter(steps[..|steps| - 1]), steps[|steps| - 1])
  }

  ghost function FloorAfter(steps: seq<Step>): Floor
    requires CanRun(steps)
    decreases |steps|, 1
  {
    if |steps| == 0 then IdleFloor else After(FloorAfter(steps[..|steps| - 1]), steps[|steps| - 1])
  }

  /** What a run has committed, in commit order. */
  ghost function Committed(steps: seq<Step>): seq<Command>
    requires CanRun(steps)
  {
    if |steps| == 0 then []
    else
      var init := steps[..|steps| - 1];
      match CommandOf(FloorAfter(init), steps[|steps| - 1])
      case Some(c) => Committed(init) + [c]
      case None => Committed(init)
  }

  /** Concurrent deliveries of the same and of other events come down to whole deliveries, one after the
      other: the tables are those of the run of the commands committed so far. */
  lemma {:induction false} DeliveriesRefine(steps: seq<Step>)
    requires CanRun(steps)
    ensures Coherent(FloorAfter(steps).open, FloorAfter(steps).db)
    ensures EnabledRun(EmptyTables, Committed(steps)) && FloorAfter(steps).db == Run(EmptyTables, Committed(steps))
  {
    if |steps| > 0 {
      var init, step := steps[..|steps| - 1], steps[|steps| - 1];
      DeliveriesRefine(init);
      var s := FloorAfter(init);
      ReachedBy(Committed(init));
      StepIsCommand(s, step);
      StepCoherent(s, step);
      match CommandOf(s, step)
      case Some(c) => RunAppend(EmptyTables, Committed(init), c);
      case None =>
    }
  }

  /** Two deliveries of one event never both act: while one holds its key the other waits; if the first
      commits the other skips and leaves the tables as they are, and if it aborts the other takes its place. */
  lemma SecondWaits(steps: seq<Step>, first: Id, second: Id)
    requires CanRun(steps)
    requires var open := FloorAfter(steps).open;
             first in open && second in open && first != second && open[first].key == open[second].key
             && open[first].claiming == Holding && open[second].claiming == NotYet
    ensures var s := FloorAfter(steps);
            && !Can(s, Insert(second))
            && Can(After(s, Abort(first)), Insert(second))
            && After(After(s, Abort(first)), Insert(second)).open[second].claiming == Holding
            && (Can(s, Commit(first)) ==>
                  var committed := After(s, Commit(first));
                  && Can(committed, Insert(second))
                  && After(committed, Insert(second)).open[second].claiming == Skipping)
  {
    DeliveriesRefine(steps);
    ReachedBy(Committed(steps));
    var s := FloorAfter(steps);
    var key := s.open[first].key;
    assert s.open[first].claiming == Holding;
    var aborted := After(s, Abort(first));
    assert KeyFree(aborted.open, key);
    if Can(s, Commit(first)) {
      ClaimsAfter(s.db, s.open[first].command);
      assert HasClaim(After(s, Commit(first)).db, key);
    }
  }

  /** How many deliveries with this key have committed while holding it. */
  ghost function Acted(steps: seq<Step>, key: Key): nat
    requires CanRun(steps)
  {
    if |steps| == 0 then 0
    else
      var init, step := steps[..|steps| - 1], steps[|steps| - 1];
      var open := FloorAfter(init).open;
      Acted(init, key) + if step.Commit? && open[step.tx].claiming == Holding && open[step.tx].key == key then 1 else 0
  }

  /** At most one delivery per key ever acts, however many are open at once; and its claim tells. */
  lemma {:induction false} OneActs(steps: seq<Step>, key: Key)
    requires CanRun(steps)
    ensures Acted(steps, key) <= 1
    ensures Acted(steps, key) == 1 <==> HasClaim(FloorAfter(steps).db, key)
  {
    if |steps| > 0 {
      var init, step := steps[..|steps| - 1], steps[|steps| - 1];
      OneActs(init, key);
      DeliveriesRefine(init);
      ReachedBy(Committed(init));
      ClaimsStep(FloorAfter(init), step);
    }
  }

  /** A step claims a key exactly when it is the commit of the delivery that holds it. */
  lemma ClaimsStep(s: Floor, step: Step)
    requires Reachable(s.db) && Coherent(s.open, s.db) && Can(s, step)
    ensures forall key :: HasClaim(After(s, step).db, key) <==>
                            HasClaim(s.db, key) || (step.Commit? && s.open[step.tx].claiming == Holding && s.open[step.tx].key == key)
  {
    if step.Commit? && s.open[step.tx].claiming == Holding {
      ClaimsAfter(s.db, s.open[step.tx].command);
    } else if step.Other? {
      ClaimsAfter(s.db, step.command);
    }
  }
}
