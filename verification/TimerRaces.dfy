/** Stopping and breaching a clock at the grain of their statements. Each reads the clock without locking
    it, writes back both outcome dates as it computed them, and commits; reads and writes of different
    transactions interleave freely. The row lock of an update only orders the writers.
 */
module TimerRaces {
  import opened Kernel
  import opened TicketDomain
  import opened Tables
  import opened Persistence
  import opened Clocks
  import SlaTimer

  datatype Purpose = ToStop(at: Time) | ToBreach(now: Time)

  /** An open transaction on one clock: the row it read and, once it has updated it, what it wrote. */
  datatype Attempted = Attempted(timerId: Id, purpose: Purpose, seen: TimerRow, wrote: Option<TimerRow>)

  datatype Race = Race(timers: map<Id, TimerRow>, open: map<Id, Attempted>)

  datatype Step =
    | Insert(id: Id, row: TimerRow)
    | Read(tx: Id, timerId: Id, purpose: Purpose)
    | Write(tx: Id)
    | Commit(tx: Id)
    | Abort(tx: Id)

  /** `findRunning` finds running clocks only; a breach goes on only with an overdue one. */
  predicate GoesAhead(row: TimerRow, purpose: Purpose) {
    match purpose
    case ToStop(_) => row.IsRunning()
    case ToBreach(now) => SlaTimer.IsOverdue(row, now)
  }

  function Computed(row: TimerRow, purpose: Purpose): TimerRow {
    match purpose
    case ToStop(at) => SlaTimer.Stopped(row, at)
    case ToBreach(now) => SlaTimer.Breached(row, now)
  }

  /** No other open transaction has updated this row. */
  predicate RowFree(open: map<Id, Attempted>, timerId: Id) {
    forall tx :: tx in open && open[tx].wrote.Some? ==> open[tx].timerId != timerId
  }

  predicate Can(s: Race, step: Step) {
    match step
    case Insert(id, row) => id !in s.timers && row.IsRunning()
    case Read(tx, timerId, purpose) => tx !in s.open && timerId in s.timers && GoesAhead(s.timers[timerId], purpose)
    case Write(tx) => tx in s.open && s.open[tx].wrote.None? && RowFree(s.open, s.open[tx].timerId)
    case Commit(tx) => tx in s.open && s.open[tx].wrote.Some?
    case Abort(tx) => tx in s.open
  }

  function After(s: Race, step: Step): Race
    requires Can(s, step)
  {
    match step
    case Insert(id, row) => s.(timers := WithTimer(s.timers, id, row))
    case Read(tx, timerId, purpose) => s.(open := s.open[tx := Attempted(timerId, purpose, s.timers[timerId], None)])
    case Write(tx) => s.(open := s.open[tx := s.open[tx].(wrote := Some(Computed(s.open[tx].seen, s.open[tx].purpose)))])
    case Commit(tx) => Race(WithTimer(s.timers, s.open[tx].timerId, s.open[tx].wrote.value), s.open - {tx})
    case Abort(tx) => s.(open := s.open - {tx})
  }

  // -------------------------------------------------------- what never breaks

  /** Whom the clock times, from when and until when. */
  predicate SameTarget(before: TimerRow, after: TimerRow) {
    after == before.(stoppedAt := after.stoppedAt, breachedAt := after.breachedAt)
  }

  /** At most one outcome, and no breach before its time. */
  predicate OneOutcome(row: TimerRow) {
    && (row.stoppedAt.None? || row.breachedAt.None?)
    && (row.breachedAt.Some? ==> row.breachedAt.value >= row.dueAt)
  }

  /** What an open transaction holds is a row that was running, of the same clock as the stored one. */
  predicate Informed(c: Attempted, timers: map<Id, TimerRow>) {
    && c.timerId in timers
    && SameTarget(timers[c.timerId], c.seen)
    && GoesAhead(c.seen, c.purpose)
    && (c.wrote.Some? ==> c.wrote.value == Computed(c.seen, c.purpose))
  }

  ghost predicate RaceInv(s: Race) {
    && (forall id :: id in s.timers ==> OneOutcome(s.timers[id]))
    && (forall tx :: tx in s.open ==> Informed(s.open[tx], s.timers))
    && (forall x, y :: x in s.open && y in s.open && x != y && s.open[x].wrote.Some? && s.open[y].wrote.Some? ==> s.open[x].timerId != s.open[y].timerId)
  }

  /** The clocks of any reachable state can start racing. */
  lemma StoredClocksAreFit(timers: map<Id, TimerRow>, tickets: map<Id, TicketRow>)
    requires HealthyTimers(timers, tickets)
    ensures RaceInv(Race(timers, map[]))
  {
  }

  lemma RaceStep(s: Race, step: Step)
    requires RaceInv(s) && Can(s, step)
    ensures RaceInv(After(s, step))
    ensures forall id :: id in s.timers ==> id in After(s, step).timers && SameTarget(s.timers[id], After(s, step).timers[id])
  {
  }

  ghost predicate CanRun(s: Race, steps: seq<Step>)
    decreases |steps|, 0
  {
    |steps| > 0 ==> CanRun(s, steps[..|steps| - 1]) && Can(RaceAfter(s, steps[..|steps| - 1]), steps[|steps| - 1])
  }

  ghost function RaceAfter(s: Race, steps: seq<Step>): Race
    requires CanRun(s, steps)
    decreases |steps|, 1
  {
    if |steps| == 0 then s else After(RaceAfter(s, steps[..|steps| - 1]), steps[|steps| - 1])
  }

  /** However reads, writes and commits interleave, no stored clock ever has both outcomes, none is
      breached before it is due, and none moves its start or its deadline. */
  lemma {:induction false} NeverBoth(s: Race, steps: seq<Step>)
    requires RaceInv(s) && CanRun(s, steps)
    ensures RaceInv(RaceAfter(s, steps))
    ensures forall id :: id in RaceAfter(s, steps).timers ==> OneOutcome(RaceAfter(s, steps).timers[id])
    ensures forall id :: id in s.timers ==> id in RaceAfter(s, steps).timers && SameTarget(s.timers[id], RaceAfter(s, steps).timers[id])
  {
    if |steps| > 0 {
      var init := steps[..|steps| - 1];
      NeverBoth(s, init);
      RaceStep(RaceAfter(s, init), steps[|steps| - 1]);
    }
  }

  // -------------------------------------------------- what an overlap can break

  /** A commit keeps the outcome a clock already has exactly when the clock is still as it was read, or
      the very same outcome is written again. */
  lemma CommitAbsorbsIff(s: Race, tx: Id)
    requires RaceInv(s) && Can(s, Commit(tx))
    ensures var id := s.open[tx].timerId;
            SameClock(s.timers[id], After(s, Commit(tx)).timers[id])
            <==> s.timers[id] == s.open[tx].seen || s.timers[id] == s.open[tx].wrote.value
  {
    assert Informed(s.open[tx], s.timers);
  }

  /** Every commit of the run finds the clock as it was read. */
  ghost predicate Undisturbed(s: Race, steps: seq<Step>)
    requires CanRun(s, steps)
  {
    |steps| > 0 ==>
      var init, step := steps[..|steps| - 1], steps[|steps| - 1];
      var was := RaceAfter(s, init);
      && Undisturbed(s, init)
      && (step.Commit? && was.open[step.tx].timerId in was.timers ==> was.timers[was.open[step.tx].timerId] == was.open[step.tx].seen)
  }

  /** Without overlaps on a clock, stopped and breached are final and keep their first date. */
  lemma {:induction false} UndisturbedIsFinal(s: Race, steps: seq<Step>)
    requires RaceInv(s) && CanRun(s, steps) && Undisturbed(s, steps)
    ensures KeepsClocks(s.timers, RaceAfter(s, steps).timers)
  {
    if |steps| > 0 {
      var init, step := steps[..|steps| - 1], steps[|steps| - 1];
      UndisturbedIsFinal(s, init);
      NeverBoth(s, init);
      var was := RaceAfter(s, init);
      if step.Commit? {
        assert Informed(was.open[step.tx], was.timers);
        CommitAbsorbsIff(was, step.tx);
      }
    }
  }

  lemma OneMore(s: Race, steps: seq<Step>, step: Step)
    requires CanRun(s, steps) && Can(RaceAfter(s, steps), step)
    ensures CanRun(s, steps + [step]) && RaceAfter(s, steps + [step]) == After(RaceAfter(s, steps), step)
  {
    assert (steps + [step])[..|steps|] == steps;
  }

  lemma BothRead(s: Race, row: TimerRow, at: Time, now: Time) returns (steps: seq<Step>)
    requires row.IsRunning() && now >= row.dueAt && s == Race(map[0 := row], map[])
    ensures CanRun(s, steps)
    ensures RaceAfter(s, steps) == Race(map[0 := row], map[1 := Attempted(0, ToBreach(now), row, None), 2 := Attempted(0, ToStop(at), row, None)])
  {
    var none: seq<Step> := [];
    OneMore(s, none, Read(1, 0, ToBreach(now)));
    var one := none + [Read(1, 0, ToBreach(now))];
    OneMore(s, one, Read(2, 0, ToStop(at)));
    steps := one + [Read(2, 0, ToStop(at))];
  }

  lemma StopCommitted(s: Race, row: TimerRow, at: Time, now: Time) returns (steps: seq<Step>)
    requires row.IsRunning() && now >= row.dueAt && s == Race(map[0 := row], map[])
    ensures CanRun(s, steps)
    ensures RaceAfter(s, steps) == Race(map[0 := SlaTimer.Stopped(row, at)], map[1 := Attempted(0, ToBreach(now), row, None)])
  {
    var read := BothRead(s, row, at, now);
    OneMore(s, read, Write(2));
    var written := read + [Write(2)];
    OneMore(s, written, Commit(2));
    steps := written + [Commit(2)];
  }

  /** With one, an outcome can be overwritten: a clock stopped, and committed so, is breached by the
      commit of a sweep that had read it before. */
  lemma OverlapLosesAStop(row: TimerRow, at: Time, now: Time) returns (s: Race, steps: seq<Step>)
    requires row.IsRunning() && now >= row.dueAt
    ensures s == Race(map[0 := row], map[]) && RaceInv(s) && CanRun(s, steps)
    ensures RaceAfter(s, steps).timers == map[0 := SlaTimer.Stopped(row, at)]
    ensures Can(RaceAfter(s, steps), Commit(1))
    ensures After(RaceAfter(s, steps), Commit(1)).timers == map[0 := SlaTimer.Breached(row, now)]
  {
    s := Race(map[0 := row], map[]);
    var stopped := StopCommitted(s, row, at, now);
    OneMore(s, stopped, Write(1));
    steps := stopped + [Write(1)];
  }
}
