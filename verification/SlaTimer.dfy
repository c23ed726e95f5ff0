/** One SLA clock, and the margin it shows. */
module SlaTimer {
  import opened Kernel
  import opened TicketDomain
  import opened SlaPolicy
  import opened Tables

  /** `Math.round`: the nearest integer, halves going up. */
  function Round(x: real): int {
    (x + 0.5).Floor
  }

  function RemainingMinutes(dueAt: Time, at: Time): int {
    Round((dueAt - at) as real / MS_PER_MINUTE as real)
  }

  /** A clock as it is when it starts: its deadline is computed once, here. */
  function Started(tenantId: Id, ticketId: Id, kind: SlaKind, minutes: int, now: Time): TimerRow {
    TimerRow(tenantId, ticketId, kind, now, DueAt(now, minutes), None, None)
  }

  /** A clock once something made it stop: a clock that is not running keeps its first outcome. */
  function Stopped(row: TimerRow, at: Time): TimerRow {
    if row.IsRunning() then row.(stoppedAt := Some(at)) else row
  }

  function Breached(row: TimerRow, at: Time): TimerRow {
    if row.IsRunning() then row.(breachedAt := Some(at)) else row
  }

  predicate IsOverdue(row: TimerRow, now: Time) {
    row.IsRunning() && now >= row.dueAt
  }

  class Timer {
    const id: Id
    var props: TimerRow

    constructor Rehydrate(id: Id, props: TimerRow)
      ensures this.id == id && this.props == props
    {
      this.id, this.props := id, props;
    }

    constructor Start(id: Id, tenantId: Id, ticketId: Id, kind: SlaKind, minutes: int, now: Time)
      ensures this.id == id && props == Started(tenantId, ticketId, kind, minutes, now)
    {
      this.id := id;
      this.props := TimerRow(tenantId, ticketId, kind, now, DueAt(now, minutes), None, None);
    }

    /** Stopping twice keeps the first date; a breached clock cannot be stopped any more. */
    method Stop(now: Time)
      modifies this
      ensures props == Stopped(old(props), now)
      ensures !old(props).IsRunning() ==> unchanged(this)
    {
      if !props.IsRunning() { return; }
      props := props.(stoppedAt := Some(now));
    }

    /** A clock stopped in time cannot be breached later: the sweep may come late. */
    method MarkBreached(now: Time) returns (marked: bool)
      modifies this
      ensures props == Breached(old(props), now)
      ensures marked <==> old(props).IsRunning()
      ensures !marked ==> unchanged(this)
    {
      if !props.IsRunning() { return false; }
      props := props.(breachedAt := Some(now));
      return true;
    }
  }

  // --------------------------------------------------------------- the view

  datatype TimerStatus = Running | Met | Overrun

  datatype TimerView = TimerView(kind: SlaKind, dueAt: Time, stoppedAt: Option<Time>, breachedAt: Option<Time>, status: TimerStatus, remainingMinutes: int)

  function DescribeSlaTimer(kind: SlaKind, dueAt: Time, stoppedAt: Option<Time>, breachedAt: Option<Time>, now: Time): TimerView {
    var status := if breachedAt.Some? then Overrun else if stoppedAt.Some? then Met else Running;
    var reference := if breachedAt.Some? then breachedAt.value else if stoppedAt.Some? then stoppedAt.value else now;
    TimerView(kind, dueAt, stoppedAt, breachedAt, status, RemainingMinutes(dueAt, reference))
  }

  function ViewAt(row: TimerRow, now: Time): TimerView {
    DescribeSlaTimer(row.kind, row.dueAt, row.stoppedAt, row.breachedAt, now)
  }

  // ---------------------------------------------------- what the margin says

  /** The margin is the nearest whole minute to the true difference: never more than 30 seconds off. */
  lemma MarginIsNearest(dueAt: Time, at: Time)
    ensures -30_000 <= MS_PER_MINUTE * RemainingMinutes(dueAt, at) - (dueAt - at) <= 30_000
  {
  }

  /** Time only shortens a margin. */
  lemma MarginNeverGrows(dueAt: Time, earlier: Time, later: Time)
    requires earlier <= later
    ensures RemainingMinutes(dueAt, later) <= RemainingMinutes(dueAt, earlier)
  {
  }

  /** A clock shows its whole target the moment it starts, and less and less while it runs. */
  lemma RunningMarginFallsFromTarget(tenantId: Id, ticketId: Id, kind: SlaKind, minutes: int, start: Time, earlier: Time, later: Time)
    requires earlier <= later
    ensures var row := Started(tenantId, ticketId, kind, minutes, start);
            && ViewAt(row, start).remainingMinutes == minutes
            && ViewAt(row, earlier).status == Running
            && ViewAt(row, later).remainingMinutes <= ViewAt(row, earlier).remainingMinutes
  {
  }

  /** Once a clock has stopped, what it shows no longer depends on when one looks; it shows the margin
      there was at the instant it stopped, and no later stop or breach changes it. */
  lemma StoppedMarginIsFrozen(row: TimerRow, at: Time, now: Time, later: Time)
    requires row.IsRunning()
    ensures var stopped := Stopped(row, at);
            && ViewAt(stopped, now) == ViewAt(stopped, later)
            && ViewAt(stopped, now).status == Met
            && ViewAt(stopped, now).remainingMinutes == RemainingMinutes(row.dueAt, at)
            && ViewAt(stopped, now).remainingMinutes == ViewAt(row, at).remainingMinutes
            && Stopped(stopped, later) == stopped
            && Breached(stopped, later) == stopped
  {
  }

  /** Likewise for a breached clock; one that was overdue when marked never shows a positive margin. */
  lemma BreachedMarginIsFrozen(row: TimerRow, at: Time, now: Time, later: Time)
    requires IsOverdue(row, at)
    ensures var breached := Breached(row, at);
            && ViewAt(breached, now) == ViewAt(breached, later)
            && ViewAt(breached, now).status == Overrun
            && ViewAt(breached, now).remainingMinutes <= 0
            && Stopped(breached, later) == breached
            && Breached(breached, later) == breached
  {
  }
}
