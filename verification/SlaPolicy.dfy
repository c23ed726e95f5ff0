/** What an organisation promises per priority, and when a promise falls due. */
module SlaPolicy {
  import opened Kernel
  import opened TicketDomain

  datatype SlaTarget = SlaTarget(responseMinutes: int, resolutionMinutes: int)

  datatype Policy = Policy(urgent: SlaTarget, high: SlaTarget, normal: SlaTarget, low: SlaTarget) {
    function At(priority: Priority): SlaTarget {
      match priority
      case Urgent => urgent
      case High => high
      case Normal => normal
      case Low => low
    }
  }

  /** What a tenant has set, priority by priority. */
  type Overrides = map<Priority, SlaTarget>

  const DEFAULT_SLA_POLICY: Policy := Policy(
    SlaTarget(15, 4 * 60),
    SlaTarget(60, 8 * 60),
    SlaTarget(4 * 60, 24 * 60),
    SlaTarget(8 * 60, 72 * 60))

  const SLA_MAX_MINUTES: int := 365 * 24 * 60

  const TICKET_PRIORITIES: seq<Priority> := [Low, Normal, High, Urgent]

  /** A target that may be in force: whole minutes, at most a year, no resolution before a response. */
  predicate ValidTarget(target: SlaTarget) {
    1 <= target.responseMinutes <= target.resolutionMinutes <= SLA_MAX_MINUTES
  }

  function OverrideOr(overrides: Overrides, priority: Priority, fallback: SlaTarget): SlaTarget {
    if priority in overrides then overrides[priority] else fallback
  }

  /** Overrides completed with the defaults, field by field. */
  function ResolvePolicy(overrides: Overrides): Policy {
    Policy(
      OverrideOr(overrides, Urgent, DEFAULT_SLA_POLICY.urgent),
      OverrideOr(overrides, High, DEFAULT_SLA_POLICY.high),
      OverrideOr(overrides, Normal, DEFAULT_SLA_POLICY.normal),
      OverrideOr(overrides, Low, DEFAULT_SLA_POLICY.low))
  }

  /** `Number.isInteger(minutes) && 1 <= minutes <= SLA_MAX_MINUTES`. */
  predicate IsValidTerm(minutes: real) {
    minutes.Floor as real == minutes && 1.0 <= minutes <= SLA_MAX_MINUTES as real
  }

  /** The only way in for a target that somebody typed. */
  function MakeSlaTarget(responseMinutes: real, resolutionMinutes: real): (r: Attempt<SlaTarget>)
    ensures r.Ok? <==> exists t :: ValidTarget(t) && t.responseMinutes as real == responseMinutes && t.resolutionMinutes as real == resolutionMinutes
    ensures r.Ok? ==> ValidTarget(r.value) && r.value.responseMinutes as real == responseMinutes && r.value.resolutionMinutes as real == resolutionMinutes
    ensures r.Err? ==> r.failure == Rejected(InvalidSlaTarget)
  {
    if !IsValidTerm(responseMinutes) then Err(Rejected(InvalidSlaTarget))
    else if !IsValidTerm(resolutionMinutes) then Err(Rejected(InvalidSlaTarget))
    else if resolutionMinutes < responseMinutes then Err(Rejected(InvalidSlaTarget))
    else
      var target := SlaTarget(responseMinutes.Floor, resolutionMinutes.Floor);
      assert ValidTarget(target);
      Ok(target)
  }

  datatype Source = Organization | Default

  datatype EffectiveTarget = EffectiveTarget(priority: Priority, target: SlaTarget, source: Source)

  function EffectiveAt(overrides: Overrides, priority: Priority): EffectiveTarget {
    if priority in overrides then EffectiveTarget(priority, overrides[priority], Organization)
    else EffectiveTarget(priority, DEFAULT_SLA_POLICY.At(priority), Source.Default)
  }

  /** The policy in force, in the order of `TICKET_PRIORITIES`, saying where each target comes from. */
  function EffectivePolicy(overrides: Overrides): seq<EffectiveTarget> {
    EffectiveFrom(overrides, TICKET_PRIORITIES)
  }

  function EffectiveFrom(overrides: Overrides, priorities: seq<Priority>): (list: seq<EffectiveTarget>)
    ensures |list| == |priorities|
    ensures forall i :: 0 <= i < |list| ==> list[i] == EffectiveAt(overrides, priorities[i])
  {
    if priorities == [] then []
    else [EffectiveAt(overrides, priorities[0])] + EffectiveFrom(overrides, priorities[1..])
  }

  /** `list.find((t) => t.priority === priority)`. */
  function FindTarget(list: seq<EffectiveTarget>, priority: Priority): Option<EffectiveTarget> {
    if list == [] then None
    else if list[0].priority == priority then Some(list[0])
    else FindTarget(list[1..], priority)
  }

  function IndexOf(priority: Priority): (i: nat)
    ensures i < |TICKET_PRIORITIES| && TICKET_PRIORITIES[i] == priority
  {
    match priority
    case Low => 0
    case Normal => 1
    case High => 2
    case Urgent => 3
  }

  /** The two ways of reading a policy never disagree: every priority is listed exactly once, in its
      place, with the minutes `ResolvePolicy` gives it, and is marked as the organisation's exactly
      when it is overridden. */
  lemma PoliciesAgree(overrides: Overrides, priority: Priority)
    ensures var found := FindTarget(EffectivePolicy(overrides), priority);
            && found == Some(EffectiveAt(overrides, priority))
            && found.value.target == ResolvePolicy(overrides).At(priority)
            && (found.value.source == Organization <==> priority in overrides)
    ensures |EffectivePolicy(overrides)| == 4
    ensures forall i :: 0 <= i < 4 && EffectivePolicy(overrides)[i].priority == priority ==> i == IndexOf(priority)
  {
    FindAt(EffectivePolicy(overrides), priority, IndexOf(priority));
  }

  /** `find` returns the first element of that priority. */
  lemma {:induction false} FindAt(list: seq<EffectiveTarget>, priority: Priority, i: nat)
    requires i < |list| && list[i].priority == priority
    requires forall j :: 0 <= j < i ==> list[j].priority != priority
    ensures FindTarget(list, priority) == Some(list[i])
  {
    if i > 0 {
      FindAt(list[1..], priority, i - 1);
    }
  }

  /** Valid overrides resolve to a policy that never asks for a resolution before a response. */
  lemma ResolvedIsValid(overrides: Overrides, priority: Priority)
    requires forall p :: p in overrides ==> ValidTarget(overrides[p])
    ensures ValidTarget(ResolvePolicy(overrides).At(priority))
  {
  }

  /** The defaults: the more urgent, the shorter, from a quarter of an hour and four hours to eight hours and
      three days. */
  lemma DefaultsTighten(priority: Priority, moreUrgent: Priority)
    ensures ValidTarget(DEFAULT_SLA_POLICY.At(priority))
    ensures DEFAULT_SLA_POLICY.At(Urgent) == SlaTarget(15, 240) && DEFAULT_SLA_POLICY.At(Low) == SlaTarget(480, 4320)
    ensures IndexOf(priority) < IndexOf(moreUrgent) ==>
              && DEFAULT_SLA_POLICY.At(moreUrgent).responseMinutes < DEFAULT_SLA_POLICY.At(priority).responseMinutes
              && DEFAULT_SLA_POLICY.At(moreUrgent).resolutionMinutes < DEFAULT_SLA_POLICY.At(priority).resolutionMinutes
  {
  }

  // -------------------------------------------------------------- calendar

  const MS_PER_MINUTE: int := 60_000

  /** The calendar that never closes. */
  function DueAt(from: Time, minutes: int): Time {
    from + minutes * MS_PER_MINUTE
  }
}
