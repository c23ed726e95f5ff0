/** Real-time messages: which room stands for which audience, who is in which room, and who therefore
    receives what.
 */
module Realtime {
  import opened Kernel
  import opened TicketDomain
  import opened Tables

  // ------------------------------------------------------------------- roles

  datatype Role = Admin | Agent | Viewer

  function Rank(role: Role): nat {
    match role
    case Viewer => 0
    case Agent => 1
    case Admin => 2
  }

  predicate HasAtLeastRole(actual: Role, required: Role) {
    Rank(actual) >= Rank(required)
  }

  /** "At least" is a total order of authority: everyone may do what a viewer may, and only an
      administrator what an administrator may. */
  lemma RolesAreOrdered(a: Role, b: Role, c: Role)
    ensures HasAtLeastRole(a, a)
    ensures HasAtLeastRole(a, b) || HasAtLeastRole(b, a)
    ensures HasAtLeastRole(a, b) && HasAtLeastRole(b, a) ==> a == b
    ensures HasAtLeastRole(a, b) && HasAtLeastRole(b, c) ==> HasAtLeastRole(a, c)
    ensures HasAtLeastRole(a, Agent) <==> a in {Agent, Admin}
  {
  }

  // ------------------------------------------------------------------- rooms

  datatype Audience =
    | ToTenant(tenantId: string)
    | ToStaff(tenantId: string)
    | ToTicket(tenantId: string, ticketId: string)

  function RoomOf(audience: Audience): string {
    match audience
    case ToTenant(tenantId) => "tenant:" + tenantId
    case ToStaff(tenantId) => "tenant:" + tenantId + ":staff"
    case ToTicket(tenantId, ticketId) => "tenant:" + tenantId + ":ticket:" + ticketId
  }

  predicate ColonFree(id: string) {
    ':' !in id
  }

  /** What follows the tenant in a room name: nothing, or a colon and the rest. */
  function Tail(audience: Audience): string {
    match audience
    case ToTenant(_) => ""
    case ToStaff(_) => ":staff"
    case ToTicket(_, ticketId) => ":ticket:" + ticketId
  }

  lemma RoomParts(audience: Audience)
    ensures RoomOf(audience) == "tenant:" + (audience.tenantId + Tail(audience))
  {
  }

  lemma FirstColon(s: string, rest: string)
    requires ColonFree(s) && (rest == "" || rest[0] == ':')
    ensures forall i :: 0 <= i < |s| ==> (s + rest)[i] != ':'
    ensures rest != "" ==> (s + rest)[|s|] == ':'
  {
  }

  /** The first colon splits a name in one way only. */
  lemma SplitAtColon(s: string, rest: string, t: string, more: string)
    requires ColonFree(s) && ColonFree(t) && s + rest == t + more
    requires rest == "" || rest[0] == ':'
    requires more == "" || more[0] == ':'
    ensures s == t && rest == more
  {
    var w := s + rest;
    FirstColon(s, rest);
    FirstColon(t, more);
    assert |s| == |t|;
    assert w[..|s|] == s && w[..|t|] == t;
    assert w[|s|..] == rest && w[|t|..] == more;
  }

  lemma TailTells(a: Audience)
    ensures a.ToTenant? <==> Tail(a) == ""
    ensures a.ToStaff? <==> |Tail(a)| > 1 && Tail(a)[1] == 's'
    ensures a.ToTicket? ==> Tail(a)[8..] == a.ticketId
  {
  }

  /** Rooms never coincide, whatever ticket id a client makes up, provided tenant ids have no colon. */
  lemma RoomsAreInjective(a: Audience, b: Audience)
    requires ColonFree(a.tenantId) && ColonFree(b.tenantId)
    ensures RoomOf(a) == RoomOf(b) ==> a == b
  {
    if RoomOf(a) == RoomOf(b) {
      RoomParts(a);
      RoomParts(b);
      assert RoomOf(a)[7..] == a.tenantId + Tail(a) && RoomOf(b)[7..] == b.tenantId + Tail(b);
      SplitAtColon(a.tenantId, Tail(a), b.tenantId, Tail(b));
      TailTells(a);
      TailTells(b);
    }
  }

  /** With a colon in a tenant id they do: the proviso is needed. */
  lemma ColonBreaksRooms(tenantId: string)
    ensures RoomOf(ToTenant(tenantId + ":staff")) == RoomOf(ToStaff(tenantId))
  {
  }

  // ---------------------------------------------------------------- messages

  /** What a client is shown of an event. */
  datatype View =
    | CreatedView(number: TicketNumber, subject: Text, priority: Priority, status: Status)
    | StatusView(status: Status)
    | CommentView(commentId: Id)
    | AssignmentView(assigneeId: Option<Id>, status: Status)
    | BreachView(kind: SlaKind, dueAt: Time, priority: Priority, assigneeId: Option<Id>)

  datatype RealtimeMessage = RealtimeMessage(event: Name, ticketId: string, occurredAt: Time, view: View)

  datatype Delivery = Delivery(audience: Audience, message: RealtimeMessage)

  datatype BroadcastInput = BroadcastInput(tenantId: string, ticketId: string, occurredAt: Time, payload: Payload)

  function DeliveriesFor(input: BroadcastInput): seq<Delivery> {
    var tenant := ToTenant(input.tenantId);
    var staff := ToStaff(input.tenantId);
    var ticket := ToTicket(input.tenantId, input.ticketId);
    var name := NameOf(input.payload);
    match input.payload
    case TicketCreated(number, subject, priority, status, _) =>
      [Delivery(tenant, RealtimeMessage(name, input.ticketId, input.occurredAt, CreatedView(number, subject, priority, status)))]
    case TicketStatusChanged(_, to, _) =>
      var message := RealtimeMessage(name, input.ticketId, input.occurredAt, StatusView(to));
      [Delivery(tenant, message), Delivery(ticket, message)]
    case CommentAdded(commentId, _, _) =>
      [Delivery(ticket, RealtimeMessage(name, input.ticketId, input.occurredAt, CommentView(commentId)))]
    case TicketAssigned(assignee, status) =>
      [Delivery(staff, RealtimeMessage(name, input.ticketId, input.occurredAt, AssignmentView(Some(assignee), status)))]
    case TicketUnassigned(status) =>
      [Delivery(staff, RealtimeMessage(name, input.ticketId, input.occurredAt, AssignmentView(None, status)))]
    case SlaBreached(_, kind, dueAt, assigneeId, priority) =>
      [Delivery(staff, RealtimeMessage(name, input.ticketId, input.occurredAt, BreachView(kind, dueAt, priority, assigneeId)))]
    case Unlisted(_) => []
  }

  /** Who is assigned, and that an SLA was breached, is the team's business. */
  predicate IsInternal(view: View) {
    view.AssignmentView? || view.BreachView?
  }

  /** What clients are shown of an event is what the event made of the ticket, or announced it to be. */
  predicate ShowsState(view: View, row: TicketRow) {
    match view
    case CreatedView(number, subject, priority, status) => number == row.number && subject == row.subject && priority == row.priority && status == row.status
    case StatusView(status) => status == row.status
    case CommentView(_) => true
    case AssignmentView(assigneeId, status) => assigneeId == row.assigneeId && status == row.status
    case BreachView(_, _, priority, assigneeId) => priority == row.priority && assigneeId == row.assigneeId
  }

  lemma ShownIsState(event: DomainEvent, before: Option<TicketRow>, tenantId: string, ticketId: string)
    requires match before case None => Announced(event).Some? case Some(row) => Follows(row, event)
    ensures var after := if before.None? then Announced(event).value else Evolved(before.value, event);
            forall d :: d in DeliveriesFor(BroadcastInput(tenantId, ticketId, event.occurredAt, event.payload)) ==> ShowsState(d.message.view, after)
    ensures forall d :: d in DeliveriesFor(BroadcastInput(tenantId, ticketId, event.occurredAt, event.payload)) ==>
                          && d.message.event == NameOf(event.payload)
                          && d.message.occurredAt == event.occurredAt
                          && (d.message.view.CommentView? ==> event.payload.CommentAdded? && d.message.view.commentId == event.payload.commentId)
                          && (d.message.view.BreachView? ==>
                                event.payload.SlaBreached? && d.message.view.kind == event.payload.kind && d.message.view.dueAt == event.payload.dueAt)
  {
  }

  /** Every delivery of an event stays in its tenant, and what is internal goes to the staff alone; an
      event has no delivery exactly when no queue of this kind expects it. */
  lemma DeliveriesAreAddressed(input: BroadcastInput)
    ensures forall d :: d in DeliveriesFor(input) ==> d.audience.tenantId == input.tenantId && d.message.ticketId == input.ticketId
    ensures forall d :: d in DeliveriesFor(input) ==> (d.audience.ToStaff? <==> IsInternal(d.message.view))
    ensures DeliveriesFor(input) == [] <==> Queue.Realtime !in QueuesFor(NameOf(input.payload))
  {
  }

  /** Which audiences an event goes to, once each: what opens a ticket or changes its status to its tenant,
      what changes it or is said on it to whoever follows it, the rest to the staff. */
  lemma DeliveriesGoTo(input: BroadcastInput)
    ensures (exists d :: d in DeliveriesFor(input) && d.audience == ToTenant(input.tenantId))
            <==> input.payload.TicketCreated? || input.payload.TicketStatusChanged?
    ensures (exists d :: d in DeliveriesFor(input) && d.audience == ToTicket(input.tenantId, input.ticketId))
            <==> input.payload.TicketStatusChanged? || input.payload.CommentAdded?
    ensures (exists d :: d in DeliveriesFor(input) && d.audience == ToStaff(input.tenantId))
            <==> input.payload.TicketAssigned? || input.payload.TicketUnassigned? || input.payload.SlaBreached?
    ensures forall d :: d in DeliveriesFor(input) ==>
                          d.audience in {ToTenant(input.tenantId), ToTicket(input.tenantId, input.ticketId), ToStaff(input.tenantId)}
    ensures |DeliveriesFor(input)| == if input.payload.TicketStatusChanged? then 2 else if input.payload.Unlisted? then 0 else 1
  {
    if DeliveriesFor(input) != [] {
      var last := |DeliveriesFor(input)| - 1;
      assert DeliveriesFor(input)[0] in DeliveriesFor(input) && DeliveriesFor(input)[last] in DeliveriesFor(input);
    }
  }

  // --------------------------------------------------------------------- hub

  datatype Principal = Principal(tenantId: string, role: Role)

  /** A message sent to an audience, and the sockets that were in its room, with the principal the gateway
      had verified for each, if any. */
  datatype Emission = Emission(audience: Audience, message: RealtimeMessage, to: map<Id, Option<Principal>>)

  /** How far the handler of a new connection has come: its token is being verified, or it is waiting for
      its socket to be in the tenant's room, or in the staff's. Anything may happen while it waits. */
  datatype Handler = Verifying | InTenant(who: Principal) | InStaff(who: Principal)

  /** Sockets ever accepted and those closed since, handlers still running, registered sockets, the rooms
      each socket is in, and everything emitted so far. */
  datatype Hub = Hub(
    accepted: set<Id>,
    closed: set<Id>,
    handlers: map<Id, Handler>,
    sockets: map<Id, Principal>,
    rooms: map<Id, set<string>>,
    emissions: seq<Emission>
  ) {
    predicate IsOpen(s: Id) {
      s in accepted && s !in closed
    }
  }

  const EmptyHub: Hub := Hub({}, {}, map[], map[], map[], [])

  function RoomsIn(hub: Hub, socket: Id): set<string> {
    if socket in hub.rooms then hub.rooms[socket] else {}
  }

  function Joined(hub: Hub, socket: Id, room: string): map<Id, set<string>> {
    hub.rooms[socket := RoomsIn(hub, socket) + {room}]
  }

  function Accepted(hub: Hub, socket: Id): Hub {
    hub.(accepted := hub.accepted + {socket}, handlers := hub.handlers[socket := Verifying])
  }

  /** The socket server takes a closed socket out of all its rooms. A handler still running goes on. */
  function Disconnected(hub: Hub, socket: Id): Hub {
    hub.(closed := hub.closed + {socket}, sockets := hub.sockets - {socket}, rooms := hub.rooms - {socket})
  }

  /** The verifier's answer: without a principal the socket is closed, otherwise it joins its tenant's
      room, be it still open or not. */
  function Verified(hub: Hub, socket: Id, principal: Option<Principal>): Hub {
    match principal
    case None => Disconnected(hub.(handlers := hub.handlers - {socket}), socket)
    case Some(p) => hub.(handlers := hub.handlers[socket := InTenant(p)], rooms := Joined(hub, socket, RoomOf(ToTenant(p.tenantId))))
  }

  function Registered(hub: Hub, socket: Id, p: Principal): Hub {
    hub.(handlers := hub.handlers - {socket}, sockets := hub.sockets[socket := p])
  }

  /** The socket is in the room the handler waited for: on to the staff's room, or registered. */
  function Resumed(hub: Hub, socket: Id): Hub {
    if socket !in hub.handlers then hub else
      match hub.handlers[socket]
      case Verifying => hub
      case InTenant(p) =>
        if HasAtLeastRole(p.role, Agent) then
          hub.(handlers := hub.handlers[socket := InStaff(p)], rooms := Joined(hub, socket, RoomOf(ToStaff(p.tenantId))))
        else
          Registered(hub, socket, p)
      case InStaff(p) => Registered(hub, socket, p)
  }

  /** Whatever a client asks to follow, the room is built on its own tenant. A request that is not a
      text is `None`. */
  function Watched(hub: Hub, socket: Id, ticketId: Option<string>): Hub {
    if socket !in hub.sockets || ticketId.None? || ticketId.value == "" then hub
    else hub.(rooms := Joined(hub, socket, RoomOf(ToTicket(hub.sockets[socket].tenantId, ticketId.value))))
  }

  function Unwatched(hub: Hub, socket: Id, ticketId: Option<string>): Hub {
    if socket !in hub.sockets || ticketId.None? then hub
    else hub.(rooms := hub.rooms[socket := RoomsIn(hub, socket) - {RoomOf(ToTicket(hub.sockets[socket].tenantId, ticketId.value))}])
  }

  /** Whom the token of a socket names, once verified. */
  function PrincipalOf(hub: Hub, s: Id): Option<Principal> {
    if s in hub.sockets then Some(hub.sockets[s])
    else if s in hub.handlers && !hub.handlers[s].Verifying? then Some(hub.handlers[s].who)
    else None
  }

  function Reached(hub: Hub, audience: Audience): map<Id, Option<Principal>> {
    map s | s in hub.rooms && hub.IsOpen(s) && RoomOf(audience) in hub.rooms[s] :: PrincipalOf(hub, s)
  }

  function Published(hub: Hub, d: Delivery): Hub {
    hub.(emissions := hub.emissions + [Emission(d.audience, d.message, Reached(hub, d.audience))])
  }

  function PublishedAll(hub: Hub, deliveries: seq<Delivery>): Hub {
    if |deliveries| == 0 then hub else Published(PublishedAll(hub, deliveries[..|deliveries| - 1]), deliveries[|deliveries| - 1])
  }

  /** `Verify` is the verifier answering and `Resume` a join that is done; `Publish` is the delivery at
      place `i` of an event. */
  datatype Step =
    | Accept(socket: Id)
    | Verify(socket: Id, principal: Option<Principal>)
    | Resume(socket: Id)
    | Disconnect(socket: Id)
    | Watch(socket: Id, ticketId: Option<string>)
    | Unwatch(socket: Id, ticketId: Option<string>)
    | Publish(input: BroadcastInput, i: nat)

  /** Socket ids are new, a socket closes once, and tenant ids, which come from signed tokens and from the
      outbox, have no colon. */
  predicate Can(hub: Hub, step: Step) {
    match step
    case Accept(socket) => socket !in hub.accepted
    case Verify(socket, principal) =>
      socket in hub.handlers && hub.handlers[socket] == Verifying && (principal.Some? ==> ColonFree(principal.value.tenantId))
    case Resume(socket) => socket in hub.handlers && hub.handlers[socket] != Verifying
    case Disconnect(socket) => hub.IsOpen(socket)
    case Publish(input, i) => ColonFree(input.tenantId) && i < |DeliveriesFor(input)|
    case _ => true
  }

  function After(hub: Hub, step: Step): Hub {
    match step
    case Accept(socket) => Accepted(hub, socket)
    case Verify(socket, principal) => Verified(hub, socket, principal)
    case Resume(socket) => Resumed(hub, socket)
    case Disconnect(socket) => Disconnected(hub, socket)
    case Watch(socket, ticketId) => Watched(hub, socket, ticketId)
    case Unwatch(socket, ticketId) => Unwatched(hub, socket, ticketId)
    case Publish(input, i) => if i < |DeliveriesFor(input)| then Published(hub, DeliveriesFor(input)[i]) else hub
  }

  /** Whether the steps can be taken one after the other from the empty hub, and where they lead. */
  ghost predicate IsRun(steps: seq<Step>) {
    |steps| > 0 ==> IsRun(steps[..|steps| - 1]) && Can(HubAfter(steps[..|steps| - 1]), steps[|steps| - 1])
  }

  ghost function HubAfter(steps: seq<Step>): Hub {
    if |steps| == 0 then EmptyHub else After(HubAfter(steps[..|steps| - 1]), steps[|steps| - 1])
  }

  // --------------------------------------------------------------- invariant

  /** A room a socket may be in: of its own tenant and, for the staff room, with the rank for it. */
  predicate MayEnter(p: Principal, room: string, audience: Audience) {
    && room == RoomOf(audience)
    && audience.tenantId == p.tenantId
    && (audience.ToStaff? ==> HasAtLeastRole(p.role, Agent))
  }

  /** A registered socket is in its tenant's room, in the staff room exactly if it belongs there, and
      otherwise in rooms of tickets of its tenant. */
  ghost predicate Placed(p: Principal, rooms: set<string>) {
    && ColonFree(p.tenantId)
    && RoomOf(ToTenant(p.tenantId)) in rooms
    && (HasAtLeastRole(p.role, Agent) ==> RoomOf(ToStaff(p.tenantId)) in rooms)
    && forall room :: room in rooms ==> exists a :: MayEnter(p, room, a)
  }

  /** What a handler has joined so far. */
  predicate OnTheWay(h: Handler, rooms: set<string>) {
    match h
    case Verifying => rooms == {}
    case InTenant(p) => ColonFree(p.tenantId) && rooms == {RoomOf(ToTenant(p.tenantId))}
    case InStaff(p) => ColonFree(p.tenantId) && HasAtLeastRole(p.role, Agent) && rooms == {RoomOf(ToTenant(p.tenantId)), RoomOf(ToStaff(p.tenantId))}
  }

  /** An open socket is where its token allows and its handler has got to; one not accepted is nowhere. */
  ghost predicate WellKept(hub: Hub, s: Id) {
    && (s in hub.sockets || s in hub.handlers || s in hub.rooms || s in hub.closed ==> s in hub.accepted)
    && !(s in hub.sockets && s in hub.handlers)
    && (hub.IsOpen(s) ==>
          if s in hub.sockets then Placed(hub.sockets[s], RoomsIn(hub, s))
          else s in hub.handlers && OnTheWay(hub.handlers[s], RoomsIn(hub, s)))
    && (PrincipalOf(hub, s).Some? ==> ColonFree(PrincipalOf(hub, s).value.tenantId))
  }

  /** An emission reached verified sockets of its own tenant only, and internal matters the staff only. */
  predicate Discreet(e: Emission) {
    && (forall s :: s in e.to ==> e.to[s].Some? && e.to[s].value.tenantId == e.audience.tenantId)
    && (IsInternal(e.message.view) ==> forall s :: s in e.to ==> e.to[s].Some? && e.to[s].value.role in {Agent, Admin})
  }

  ghost predicate HubInv(hub: Hub) {
    && (forall s :: WellKept(hub, s))
    && forall i :: 0 <= i < |hub.emissions| ==> Discreet(hub.emissions[i])
  }

  lemma WayIsAllowed(h: Handler, rooms: set<string>)
    requires OnTheWay(h, rooms) && !h.Verifying?
    ensures forall room :: room in rooms ==> exists a :: MayEnter(h.who, room, a)
  {
    assert MayEnter(h.who, RoomOf(ToTenant(h.who.tenantId)), ToTenant(h.who.tenantId));
    if h.InStaff? {
      assert MayEnter(h.who, RoomOf(ToStaff(h.who.tenantId)), ToStaff(h.who.tenantId));
    }
  }

  /** Who is reached belongs to the audience. */
  lemma OnlyTheirOwn(hub: Hub, s: Id, audience: Audience)
    requires WellKept(hub, s) && ColonFree(audience.tenantId) && s in Reached(hub, audience)
    ensures PrincipalOf(hub, s).Some? && PrincipalOf(hub, s).value.tenantId == audience.tenantId
    ensures audience.ToStaff? ==> HasAtLeastRole(PrincipalOf(hub, s).value.role, Agent)
  {
    if s !in hub.sockets { WayIsAllowed(hub.handlers[s], hub.rooms[s]); }
    var p := PrincipalOf(hub, s).value;
    var a :| MayEnter(p, RoomOf(audience), a);
    RoomsAreInjective(a, audience);
  }

  lemma PublishedIsDiscreet(hub: Hub, d: Delivery)
    requires HubInv(hub) && ColonFree(d.audience.tenantId) && (IsInternal(d.message.view) ==> d.audience.ToStaff?)
    ensures HubInv(Published(hub, d))
  {
    var to := Reached(hub, d.audience);
    forall s | s in to
      ensures to[s].Some? && to[s].value.tenantId == d.audience.tenantId && (d.audience.ToStaff? ==> to[s].value.role in {Agent, Admin})
    {
      assert WellKept(hub, s);
      OnlyTheirOwn(hub, s, d.audience);
    }
    forall s ensures WellKept(Published(hub, d), s) {
      assert WellKept(hub, s);
    }
  }

  lemma EntryPlaces(h: Handler, rooms: set<string>)
    requires OnTheWay(h, rooms) && !h.Verifying? && (h.InTenant? ==> !HasAtLeastRole(h.who.role, Agent))
    ensures Placed(h.who, rooms)
  {
    WayIsAllowed(h, rooms);
  }

  lemma WatchPlaces(p: Principal, rooms: set<string>, ticketId: string)
    requires Placed(p, rooms)
    ensures Placed(p, rooms + {RoomOf(ToTicket(p.tenantId, ticketId))})
    ensures Placed(p, rooms - {RoomOf(ToTicket(p.tenantId, ticketId))})
  {
    assert MayEnter(p, RoomOf(ToTicket(p.tenantId, ticketId)), ToTicket(p.tenantId, ticketId));
    RoomsAreInjective(ToTicket(p.tenantId, ticketId), ToTenant(p.tenantId));
    RoomsAreInjective(ToTicket(p.tenantId, ticketId), ToStaff(p.tenantId));
  }

  /** A step keeps one socket well kept, be it the step's own or another. */
  lemma KeepsOne(hub: Hub, step: Step, s: Id)
    requires WellKept(hub, s) && Can(hub, step) && !step.Publish?
    ensures WellKept(After(hub, step), s)
  {
    if step.socket == s {
      match step
      case Accept(_) =>
      case Verify(_, _) =>
      case Disconnect(_) =>
      case Resume(_) =>
        var h := hub.handlers[s];
        if hub.IsOpen(s) && !(h.InTenant? && HasAtLeastRole(h.who.role, Agent)) { EntryPlaces(h, RoomsIn(hub, s)); }
      case Watch(_, ticketId) =>
        if s in hub.sockets && ticketId.Some? && hub.IsOpen(s) { WatchPlaces(hub.sockets[s], RoomsIn(hub, s), ticketId.value); }
      case Unwatch(_, ticketId) =>
        if s in hub.sockets && ticketId.Some? && hub.IsOpen(s) { WatchPlaces(hub.sockets[s], RoomsIn(hub, s), ticketId.value); }
    }
  }

  lemma HubStep(hub: Hub, step: Step)
    requires HubInv(hub) && Can(hub, step)
    ensures HubInv(After(hub, step))
  {
    if step.Publish? {
      DeliveriesAreAddressed(step.input);
      assert DeliveriesFor(step.input)[step.i] in DeliveriesFor(step.input);
      PublishedIsDiscreet(hub, DeliveriesFor(step.input)[step.i]);
    } else {
      forall s ensures WellKept(After(hub, step), s) {
        assert WellKept(hub, s);
        KeepsOne(hub, step, s);
      }
      assert After(hub, step).emissions == hub.emissions;
    }
  }

  /** Over every run of connections, watches and broadcasts, a message reaches only verified sockets of its
      tenant, and one that says who is assigned or that an SLA was breached only agents and
      administrators, however handlers, disconnections and deliveries fall between one another. */
  lemma {:induction false} TenantsNeverMix(steps: seq<Step>)
    requires IsRun(steps)
    ensures HubInv(HubAfter(steps))
    ensures forall i :: 0 <= i < |HubAfter(steps).emissions| ==> Discreet(HubAfter(steps).emissions[i])
  {
    if |steps| > 0 {
      TenantsNeverMix(steps[..|steps| - 1]);
      HubStep(HubAfter(steps[..|steps| - 1]), steps[|steps| - 1]);
    }
  }

  /** The open sockets that belong to an audience of a whole tenant: verified for it and, for the staff's,
      with the rank and past the tenant's room. */
  predicate Belongs(hub: Hub, s: Id, audience: Audience)
    requires !audience.ToTicket?
  {
    && hub.IsOpen(s)
    && PrincipalOf(hub, s).Some? && PrincipalOf(hub, s).value.tenantId == audience.tenantId
    && (audience.ToStaff? ==> PrincipalOf(hub, s).value.role in {Agent, Admin} && (s in hub.sockets || hub.handlers[s].InStaff?))
  }

  lemma BelongsIsReached(hub: Hub, s: Id, audience: Audience)
    requires WellKept(hub, s) && !audience.ToTicket? && ColonFree(audience.tenantId)
    ensures s in Reached(hub, audience) <==> Belongs(hub, s, audience)
  {
    if s in Reached(hub, audience) {
      OnlyTheirOwn(hub, s, audience);
      if s in hub.handlers && hub.handlers[s].InTenant? {
        RoomsAreInjective(audience, ToTenant(hub.handlers[s].who.tenantId));
      }
    }
  }

  /** And nobody is left out: the tenant's room reaches exactly its open verified sockets, the staff's
      exactly those of them with the rank, from the moment they joined. */
  lemma NobodyIsLeftOut(steps: seq<Step>, s: Id, audience: Audience)
    requires IsRun(steps) && !audience.ToTicket? && ColonFree(audience.tenantId)
    ensures s in Reached(HubAfter(steps), audience) <==> Belongs(HubAfter(steps), s, audience)
  {
    TenantsNeverMix(steps);
    assert WellKept(HubAfter(steps), s);
    BelongsIsReached(HubAfter(steps), s, audience);
  }

  /** Following a ticket reaches that ticket's messages of the socket's own tenant, until it is unfollowed;
      following changes what is received from no other audience. */
  lemma WatchingIsExact(steps: seq<Step>, s: Id, ticketId: string, audience: Audience)
    requires IsRun(steps) && ColonFree(audience.tenantId) && ticketId != ""
    ensures var hub := HubAfter(steps);
            s in hub.sockets && hub.IsOpen(s) ==>
              var own := ToTicket(hub.sockets[s].tenantId, ticketId);
              && (s in Reached(Watched(hub, s, Some(ticketId)), audience) <==> audience == own || s in Reached(hub, audience))
              && (s in Reached(Unwatched(hub, s, Some(ticketId)), audience) <==> audience != own && s in Reached(hub, audience))
    ensures Watched(HubAfter(steps), s, None) == Watched(HubAfter(steps), s, Some("")) == HubAfter(steps)
    ensures s !in HubAfter(steps).sockets ==> Watched(HubAfter(steps), s, Some(ticketId)) == HubAfter(steps)
  {
    TenantsNeverMix(steps);
    var hub := HubAfter(steps);
    if s in hub.sockets && hub.IsOpen(s) {
      assert WellKept(hub, s);
      RoomsAreInjective(ToTicket(hub.sockets[s].tenantId, ticketId), audience);
    }
  }

  // ----------------------------------------------------- a handler overtaken

  /** The socket was closed while the handler of its connection was still running. */
  ghost predicate Overtaken(steps: seq<Step>, s: Id) {
    && |steps| > 0
    && var init := steps[..|steps| - 1];
       Overtaken(init, s) || (steps[|steps| - 1] == Disconnect(s) && s in HubAfter(init).handlers)
  }

  /** The handler does not look whether its socket is still open: a registered socket is a closed one
      exactly if it was closed while its handler ran. Nothing reaches it then. */
  lemma {:induction false} RegisteredClosedIff(steps: seq<Step>, s: Id)
    requires IsRun(steps)
    ensures var hub := HubAfter(steps);
            && (s in hub.sockets || s in hub.handlers ==> (s in hub.closed <==> Overtaken(steps, s)))
            && (s in hub.closed ==> forall audience :: s !in Reached(hub, audience))
            && (Overtaken(steps, s) ==> s in hub.closed)
  {
    if |steps| > 0 {
      var init := steps[..|steps| - 1];
      RegisteredClosedIff(init, s);
      TenantsNeverMix(init);
      assert WellKept(HubAfter(init), s);
    }
  }

  /** It does happen: closed before the verifier answers, and registered all the same. */
  lemma ClosedYetRegistered(s: Id, p: Principal) returns (steps: seq<Step>)
    requires ColonFree(p.tenantId) && !HasAtLeastRole(p.role, Agent)
    ensures IsRun(steps) && s in HubAfter(steps).sockets && s in HubAfter(steps).closed && s !in HubAfter(steps).handlers
  {
    var one, two := [Accept(s)], [Accept(s), Disconnect(s)];
    var three := two + [Verify(s, Some(p))];
    steps := three + [Resume(s)];
    assert one[..0] == [] && two[..1] == one && three[..2] == two && steps[..3] == three;
    assert IsRun(one[..0]) && HubAfter(one[..0]) == EmptyHub;
    assert IsRun(one) && HubAfter(one).IsOpen(s);
    assert IsRun(two) && IsRun(three);
  }

  // -------------------------------------------------- with nothing in between

  function RoomsOnEntry(p: Principal): set<string> {
    {RoomOf(ToTenant(p.tenantId))} + if HasAtLeastRole(p.role, Agent) then {RoomOf(ToStaff(p.tenantId))} else {}
  }

  /** A verified connection that nothing interrupts: registered, in the tenant's room and, with the rank,
      in the staff's. */
  function Connected(hub: Hub, socket: Id, p: Principal): Hub {
    hub.(accepted := hub.accepted + {socket}, sockets := hub.sockets[socket := p], rooms := hub.rooms[socket := RoomsOnEntry(p)])
  }

  lemma UninterruptedEntry(hub: Hub, socket: Id, p: Principal)
    requires HubInv(hub) && socket !in hub.accepted
    ensures var inTenant := Verified(Accepted(hub, socket), socket, Some(p));
            var joined := if HasAtLeastRole(p.role, Agent) then Resumed(inTenant, socket) else inTenant;
            Resumed(joined, socket) == Connected(hub, socket, p)
  {
    assert WellKept(hub, socket);
    var inTenant := Verified(Accepted(hub, socket), socket, Some(p));
    var joined := if HasAtLeastRole(p.role, Agent) then Resumed(inTenant, socket) else inTenant;
    assert joined.handlers - {socket} == hub.handlers;
    assert joined.rooms[socket] == RoomsOnEntry(p);
    assert joined.rooms == hub.rooms[socket := RoomsOnEntry(p)];
  }

  /** The steps that broadcast one event with nothing in between. */
  function BroadcastSteps(input: BroadcastInput, n: nat): seq<Step> {
    if n == 0 then [] else BroadcastSteps(input, n - 1) + [Publish(input, n - 1)]
  }

  lemma OneMore(steps: seq<Step>, step: Step)
    requires IsRun(steps) && Can(HubAfter(steps), step)
    ensures IsRun(steps + [step]) && HubAfter(steps + [step]) == After(HubAfter(steps), step)
  {
    assert (steps + [step])[..|steps|] == steps;
  }

  lemma OneMoreDelivery(hub: Hub, deliveries: seq<Delivery>, n: nat)
    requires 0 < n <= |deliveries|
    ensures PublishedAll(hub, deliveries[..n]) == Published(PublishedAll(hub, deliveries[..n - 1]), deliveries[n - 1])
  {
    assert deliveries[..n][..n - 1] == deliveries[..n - 1];
  }

  /** They are steps of the machine, and amount to all deliveries in order. */
  lemma {:induction false} BroadcastIsRun(steps: seq<Step>, input: BroadcastInput, n: nat)
    requires IsRun(steps) && ColonFree(input.tenantId) && n <= |DeliveriesFor(input)|
    ensures IsRun(steps + BroadcastSteps(input, n))
    ensures HubAfter(steps + BroadcastSteps(input, n)) == PublishedAll(HubAfter(steps), DeliveriesFor(input)[..n])
  {
    if n == 0 {
      assert steps + BroadcastSteps(input, 0) == steps;
    } else {
      BroadcastIsRun(steps, input, n - 1);
      OneMore(steps + BroadcastSteps(input, n - 1), Publish(input, n - 1));
      assert steps + BroadcastSteps(input, n) == steps + BroadcastSteps(input, n - 1) + [Publish(input, n - 1)];
      OneMoreDelivery(HubAfter(steps), DeliveriesFor(input), n);
    }
  }
}
