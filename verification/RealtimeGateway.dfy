/** The gateway and the use case that feeds it, proved against the hub of rooms and emissions. */
module RealtimeGateway {
  import opened Kernel
  import opened Realtime

  datatype WatchReply = Watching(ticketId: string) | NotAuthorized | BadTicketId

  class Gateway {
    /** Registered sockets, with what their token says. */
    var sockets: map<Id, Principal>
    /** What the socket server keeps: sockets accepted, closed, and the rooms each has joined. */
    var accepted: set<Id>
    var closed: set<Id>
    var rooms: map<Id, set<string>>
    /** Suspended handlers of new connections. */
    var handlers: map<Id, Handler>
    ghost var emissions: seq<Emission>

    constructor ()
      ensures State() == EmptyHub
    {
      accepted, closed, handlers, sockets, rooms, emissions := {}, {}, map[], map[], map[], [];
    }

    ghost function State(): Hub
      reads this
    {
      Hub(accepted, closed, handlers, sockets, rooms, emissions)
    }

    method Join(socket: Id, room: string)
      modifies this`rooms
      ensures rooms == old(Joined(State(), socket, room))
    {
      var joined := if socket in rooms then rooms[socket] else {};
      rooms := rooms[socket := joined + {room}];
    }

    /** The socket server closes a socket, and the gateway is told. */
    method Close(socket: Id)
      modifies this`closed, this`rooms, this`sockets
      ensures State() == Disconnected(old(State()), socket)
    {
      closed := closed + {socket};
      rooms := rooms - {socket};
      HandleDisconnect(socket);
    }

    method HandleDisconnect(socket: Id)
      modifies this`sockets
      ensures sockets == old(sockets) - {socket}
    {
      if socket in sockets {
        sockets := sockets - {socket};
      }
    }

    /** A new connection. The handler runs up to its first wait: for the token to be verified. */
    method HandleConnection(socket: Id)
      modifies this`accepted, this`handlers
      ensures State() == Accepted(old(State()), socket)
    {
      accepted := accepted + {socket};
      handlers := handlers[socket := Verifying];
    }

    /** It goes on with the answer. Rooms are decided here, by the server, from the token. */
    method AfterVerify(socket: Id, principal: Option<Principal>)
      requires socket in handlers && handlers[socket].Verifying?
      modifies this
      ensures State() == Verified(old(State()), socket, principal)
    {
      match principal
      case None =>
        Close(socket);
        handlers := handlers - {socket};
      case Some(p) =>
        Join(socket, RoomOf(ToTenant(p.tenantId)));
        handlers := handlers[socket := InTenant(p)];
    }

    /** And goes on once the socket has joined. */
    method AfterJoin(socket: Id)
      requires socket in handlers && !handlers[socket].Verifying?
      modifies this
      ensures State() == Resumed(old(State()), socket)
    {
      var p := handlers[socket].who;
      if handlers[socket].InTenant? && HasAtLeastRole(p.role, Agent) {
        Join(socket, RoomOf(ToStaff(p.tenantId)));
        handlers := handlers[socket := InStaff(p)];
      } else {
        sockets := sockets[socket := p];
        handlers := handlers - {socket};
      }
    }

    method WatchTicket(socket: Id, ticketId: Option<string>) returns (reply: WatchReply)
      modifies this`rooms
      ensures State() == Watched(old(State()), socket, ticketId)
      ensures reply == if socket !in sockets then NotAuthorized else if ticketId.None? || ticketId.value == "" then BadTicketId else Watching(ticketId.value)
    {
      if socket !in sockets { return NotAuthorized; }
      if ticketId.None? || ticketId.value == "" { return BadTicketId; }
      Join(socket, RoomOf(ToTicket(sockets[socket].tenantId, ticketId.value)));
      reply := Watching(ticketId.value);
    }

    method UnwatchTicket(socket: Id, ticketId: Option<string>)
      modifies this`rooms
      ensures State() == Unwatched(old(State()), socket, ticketId)
    {
      if socket !in sockets || ticketId.None? { return; }
      var joined := if socket in rooms then rooms[socket] else {};
      rooms := rooms[socket := joined - {RoomOf(ToTicket(sockets[socket].tenantId, ticketId.value))}];
    }

    /** Whoever is in the room by now receives the message. */
    method Publish(d: Delivery)
      modifies this`emissions
      ensures State() == Published(old(State()), d)
    {
      emissions := emissions + [Emission(d.audience, d.message, Reached(State(), d.audience))];
    }
  }

  /** `BroadcastTicketEvent.execute`: how many audiences were addressed; none means the event has no view. */
  method BroadcastTicketEvent(gateway: Gateway, input: BroadcastInput) returns (audiences: nat)
    modifies gateway`emissions
    ensures gateway.State() == PublishedAll(old(gateway.State()), DeliveriesFor(input))
    ensures audiences == |DeliveriesFor(input)| == |gateway.emissions| - |old(gateway.emissions)|
  {
    var deliveries := DeliveriesFor(input);
    var i := 0;
    assert deliveries[..0] == [];
    while i < |deliveries|
      invariant 0 <= i <= |deliveries|
      invariant gateway.State() == PublishedAll(old(gateway.State()), deliveries[..i])
      invariant |gateway.emissions| == |old(gateway.emissions)| + i
    {
      gateway.Publish(deliveries[i]);
      assert deliveries[..i + 1][..i] == deliveries[..i];
      i := i + 1;
    }
    assert deliveries[..i] == deliveries;
    audiences := |deliveries|;
  }
}
