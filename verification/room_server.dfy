/**
 * The socket event handlers of the backend process: the registry of present participants
 * (`activeParticipants`), the registry of their sockets (`participantSockets`), socket.io
 * room membership, and the relay of control and call-setup messages. Each inbound event is
 * a pure transition that returns the new registry and the messages sent, each message with
 * the set of sockets it is delivered to.
 */
module RoomServer {
  import opened Common

  type RoomId = string
  type SocketId = string

  /** Opaque call-setup payloads (session descriptions, candidates), forwarded as they are. */
  type Payload = string

  /** The registry key `${roomId}-${userId}`. It is a plain concatenation and is not injective:
      ("a-b", "c") and ("a", "b-c") share a key, and the model keeps that behaviour. */
  function KeyOf(roomId: RoomId, userId: UserId): string
  {
    roomId + "-" + userId
  }

  /** One `activeParticipants` value. */
  datatype Presence = Presence(userId: UserId, roomId: RoomId, joinTime: Time, lastActive: Time)

  /** The (room, user) captured by the disconnect handler that one `join-room` registers. */
  datatype Binding = Binding(roomId: RoomId, userId: UserId)

  datatype Registry = Registry(
    active: map<string, Presence>,
    sockets: map<string, SocketId>,
    rooms: map<RoomId, set<SocketId>>,
    connected: set<SocketId>,
    bindings: map<SocketId, seq<Binding>>)

  /** Nothing connected, nothing registered: the state when the process starts. */
  const Empty := Registry(map[], map[], map[], {}, map[])

  /** The inbound socket events, each with the data its handler destructures. */
  datatype Event =
    | Connect
    | JoinRoom(roomId: RoomId, userId: UserId)
    | Disconnect
    | MuteStatusChange(roomId: RoomId, userId: UserId, muted: bool)
    | VideoStatusChange(roomId: RoomId, userId: UserId, videoOff: bool)
    | HandRaise(roomId: RoomId, userId: UserId, raised: bool)
    | RemoveParticipant(roomId: RoomId, participantId: UserId)
    | SpotlightParticipant(roomId: RoomId, participantId: UserId, spotlighted: bool)
    | Offer(offer: Payload, roomId: RoomId)
    | Answer(answer: Payload, roomId: RoomId)
    | IceCandidate(candidate: Payload, roomId: RoomId)

  /** The outbound socket events. */
  datatype Message =
    | UserConnected(userId: UserId)
    | ParticipantJoined(userId: UserId, joinTime: Time)
    | UserDisconnected(userId: UserId)
    | ParticipantMuted(userId: UserId, muted: bool)
    | ParticipantVideoChanged(userId: UserId, videoOff: bool)
    | ParticipantHandRaised(userId: UserId, raised: bool)
    | ParticipantRemoved(participantId: UserId)
    | YouWereRemoved(roomId: RoomId)
    | ParticipantSpotlighted(participantId: UserId, spotlighted: bool)
    | OfferRelay(offer: Payload)
    | AnswerRelay(answer: Payload)
    | IceCandidateRelay(candidate: Payload)

  datatype Delivery = Delivery(to: set<SocketId>, message: Message)

  /** What the disconnect handler logs for a departing participant: the milliseconds since its join. */
  datatype Departure = Departure(roomId: RoomId, userId: UserId, elapsed: int)

  datatype Step = Step(registry: Registry, out: seq<Delivery>, departures: seq<Departure>)

  /** The sockets in a socket.io room; a room nobody has entered is empty. */
  function Members(reg: Registry, roomId: RoomId): set<SocketId>
  {
    if roomId in reg.rooms then reg.rooms[roomId] else {}
  }

  /** `socket.to(roomId)`: everyone in the room except the sending socket. */
  function Others(reg: Registry, roomId: RoomId, sender: SocketId): (r: set<SocketId>)
  {
    Members(reg, roomId) - {sender}
  }

  function BindingsOf(reg: Registry, s: SocketId): seq<Binding>
  {
    if s in reg.bindings then reg.bindings[s] else []
  }

  // ---------------------------------------------------------------------------
  // Handlers

  /** `join-room`: enter the socket.io room, announce the user to the others, store the presence
      and the socket under the key (overwriting any earlier one), and register a disconnect handler. */
  function Join(reg: Registry, sender: SocketId, roomId: RoomId, userId: UserId, now: Time): Step
  {
    var entered := reg.(rooms := reg.rooms[roomId := Members(reg, roomId) + {sender}]);
    var to := Others(entered, roomId, sender);
    var key := KeyOf(roomId, userId);
    var reg' := entered.(
      active := reg.active[key := Presence(userId, roomId, now, now)],
      sockets := reg.sockets[key := sender],
      bindings := reg.bindings[sender := BindingsOf(reg, sender) + [Binding(roomId, userId)]]);
    Step(reg', [Delivery(to, UserConnected(userId)), Delivery(to, ParticipantJoined(userId, now))], [])
  }

  /** One registered disconnect handler: if its key is still present, drop it from both maps,
      tell the room, and log the time since the stored join. */
  function RunBinding(reg: Registry, sender: SocketId, b: Binding, now: Time): Step
  {
    var key := KeyOf(b.roomId, b.userId);
    if key in reg.active then
      var p := reg.active[key];
      Step(reg.(active := reg.active - {key}, sockets := reg.sockets - {key}),
           [Delivery(Others(reg, b.roomId, sender), UserDisconnected(b.userId))],
           [Departure(b.roomId, b.userId, now - p.joinTime)])
    else Step(reg, [], [])
  }

  /** The registered disconnect handlers, in registration order. */
  function RunBindings(reg: Registry, sender: SocketId, bs: seq<Binding>, now: Time): Step
    decreases |bs|
  {
    if |bs| == 0 then Step(reg, [], [])
    else
      var first := RunBinding(reg, sender, bs[0], now);
      var rest := RunBindings(first.registry, sender, bs[1..], now);
      Step(rest.registry, first.out + rest.out, first.departures + rest.departures)
  }

  /** `disconnect`: the socket leaves every room and the connection table, then each handler
      its `join-room` calls registered runs. */
  function Disconnected(reg: Registry, sender: SocketId, now: Time): Step
  {
    var left := reg.(
      rooms := map r | r in reg.rooms :: reg.rooms[r] - {sender},
      connected := reg.connected - {sender},
      bindings := reg.bindings - {sender});
    RunBindings(left, sender, BindingsOf(reg, sender), now)
  }

  /** The last-activity bump of the control events: only an existing entry is touched. */
  function Touch(reg: Registry, roomId: RoomId, userId: UserId, now: Time): Registry
  {
    var key := KeyOf(roomId, userId);
    if key in reg.active then reg.(active := reg.active[key := reg.active[key].(lastActive := now)])
    else reg
  }

  /** `remove-participant`: tell the room, and tell the target's socket directly when one is
      registered under the key and still connected. The registry is left as it is. */
  function RemoveOut(reg: Registry, sender: SocketId, roomId: RoomId, participantId: UserId): seq<Delivery>
  {
    var key := KeyOf(roomId, participantId);
    var broadcast := Delivery(Others(reg, roomId, sender), ParticipantRemoved(participantId));
    if key in reg.sockets && reg.sockets[key] in reg.connected
    then [broadcast, Delivery({reg.sockets[key]}, YouWereRemoved(roomId))]
    else [broadcast]
  }

  /** The server's reaction to one event from socket `sender` at time `now`. A new connection
      enters the room socket.io names by the socket's own id. Events from a socket that is not
      connected have no handler to run. No handler consults any role. */
  function Handle(reg: Registry, sender: SocketId, ev: Event, now: Time): Step
  {
    if ev.Connect? then
      if sender in reg.connected then Step(reg, [], [])
      else Step(reg.(
        rooms := reg.rooms[sender := Members(reg, sender) + {sender}],
        connected := reg.connected + {sender},
        bindings := reg.bindings[sender := []]), [], [])
    else if sender !in reg.connected then Step(reg, [], [])
    else match ev
      case JoinRoom(roomId, userId) => Join(reg, sender, roomId, userId, now)
      case Disconnect => Disconnected(reg, sender, now)
      case MuteStatusChange(roomId, userId, muted) =>
        Step(Touch(reg, roomId, userId, now), [Delivery(Others(reg, roomId, sender), ParticipantMuted(userId, muted))], [])
      case VideoStatusChange(roomId, userId, videoOff) =>
        Step(Touch(reg, roomId, userId, now), [Delivery(Others(reg, roomId, sender), ParticipantVideoChanged(userId, videoOff))], [])
      case HandRaise(roomId, userId, raised) =>
        Step(Touch(reg, roomId, userId, now), [Delivery(Others(reg, roomId, sender), ParticipantHandRaised(userId, raised))], [])
      case RemoveParticipant(roomId, participantId) =>
        Step(reg, RemoveOut(reg, sender, roomId, participantId), [])
      case SpotlightParticipant(roomId, participantId, spotlighted) =>
        Step(reg, [Delivery(Others(reg, roomId, sender), ParticipantSpotlighted(participantId, spotlighted))], [])
      case Offer(offer, roomId) => Step(reg, [Delivery(Others(reg, roomId, sender), OfferRelay(offer))], [])
      case Answer(answer, roomId) => Step(reg, [Delivery(Others(reg, roomId, sender), AnswerRelay(answer))], [])
      case IceCandidate(candidate, roomId) =>
        Step(reg, [Delivery(Others(reg, roomId, sender), IceCandidateRelay(candidate))], [])
  }

  // ---------------------------------------------------------------------------
  // Traces

  /** One event of a trace: who sent it, what it was, and when it arrived. */
  datatype Input = Input(sender: SocketId, event: Event, at: Time)

  /** A sequence of events handled one after another; outputs are concatenated in order. */
  function Run(reg: Registry, trace: seq<Input>): Step
    decreases |trace|
  {
    if |trace| == 0 then Step(reg, [], [])
    else
      var first := Handle(reg, trace[0].sender, trace[0].event, trace[0].at);
      var rest := Run(first.registry, trace[1..]);
      Step(rest.registry, first.out + rest.out, first.departures + rest.departures)
  }

  /** Arrival times never go backwards, and none is earlier than `from`. */
  predicate Monotone(trace: seq<Input>, from: Time) {
    && (forall i :: 0 <= i < |trace| ==> from <= trace[i].at)
    && (forall i, j :: 0 <= i < j < |trace| ==> trace[i].at <= trace[j].at)
  }
}
