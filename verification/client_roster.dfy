/**
 * The participant list the video-call page keeps: how each message from the socket server
 * rewrites it, the optimistic local controls (mute, spotlight, hand, remove) with the socket
 * events and HTTP requests they send, the local audio and video toggles, and the
 * once-per-second duration tick.
 */
module ClientRoster {
  import opened Common
  import Durations
  import RoomServer
  import Routing

  /** One element of the component's `participants` state. `leftAt` is absent until a
      `user-disconnected` message names the entry. */
  datatype Entry = Entry(
    id: UserId,
    name: string,
    isMuted: bool,
    isVideoOn: bool,
    isSpotlighted: bool,
    handRaised: bool,
    role: Role,
    joinedAt: Option<Time>,
    leftAt: Option<Time>,
    duration: int)

  /** The fetched meeting: its `_id` and its host's user id. */
  datatype MeetingInfo = MeetingInfo(meetingId: string, hostId: UserId)

  /** What the page knows besides the list: the room from the URL, its own random socket user id,
      the fetched meeting (if the fetch succeeded), the logged-in account, and whether
      `socketRef.current` is set, which `initWebSocket` does only once `joinRoom` has succeeded. */
  datatype Session = Session(roomId: RoomServer.RoomId, self: UserId, info: Option<MeetingInfo>, account: UserId,
                             socket: bool)

  /** `isHost`: the logged-in account is the fetched meeting's host. */
  predicate IsHost(s: Session) {
    s.info.Some? && s.info.value.hostId == s.account
  }

  /** The list after a message, and whether the page leaves the room. */
  datatype Reaction = Reaction(list: seq<Entry>, leave: bool)

  /** An HTTP request the page sends: the meeting and participant in its path, and its body. */
  datatype ApiCall = ApiCall(meetingId: string, participantId: string, req: Routing.Request)

  /** The list after a local control, with the socket events and the HTTP requests it sends. */
  datatype Local = Local(list: seq<Entry>, emitted: seq<RoomServer.Event>, calls: seq<ApiCall>)

  // ---------------------------------------------------------------------------
  // List primitives

  /** `prev.map(p => p.id === id ? f(p) : p)`. */
  function Update(list: seq<Entry>, id: UserId, f: Entry -> Entry): (r: seq<Entry>)
    ensures |r| == |list|
    ensures forall j :: 0 <= j < |list| ==> r[j] == (if list[j].id == id then f(list[j]) else list[j])
  {
    seq(|list|, j requires 0 <= j < |list| => if list[j].id == id then f(list[j]) else list[j])
  }

  /** `prev.filter(p => p.id !== id)`. */
  function Without(list: seq<Entry>, id: UserId): (r: seq<Entry>)
    ensures forall e :: e in r <==> e in list && e.id != id
    ensures |r| <= |list|
  {
    if |list| == 0 then []
    else (if list[0].id == id then [] else [list[0]]) + Without(list[1..], id)
  }

  /** `participants.find(p => p.id === id)`, as a position. */
  function Find(list: seq<Entry>, id: UserId): Option<nat>
  {
    FindFirst(list, (e: Entry) => e.id, id)
  }

  // ---------------------------------------------------------------------------
  // Messages from the server

  /** The entry `user-connected` appends: numbered after the current list, present from `now`. */
  function Newcomer(s: Session, id: UserId, position: nat, now: Time): Entry
  {
    var role := if s.info.Some? && s.info.value.hostId == id then Host else Participant;
    Entry(id, "Participant " + Durations.NatToString(position), false, true, false, false, role, Some(now), None, 0)
  }

  /** The handlers registered in `initWebSocket`. The call-setup messages only log. */
  function Receive(s: Session, list: seq<Entry>, msg: RoomServer.Message, now: Time): Reaction
  {
    match msg
    case UserConnected(u) => Reaction(list + [Newcomer(s, u, |list| + 1, now)], false)
    case ParticipantJoined(u, t) => Reaction(Update(list, u, (e: Entry) => e.(joinedAt := Some(t))), false)
    case UserDisconnected(u) => Reaction(Update(list, u, (e: Entry) => e.(leftAt := Some(now))), false)
    case ParticipantMuted(u, muted) => Reaction(Update(list, u, (e: Entry) => e.(isMuted := muted)), false)
    case ParticipantVideoChanged(u, videoOff) => Reaction(Update(list, u, (e: Entry) => e.(isVideoOn := !videoOff)), false)
    case ParticipantHandRaised(u, raised) => Reaction(Update(list, u, (e: Entry) => e.(handRaised := raised)), false)
    case ParticipantRemoved(pid) => Reaction(Without(list, pid), pid == s.self)
    case YouWereRemoved(_) => Reaction(list, true)
    case ParticipantSpotlighted(pid, spotlighted) => Reaction(SpotlightOnly(list, pid, spotlighted), false)
    case OfferRelay(_) => Reaction(list, false)
    case AnswerRelay(_) => Reaction(list, false)
    case IceCandidateRelay(_) => Reaction(list, false)
  }

  /** Matching entries get `spotlighted`, every other entry is cleared. */
  function SpotlightOnly(list: seq<Entry>, id: UserId, spotlighted: bool): (r: seq<Entry>)
    ensures |r| == |list|
    ensures forall j :: 0 <= j < |list| ==> r[j].(isSpotlighted := list[j].isSpotlighted) == list[j]
  {
    seq(|list|, j requires 0 <= j < |list| => list[j].(isSpotlighted := if list[j].id == id then spotlighted else false))
  }

  // ---------------------------------------------------------------------------
  // Local controls

  /** `if (socketRef.current) socketRef.current.emit(...)`: nothing goes out before the socket exists. */
  function Emit(s: Session, ev: RoomServer.Event): seq<RoomServer.Event>
  {
    if s.socket then [ev] else []
  }

  /** The host's HTTP request, sent only when the page believes it is the host. */
  function HostCall(s: Session, participantId: string, req: Routing.Request): seq<ApiCall>
  {
    if IsHost(s) then [ApiCall(s.info.value.meetingId, participantId, req)] else []
  }

  /** `muteParticipant`: flip the flag the first matching entry shows, on every matching entry;
      announce it for that user; as host, also ask the backend. */
  function MuteLocal(s: Session, list: seq<Entry>, pid: UserId): Local
  {
    match Find(list, pid)
    case None => Local(list, [], [])
    case Some(i) =>
      var muted := !list[i].isMuted;
      Local(Update(list, pid, (e: Entry) => e.(isMuted := muted)),
            Emit(s, RoomServer.MuteStatusChange(s.roomId, pid, muted)),
            HostCall(s, pid, Routing.MuteReq(s.account, muted)))
  }

  /** `spotlightParticipant`: flip the first matching entry's flag onto every matching entry and
      clear everyone else. */
  function SpotlightLocal(s: Session, list: seq<Entry>, pid: UserId): Local
  {
    match Find(list, pid)
    case None => Local(list, [], [])
    case Some(i) =>
      var spotlighted := !list[i].isSpotlighted;
      Local(SpotlightOnly(list, pid, spotlighted),
            Emit(s, RoomServer.SpotlightParticipant(s.roomId, pid, spotlighted)),
            HostCall(s, pid, Routing.SpotlightReq(s.account, spotlighted)))
  }

  /** `toggleHandRaise`: like mute, but the HTTP request goes out whenever the meeting was fetched. */
  function HandLocal(s: Session, list: seq<Entry>, pid: UserId): Local
  {
    match Find(list, pid)
    case None => Local(list, [], [])
    case Some(i) =>
      var raised := !list[i].handRaised;
      Local(Update(list, pid, (e: Entry) => e.(handRaised := raised)),
            Emit(s, RoomServer.HandRaise(s.roomId, pid, raised)),
            if s.info.Some? then [ApiCall(s.info.value.meetingId, pid, Routing.HandReq(s.account, raised))] else [])
  }

  /** `removeParticipant`: nothing unless the confirmation dialog was accepted; then drop every
      matching entry, announce it, and as host ask the backend. */
  function RemoveLocal(s: Session, list: seq<Entry>, pid: UserId, confirmed: bool): Local
  {
    if !confirmed then Local(list, [], [])
    else Local(Without(list, pid), Emit(s, RoomServer.RemoveParticipant(s.roomId, pid)),
               HostCall(s, pid, Routing.RemoveReq(s.account)))
  }

  /** `toggleAudio`: with no stream or no audio track nothing happens; otherwise the track's
      `enabled` flips and the page announces itself muted exactly when the track is now disabled. */
  function ToggleAudio(s: Session, audioEnabled: Option<bool>): (r: (Option<bool>, seq<RoomServer.Event>))
  {
    match audioEnabled
    case None => (None, [])
    case Some(enabled) => (Some(!enabled), Emit(s, RoomServer.MuteStatusChange(s.roomId, s.self, enabled)))
  }

  /** `toggleVideo`: the same for the video track, announcing `videoOff`. */
  function ToggleVideo(s: Session, videoEnabled: Option<bool>): (r: (Option<bool>, seq<RoomServer.Event>))
  {
    match videoEnabled
    case None => (None, [])
    case Some(enabled) => (Some(!enabled), Emit(s, RoomServer.VideoStatusChange(s.roomId, s.self, enabled)))
  }

  // ---------------------------------------------------------------------------
  // The duration tick

  /** One entry's duration at `now`: recomputed while present, otherwise kept. */
  function TickEntry(e: Entry, now: Time): Entry
  {
    if e.joinedAt.Some? && e.leftAt.None? then e.(duration := Durations.ElapsedSeconds(e.joinedAt.value, now)) else e
  }

  /** The interval's update, installed only once the page has joined and the list is non-empty. */
  function Tick(list: seq<Entry>, joined: bool, now: Time): (r: seq<Entry>)
    ensures |r| == |list|
  {
    if joined && |list| > 0 then seq(|list|, j requires 0 <= j < |list| => TickEntry(list[j], now)) else list
  }

  /** No two entries share an id. */
  predicate DistinctIds(list: seq<Entry>) {
    forall i, j :: 0 <= i < j < |list| ==> list[i].id != list[j].id
  }

  /** How many entries carry `id`. */
  function CountId(list: seq<Entry>, id: UserId): nat
  {
    if |list| == 0 then 0 else (if list[0].id == id then 1 else 0) + CountId(list[1..], id)
  }
}
