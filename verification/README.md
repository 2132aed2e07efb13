# Meeting-session coordinator: a Dafny model

This project models the session core of a video-meeting application in Dafny 4.11. It covers
three layers:

- **The meeting controller** (`backend/controllers/meetingController.js`). It holds the
  participant-control endpoints, the attendance arithmetic, the per-participant analytics, the
  user engagement summary and `formatDuration`. Each endpoint is a pure function. It receives
  the meeting the database lookup returned (or nothing) and answers with the meeting it would
  save or with the error it responds with (`MeetingNotFound`, `ParticipantNotFound`,
  `AccessDenied`, `CannotRemoveHost`, `AlreadyAdded`).
- **The socket server** (`backend/server.js`). It keeps the registries `activeParticipants` and
  `participantSockets`, keyed by the string `${roomId}-${userId}`, and tracks room membership,
  the connected sockets and the disconnect handlers each `join-room` registers. Every inbound
  socket event is a transition. It returns the new registry, the outgoing messages (each with
  the set of sockets it is delivered to) and the departures the disconnect handler logs.
- **The video-call page's participant list** (`frontend/src/components/VideoCall.jsx`). This
  covers how each server message rewrites the list, the optimistic local controls with the
  socket events and HTTP requests they send, the audio and video toggles, and the
  once-per-second duration tick. The page consumes the server model's own `Message` type, so
  lemmas can follow an event from one page, through the server, to another page.

Modules: `Common` (Option, Result, times, roles, floor division, JavaScript `%`), `Durations`,
`MeetingControl` and `MeetingControlProps`, `Attendance`, `Routing`, `RoomServer` and
`RoomServerProps`, `ClientRoster` and `ClientRosterProps`.

Behaviour the model keeps as the code has it:

- Authorization is checked only by the HTTP handlers. No socket handler consults a role, and a
  socket may speak for any user id (`RoomServerProps.NoSenderCheck`).
- `remove-participant` on the socket leaves both registries untouched.
- A user who rejoins the same room from a second socket loses the registry entry when the
  first socket disconnects. The first socket's handler still holds the key
  (`RoomServerProps.StaleSocketDropsRejoin`).
- The registry key is a plain concatenation, so distinct (room, user) pairs can collide
  (`RoomServerProps.KeyCollision`). It is injective only when room ids contain no `-`.
- `user-connected` on the page does not de-duplicate. A repeated announcement yields two
  entries.
- The page sends its HTTP requests with the list entry's id (a user id, or the random socket
  user id) as `:participantId`. The controller looks that value up among participant
  subdocument `_id`s.

The code does not close an older presence record on rejoin, does not finalize attendance on
removal, and does not authorize socket controls; the model does none of these either.

Two handlers are written but unreachable, and the model keeps them as handlers:

- `getUserEngagementStats` is exported (backend/controllers/meetingController.js:808) but
  backend/routes/meetings.js:1-45 never imports or mounts it, so the page's
  `GET /api/meetings/analytics/user` (frontend/src/services/api.js:171) matches no route.
  `Attendance.EngagementStats` models the handler itself.
- The per-participant handlers read `req.params.meetingId`, which the routes never bind (see
  "## Findings"). `Routing` models both readings.
- `updateParticipantLeaveTime` computes the stay (backend/controllers/meetingController.js:320-324)
  and assigns it to `participant.duration`, a path the participants sub-schema
  (backend/models/Meeting.js:23-58) does not declare, so it is neither saved nor answered.
  `MeetingControl.UpdateLeaveTime` stores `leftAt` only.

## Model

| member | source | states |
|---|---|---|
| Durations.ElapsedSeconds | backend/controllers/meetingController.js:365-366 | a stay in seconds is the floor of the millisecond difference divided by 1000, and is non-negative when the leave time is not earlier |
| Durations.ScheduledSeconds | backend/controllers/meetingController.js:440-442 | the completed-meeting fallback is the scheduled minutes as a whole number of minutes in seconds |
| Durations.Split | frontend/src/components/VideoCall.jsx:653-656 | for a non-negative input, hours·3600 + minutes·60 + seconds equals the input with minutes and seconds below 60 |
| Durations.FormatDurationSegments | frontend/src/components/VideoCall.jsx:653-665 | the hours segment appears iff there is a full hour, the minutes segment iff there is an hour or a full minute, and the text always ends in the seconds unit |
| Durations.FormatDurationRoundTrip | backend/controllers/meetingController.js:497-509 | for a total that is not negative, reading the rendered "Hh Mm Ss" text back yields the seconds it was made from |
| Durations.NegativeTotalsCollide | backend/controllers/meetingController.js:497-509 | negative totals render lossily: −3605 and −5 seconds both render as "-5s" |
| Durations.NatToStringInjective | backend/controllers/meetingController.js:502-508 | distinct numbers render as distinct digit strings in the template literals |
| Common.FindFirst | backend/controllers/meetingController.js:540 | the lookup by subdocument id (and the page's `find` by id, frontend/src/components/VideoCall.jsx:501) yields the first position whose key is the id, and none exactly when no entry has it |
| MeetingControl.Mute | backend/controllers/meetingController.js:518-546 | a missing meeting is MeetingNotFound, an actor who is neither host nor moderator is AccessDenied; an admitted actor gets ParticipantNotFound iff the target is absent and success iff it is present |
| MeetingControl.ToggleHandRaise | backend/controllers/meetingController.js:700-735 | a missing meeting is MeetingNotFound; an actor admitted as host, moderator or owner of the target gets ParticipantNotFound iff the target is absent and success iff it is present |
| MeetingControl.Remove | backend/controllers/meetingController.js:580-590 | the same gate for removal: only the host or a moderator can succeed |
| MeetingControl.Spotlight | backend/controllers/meetingController.js:656-666 | the same gate for spotlight, and an admitted spotlight always succeeds, even for an unknown target |
| MeetingControl.AddParticipant | backend/controllers/meetingController.js:188-208 | adding needs a found meeting and the host or a moderator |
| MeetingControlProps.ModerationGate | backend/controllers/meetingController.js:527-537 | mute, remove and spotlight answer AccessDenied if and only if the actor is neither the host nor a participant with role moderator |
| MeetingControlProps.HandRaiseGate | backend/controllers/meetingController.js:711-733 | hand-raise is denied iff the actor is neither host, moderator nor owner of the target; a missing target is AccessDenied for others and ParticipantNotFound for moderators |
| MeetingControlProps.MuteChangesOnlyTarget | backend/controllers/meetingController.js:540-548 | a successful mute sets the first matching entry's flag to the request and changes no other entry, field or meeting attribute |
| MeetingControlProps.HandRaiseChangesOnlyTarget | backend/controllers/meetingController.js:727-735 | a successful hand-raise sets the first matching entry's handRaised to the request and changes no other entry, field or meeting attribute |
| MeetingControlProps.RemoveOutcomes | backend/controllers/meetingController.js:593-618 | an unknown target is not found, the host's entry is refused, and otherwise exactly that entry is deleted while the others keep their order (also as a multiset) |
| MeetingControlProps.HostNeverRemoved | backend/controllers/meetingController.js:603-612 | no successful removal takes away an entry that belongs to the host |
| MeetingControlProps.SpotlightExclusive | backend/controllers/meetingController.js:668-677 | after an admitted spotlight at most one entry is lit: only the target can carry the flag, it carries the requested value, an unknown target leaves everyone cleared, and no other field changes |
| MeetingControlProps.LeaveTimeStored | backend/controllers/meetingController.js:295-341 | an unknown entry is not found; a known one always succeeds, and only its leftAt changes, to the given value, with no other entry or meeting attribute touched |
| MeetingControlProps.JoinTimeStored | backend/controllers/meetingController.js:248-293 | without a gate, an unknown entry is not found; otherwise only the first matching entry changes: it takes the given join time, absent or not, and the role when one is given |
| MeetingControlProps.AddParticipantOutcomes | backend/controllers/meetingController.js:210-230 | the add is refused iff the user or the email is already listed and succeeds otherwise; on success exactly one invited entry is appended, with the new id, user, name, email, joined now, not left, the role asked for or 'participant', and the sub-schema's defaults not muted, video on, not spotlighted and hand down, and nothing else changes |
| MeetingControlProps.AddTwiceRejected | backend/controllers/meetingController.js:210-221 | adding the same person twice: the second request is always refused |
| Attendance.PresenceSeconds | backend/controllers/meetingController.js:358-372 | 0 without a join time; otherwise the floored seconds to the leave time, or to now while still present |
| Attendance.ParticipantAnalytics | backend/controllers/meetingController.js:358-384 | one row per participant in list order, whose duration is that participant's presence seconds, with the defaults not muted, video on and role 'participant' |
| Attendance.MeetingsOfCounts | backend/controllers/meetingController.js:405-408 | each stored meeting with an entry for the user is listed as often as it is stored, and no other meeting is listed |
| Attendance.FirstEntryOf | backend/controllers/meetingController.js:426-428 | the user's participation is the first entry whose user is them |
| Attendance.VisitRule | backend/controllers/meetingController.js:430-447 | a participation counts iff the user's entry has a join time and either a leave time or a completed meeting; it carries the join time, the floored elapsed seconds when there is a leave time, and otherwise the scheduled minutes in seconds |
| Attendance.PeakHours | backend/controllers/meetingController.js:466-470 | the result is the first three hours of a stable descending-count sort of the hours that occur: more joins first, ties to the earlier hour |
| Attendance.PeakHoursUnique | backend/controllers/meetingController.js:466-470 | `IsPeakHours` determines a single list, so any selection meeting it equals the sort-and-slice result |
| Attendance.WeekCountsSum | backend/controllers/meetingController.js:450-454 | the weekly buckets add up to the number of counted participations |
| Attendance.Tally | backend/controllers/meetingController.js:425-461 | every meeting increments the meeting count, and only counted participations add their seconds, weekday and hour |
| Attendance.EngagementStats | backend/controllers/meetingController.js:401-487 | totals, the floored average (0 without meetings), weekly buckets summing to the counted participations, peak hours and formatted strings of the summary |
| Routing.BindParams | backend/routes/meetings.js:31-45 | the participant routes bind `id` and `participantId`, and never `meetingId` |
| Routing.AsWrittenNeverFinds | backend/controllers/meetingController.js:514-524 | as written, every per-participant request is answered "Meeting not found" whatever is stored, and nothing is saved |
| Routing.AsWrittenMuteExample | backend/controllers/meetingController.js:514-524 | a concrete stored meeting whose host mutes their own entry: the corrected routing succeeds and the code as written answers not found |
| Routing.AnalyticsAsWrittenNeverFinds | backend/controllers/meetingController.js:345-355 | as written, the analytics request never finds its meeting |
| Routing.ServeFindsStored | backend/routes/meetings.js:35-42 | read under the bound name, each request runs its handler on the stored meeting and is not found exactly when none is stored; adding a participant is the same either way |
| Routing.AnalyticsFindsStored | backend/routes/meetings.js:45 | read under the bound name, analytics reports on the stored meeting |
| Routing.DispatchNotFound | backend/controllers/meetingController.js:518-523 | every handler answers MeetingNotFound exactly when the lookup found nothing |
| RoomServerProps.JoinRegisters | backend/server.js:69-91 | join announces the user to the sockets already in the room, stores exactly one presence (joinTime = lastActive = now) and the socket under the key, replacing any earlier one, and changes no other key |
| RoomServerProps.JoinValid | backend/server.js:69-117 | a join keeps the registry invariant, because the new disconnect handler holds the new key |
| RoomServerProps.HandleValid | backend/server.js:65-196 | every event keeps the invariant: both maps share their keys, entries sit under their own key, and every registered socket is connected and holds a disconnect handler for its key |
| RoomServerProps.RunValid | backend/server.js:65-196 | every trace of events keeps the invariant |
| RoomServerProps.ReachableValid | backend/server.js:59-62 | the empty registries the process starts with lead only to valid registries |
| RoomServerProps.DisconnectRemovesOwnKeys | backend/server.js:94-117 | disconnect removes exactly the present keys the socket's joins registered, from both maps, keeps every other entry as it was, takes the socket out of every room, the connection table and the handler table, and sends only user-disconnected messages that leave the departing socket out, no more of them than it logs departures |
| RoomServerProps.DisconnectDepartures | backend/server.js:94-107 | a disconnect logs one departure for each present key the socket's joins registered and for no other key, never one key twice, each stay being the time since that entry's stored join; the i-th message is user-disconnected for the i-th departure's user, sent to that room as it stood before the socket left, without the socket |
| RoomServerProps.RunBindingsDepartures | backend/server.js:95-100 | the handlers log each present key they were registered for exactly once, and no other key, with the time since that entry's join |
| RoomServerProps.RunBindingsRemoves | backend/server.js:95-104 | the disconnect handlers delete exactly the present keys they were registered for |
| RoomServerProps.RunBindingsOut | backend/server.js:98-107 | the handlers send exactly one message per logged departure, in the same order: user-disconnected for that departure's user, to that departure's room without the departing socket; there is at most one per handler |
| RoomServerProps.SecondDisconnectIsInert | backend/server.js:94-117 | the disconnect handlers run once: a second disconnect changes nothing and sends nothing |
| RoomServerProps.HandleTimely | backend/server.js:99-100 | for every event, with a clock that does not go backwards, each logged stay leaveTime − joinTime is non-negative and the stored times stay ordered; the exact value of each stay is stated by DisconnectDepartures |
| RoomServerProps.RunDeparturesNonNegative | backend/server.js:99-100 | over any trace with non-decreasing arrival times, every logged stay is non-negative |
| RoomServerProps.ControlEventsOnlyTouch | backend/server.js:121-160 | mute, video and hand events relay one message to the room without the sender, carrying the event's user id and its muted, videoOff or raised value, update only lastActive of an existing entry, and never create one |
| RoomServerProps.RemoveLeavesRegistry | backend/server.js:163-177 | socket removal broadcasts participant-removed, changes no registry, and sends you-were-removed to the target's socket exactly when one is registered under the key |
| RoomServerProps.RelaysKeepRegistry | backend/server.js:180-196 | spotlight and the call-setup payloads are relayed unchanged (the same participant id and flag, the same offer, answer or candidate) to the room without the sender, with no registry change |
| RoomServerProps.BroadcastsExcludeSender | backend/server.js:69-196 | no broadcast of any handler reaches the sending socket; only the direct removal notice can |
| RoomServerProps.BroadcastAudience | backend/server.js:65-71 | in every reachable registry, a socket hears a room broadcast iff it is in the room, is still connected and is not the sender; since each socket sits in the room named by its own id, a broadcast naming a connected socket's id reaches that socket |
| RoomServerProps.ReachableOwnRooms | backend/server.js:65 | every connected socket of a reachable registry is in the room named by its own id, from connection until it disconnects |
| RoomServerProps.DeliveriesReachConnected | backend/server.js:65-196 | from a valid registry, messages are addressed only to connected sockets |
| RoomServerProps.NoSenderCheck | backend/server.js:121-183 | no handler checks who sends: any two connected sockets produce the same registry and messages, the direct notice of a removal goes to the same sockets, and the broadcasts differ only in who is left out |
| RoomServerProps.UnconnectedIsInert | backend/server.js:65-69 | events from a socket that is not connected run no handler |
| RoomServerProps.KeyCollision | backend/server.js:75 | the key `${roomId}-${userId}` is not injective |
| RoomServerProps.KeyInjective | backend/server.js:75 | the key determines room and user when room ids contain no '-' |
| RoomServerProps.StaleSocketDropsRejoin | backend/server.js:83-104 | after a rejoin from a second socket, the first socket's disconnect deletes the entry the second one registered and logs the stay from the second join |
| ClientRoster.Without | frontend/src/components/VideoCall.jsx:211 | filtering keeps exactly the entries whose id differs |
| ClientRoster.SpotlightOnly | frontend/src/components/VideoCall.jsx:230-236 | the spotlight update changes only the spotlight flags |
| ClientRosterProps.UserConnectedAppends | frontend/src/components/VideoCall.jsx:126-147 | user-connected appends exactly one entry with the defaults, numbered after the list, host iff the id is the fetched host's, and with no de-duplication |
| ClientRosterProps.FieldMessagesChangeOnlyField | frontend/src/components/VideoCall.jsx:149-206 | joined, disconnected, muted, video and hand messages change only their field (isVideoOn = !videoOff) on matching entries, and keep the length |
| ClientRosterProps.FieldMessagesIdempotent | frontend/src/components/VideoCall.jsx:173-206 | receiving the same field or spotlight message twice is the same as once |
| ClientRosterProps.RemovedFilters | frontend/src/components/VideoCall.jsx:209-218 | participant-removed deletes every entry with the id, keeps each other entry as often and in the same order, and leaves iff the id is the page's own |
| ClientRosterProps.SpotlightedExclusive | frontend/src/components/VideoCall.jsx:228-237 | an entry is lit iff it has the named id and the flag is set, and with distinct ids at most one is lit |
| ClientRosterProps.OtherMessagesKeepList | frontend/src/components/VideoCall.jsx:220-256 | the direct removal notice and the call-setup messages leave the list alone, and only the notice makes the page leave |
| ClientRosterProps.LocalControlsIgnoreAbsent | frontend/src/components/VideoCall.jsx:498-501 | a local mute, spotlight or hand control aimed at an id not on the list changes nothing and sends nothing |
| ClientRosterProps.MuteLocalFlips | frontend/src/components/VideoCall.jsx:498-532 | local mute sets every matching entry to the opposite of the first match's flag and touches nothing else; it announces that value exactly when the socket exists; as host it sends exactly one PUT for that meeting and participant carrying the new value, and otherwise none |
| ClientRosterProps.HandLocalFlips | frontend/src/components/VideoCall.jsx:614-646 | local hand-raise flips the flag the same way and announces it exactly when the socket exists; whenever the meeting was fetched it sends exactly one PUT for that meeting and participant carrying the new value, and otherwise none |
| ClientRosterProps.SpotlightLocalExclusive | frontend/src/components/VideoCall.jsx:575-598 | local spotlight flips the target's flag and clears every other entry, so at most one entry is lit when ids are distinct; it announces the new flag exactly when the socket exists; as host it sends exactly one PUT carrying the new flag, and otherwise none |
| ClientRosterProps.MuteLocalTwiceRestores | frontend/src/components/VideoCall.jsx:503-513 | with distinct ids, muting the same participant twice restores the list |
| ClientRosterProps.HandLocalTwiceRestores | frontend/src/components/VideoCall.jsx:620-629 | with distinct ids, raising and lowering a hand restores the list |
| ClientRosterProps.RemoveLocalFilters | frontend/src/components/VideoCall.jsx:537-570 | local removal does nothing unconfirmed; confirmed, it filters exactly like the incoming message, announces the removal once exactly when the socket exists, and as host sends exactly one DELETE for that meeting and participant, otherwise none |
| ClientRosterProps.TogglesAnnounceTrackState | frontend/src/components/VideoCall.jsx:345-377 | the audio and video toggles each send nothing exactly when there is no track or no socket; with a track they flip it, and with a socket they announce muted/videoOff as the track's new disabled state; toggling twice restores it |
| ClientRosterProps.TickOnlyPresent | frontend/src/components/VideoCall.jsx:668-685 | the tick rewrites only the duration, as floored seconds since joining, of joined entries that have not left, and leaves all others unchanged |
| ClientRosterProps.TickIdempotent | frontend/src/components/VideoCall.jsx:671-679 | two ticks at the same instant equal one |
| ClientRosterProps.LocalMuteReachesPeers | frontend/src/components/VideoCall.jsx:515-518 | a local mute, relayed by the server to the rest of the room, gives every peer's matching entries the flag the sender set |
| ClientRosterProps.LocalCallsNeverPersist | frontend/src/components/VideoCall.jsx:520-532 | every backend request the local controls send is answered "Meeting not found" by the routes as written |

## Left out

- HTTP and database plumbing: `res.status(...).json`, `Meeting.findById`, `save` and `populate`. These are foreign calls. A handler receives the found meeting, or `None`, and returns the meeting it would save. The `Routing` module models how the path parameters reach the lookup.
- The 500 responses of the `catch` blocks: database and cast errors are outside the model.
- Populated names and emails in the analytics rows (`participant.user.name`, `'Unknown'`): these need the populated user document. `AnalyticsRow` carries the other fields.
- Attendance.ParticipantAnalytics: `userId` is the stored user reference. After `populate`, a reference to a user that no longer exists reads as `null`, which needs the user collection and is not modelled.
- Attendance.EngagementStats: `toLocaleDateString` and `getHours` depend on the host time zone. They are the given functions `dayOf` and `hourOf`. The check `weeklyPattern[dayOfWeek] !== undefined` always holds for a `dayOf` into the seven days.
- Attendance.PeakHours: the selection algorithm differs from the handler's `sort` call. It is proved to meet the stable-sort-and-slice predicate `IsPeakHours`, and `PeakHoursUnique` shows that predicate has only one answer.
- The meeting document's other fields: title, settings, recording, `createMeeting`, `updateMeeting`, `updateMeetingStatus`, `getMeeting` and `deleteMeeting`.
- Values the schema would cast: `joinedAt` and `leftAt` are `Option<Time>`. The model treats every present time as truthy, so a timestamp of exactly 0 (the epoch) counts as present, while JavaScript treats `new Date(0)` as truthy too but a raw `0` as falsy. A body value `muted` (mute), `spotlighted` (spotlight) or `handRaised` (hand-raise) that is missing, and so stored as `undefined`, is not modelled: the model's flags are booleans.
- The socket transport: reconnection, socket.io's adapter beyond room membership and the own-id room, CORS, delivery order between sockets and the `await` interleaving of async handlers. Delivery is a recipient set per message, and events are handled one at a time in trace order.
- The server's `console.log` of the stay is modelled as the `Departure` record. The comment that promises a database update at that point is not implemented in the code.
- Durations.ScheduledSeconds: takes whole minutes. The schema's `duration` is a `Number`, so fractional minutes would give fractional seconds, which the model's integers do not represent.
- The page's initial list built from the fetched meeting (`temp-${Math.random()}` ids) and the `joinRoom`/`leaveRoom` HTTP calls: randomness, `localStorage` and network side effects. `initWebSocket` itself is not modelled: whether it has set `socketRef.current` is the session's `socket` flag, and every emit is guarded by it. Alerts, navigation, media tracks beyond their enabled flag, recording, transcription and `transcript-update`.
- Durations.FormatDurationRoundTrip: stated for totals that are not negative. A leave time earlier than the join time gives a negative stay, which the engagement summary adds to its total, and `formatDuration` renders such totals lossily (`NegativeTotalsCollide`).
- MeetingControl.UpdateLeaveTime: does not return the stay the handler computes, because the handler assigns it to `participant.duration`, which the participants sub-schema does not declare, so it is dropped on save.
- ClientRoster.MuteLocal, ClientRoster.SpotlightLocal and ClientRoster.HandLocal: the page reads the current flag from the `participants` of the render that created the handler (frontend/src/components/VideoCall.jsx:501, 578, 617), but applies the update through `setParticipants(prev => ...)` (lines 507, 584, 623). The model reads and updates one list, so it does not represent a handler from an earlier render acting on a list that has changed since, for example a second click before React re-renders. In that case the page computes the new flag from the older list.
- The render-only parts of the page and `backend/server.dev.js`, a development bootstrap with a registry-free subset of the relay.

## Findings

| source | as written | input that shows it | evidently intended | confidence | as-written member | corrected member |
|---|---|---|---|---|---|---|
| backend/controllers/meetingController.js:514 | mute, remove, spotlight, hand-raise, join-time, leave-time and analytics read the meeting id from `req.params.meetingId`, but backend/routes/meetings.js:35-45 binds it as `:id`, so `findById(undefined)` finds nothing and every such request is answered 404 "Meeting not found" | `PUT /api/meetings/m1/participant/p1/mute` by the host of stored meeting `m1`, whose entry `p1` exists | read `req.params.id`, as `addParticipant` does (line 186), so the handler runs on the stored meeting | high (not executed) | Routing.AsWrittenNeverFinds | Routing.ServeFindsStored |
