/**
 * How the meeting routes reach the participant handlers. Each route binds the path parameters
 * `id` and (for the per-participant routes) `participantId`; each handler then reads the meeting
 * id out of those parameters and looks the meeting up. Every per-participant handler, and the
 * analytics handler, reads the meeting id under the name `meetingId`, which no route binds, so
 * the lookup receives `undefined` and finds nothing. `AsWritten` members keep that reading;
 * the members without the suffix read `id`, which is what the routes bind.
 */
module Routing {
  import opened Common
  import opened MeetingControl
  import Attendance

  /** The path parameters express binds for one request. */
  type Params = map<string, string>

  /** The stored meetings, by `_id`. */
  type Store = map<string, Meeting>

  /** The handlers mounted under `/api/meetings/:id/...`, with the request body each one reads. */
  datatype Request =
    | AddParticipantReq(actor: UserId, newId: string, userId: Option<UserId>, name: Option<string>,
                        email: Option<string>, role: Option<Role>, now: Time)
    | MuteReq(actor: UserId, muted: bool)
    | RemoveReq(actor: UserId)
    | SpotlightReq(actor: UserId, spotlighted: bool)
    | HandReq(actor: UserId, raised: bool)
    | JoinTimeReq(joinedAt: Option<Time>, role: Option<Role>)
    | LeaveTimeReq(leftAt: Option<Time>)

  /** `/:id/participant` binds `id`; `/:id/participant/:participantId/...` binds both. */
  function BindParams(meetingId: string, participantId: Option<string>): (p: Params)
    ensures "id" in p && p["id"] == meetingId
    ensures "meetingId" !in p
    ensures participantId.Some? ==> "participantId" in p && p["participantId"] == participantId.value
  {
    match participantId
    case None => map["id" := meetingId]
    case Some(pid) => map["id" := meetingId, "participantId" := pid]
  }

  /** Reading `req.params[name]`: an unbound name reads as `undefined`. */
  function Param(p: Params, name: string): (r: Option<string>)
    ensures r.Some? <==> name in p
    ensures r.Some? ==> r.value == p[name]
  {
    if name in p then Some(p[name]) else None
  }

  /** `Meeting.findById(id)`: `undefined` finds nothing, as does an id with no document. */
  function FindMeeting(db: Store, id: Option<string>): Option<Meeting>
  {
    if id.Some? && id.value in db then Some(db[id.value]) else None
  }

  /** The parameter name each handler reads the meeting id under, as written: only `addParticipant`
      reads `id`. */
  function MeetingParamAsWritten(req: Request): string
  {
    if req.AddParticipantReq? then "id" else "meetingId"
  }

  /** The name the routes bind. */
  const MeetingParam := "id"

  /** Run the handler the request names on the meeting the lookup found. */
  function Dispatch(found: Option<Meeting>, participantId: string, req: Request): Outcome
  {
    match req
    case AddParticipantReq(actor, newId, userId, name, email, role, now) =>
      AddParticipant(found, actor, newId, userId, name, email, role, now)
    case MuteReq(actor, muted) => Mute(found, actor, participantId, muted)
    case RemoveReq(actor) => Remove(found, actor, participantId)
    case SpotlightReq(actor, spotlighted) => Spotlight(found, actor, participantId, spotlighted)
    case HandReq(actor, raised) => ToggleHandRaise(found, actor, participantId, raised)
    case JoinTimeReq(joinedAt, role) => UpdateJoinTime(found, participantId, joinedAt, role)
    case LeaveTimeReq(leftAt) => UpdateLeaveTime(found, participantId, leftAt)
  }

  /** The participant segment of the route a request arrives on. */
  function ParticipantSegment(req: Request, participantId: string): Option<string>
  {
    if req.AddParticipantReq? then None else Some(participantId)
  }

  /** A request to `/api/meetings/<meetingId>/participant[/<participantId>/...]`, as written. */
  function ServeAsWritten(db: Store, meetingId: string, participantId: string, req: Request): Outcome
  {
    var params := BindParams(meetingId, ParticipantSegment(req, participantId));
    Dispatch(FindMeeting(db, Param(params, MeetingParamAsWritten(req))), participantId, req)
  }

  /** The same request with the meeting id read under the name the route binds. */
  function Serve(db: Store, meetingId: string, participantId: string, req: Request): (r: Outcome)
    ensures meetingId !in db ==> r == Failure(MeetingNotFound)
  {
    var params := BindParams(meetingId, ParticipantSegment(req, participantId));
    Dispatch(FindMeeting(db, Param(params, MeetingParam)), participantId, req)
  }

  /** `GET /:id/analytics`, as written and corrected. */
  function AnalyticsAsWritten(db: Store, meetingId: string, now: Time): Result<seq<Attendance.AnalyticsRow>, Error>
  {
    Attendance.ParticipantAnalytics(FindMeeting(db, Param(BindParams(meetingId, None), "meetingId")), now)
  }

  function Analytics(db: Store, meetingId: string, now: Time): Result<seq<Attendance.AnalyticsRow>, Error>
  {
    Attendance.ParticipantAnalytics(FindMeeting(db, Param(BindParams(meetingId, None), MeetingParam)), now)
  }

  /** `meeting.save()`: a successful handler stores its meeting back under the same id. */
  function Commit(db: Store, meetingId: string, r: Outcome): Store
  {
    if r.Success? then db[meetingId := r.value] else db
  }

  /** Every handler answers MeetingNotFound exactly when the lookup found nothing. */
  lemma DispatchNotFound(found: Option<Meeting>, participantId: string, req: Request)
    ensures Dispatch(found, participantId, req) == Failure(MeetingNotFound) <==> found.None?
  {
    match req
    case AddParticipantReq(actor, newId, userId, name, email, role, now) =>
    case MuteReq(actor, muted) =>
    case RemoveReq(actor) =>
    case SpotlightReq(actor, spotlighted) =>
    case HandReq(actor, raised) =>
    case JoinTimeReq(joinedAt, role) =>
    case LeaveTimeReq(leftAt) =>
  }

  /** As written, every per-participant request is answered "Meeting not found", whatever the store
      holds, and so nothing is ever saved by them. */
  lemma AsWrittenNeverFinds(db: Store, meetingId: string, participantId: string, req: Request)
    requires !req.AddParticipantReq?
    ensures ServeAsWritten(db, meetingId, participantId, req) == Failure(MeetingNotFound)
    ensures Commit(db, meetingId, ServeAsWritten(db, meetingId, participantId, req)) == db
  {
    DispatchNotFound(None, participantId, req);
  }

  /** The concrete witness: a stored meeting, a request to mute its host's own entry by the host,
      and the answer is still "Meeting not found". */
  lemma AsWrittenMuteExample()
    ensures var m := Meeting("h", InProgress, 30, [Member("p1", Some("h"), None, None, Some(Host), Joined,
                                                          Some(0), None, None, None, false, false)]);
      var db := map["m1" := m];
      && Serve(db, "m1", "p1", MuteReq("h", true)).Success?
      && ServeAsWritten(db, "m1", "p1", MuteReq("h", true)) == Failure(MeetingNotFound)
  {
  }

  /** As written, analytics never finds a meeting either. */
  lemma AnalyticsAsWrittenNeverFinds(db: Store, meetingId: string, now: Time)
    ensures AnalyticsAsWritten(db, meetingId, now) == Failure(MeetingNotFound)
  {
  }

  /** Read under the bound name, the lookup finds exactly the stored meeting, every handler runs on
      it, and `addParticipant`, which already read `id`, behaves the same either way. */
  lemma ServeFindsStored(db: Store, meetingId: string, participantId: string, req: Request)
    ensures Serve(db, meetingId, participantId, req)
      == Dispatch(if meetingId in db then Some(db[meetingId]) else None, participantId, req)
    ensures Serve(db, meetingId, participantId, req) == Failure(MeetingNotFound) <==> meetingId !in db
    ensures req.AddParticipantReq? ==>
      ServeAsWritten(db, meetingId, participantId, req) == Serve(db, meetingId, participantId, req)
  {
    DispatchNotFound(if meetingId in db then Some(db[meetingId]) else None, participantId, req);
  }

  /** Read under the bound name, analytics reports on the stored meeting. */
  lemma AnalyticsFindsStored(db: Store, meetingId: string, now: Time)
    ensures Analytics(db, meetingId, now).Success? <==> meetingId in db
    ensures meetingId in db ==>
      (Analytics(db, meetingId, now) == Attendance.ParticipantAnalytics(Some(db[meetingId]), now))
  {
  }
}
