/**
 * The participant-control endpoints of the meeting controller: adding a participant,
 * recording join and leave times, and the host/moderator actions mute, remove,
 * spotlight and hand-raise. Each handler receives the meeting `findById` returned
 * (or `None`) and answers with the meeting it would save, or the error it responds with.
 */
module MeetingControl {
  import opened Common
  import Durations

  /** The `status` field of a meeting document. */
  datatype MeetingStatus = Scheduled | InProgress | Completed | Cancelled

  /** The `status` of a participant entry. */
  datatype MemberStatus = Invited | Joined | Left | Removed

  /** One element of a meeting's `participants` array, with the paths its sub-schema declares.
      `id` is the subdocument's `_id`; `isMuted`, `isVideoOn` and `role` may be absent in stored
      documents and readers supply their defaults. */
  datatype Member = Member(
    id: string,
    user: Option<UserId>,
    name: Option<string>,
    email: Option<string>,
    role: Option<Role>,
    status: MemberStatus,
    joinedAt: Option<Time>,
    leftAt: Option<Time>,
    isMuted: Option<bool>,
    isVideoOn: Option<bool>,
    isSpotlighted: bool,
    handRaised: bool)

  /** The fields of a meeting document the session core reads or writes;
      `duration` is the scheduled length in minutes. */
  datatype Meeting = Meeting(host: UserId, status: MeetingStatus, duration: int, participants: seq<Member>)

  /** The error responses: 404 for the meeting or the participant, 403 for the gate and for
      removing the host, 400 for a participant added twice. */
  datatype Error = MeetingNotFound | ParticipantNotFound | AccessDenied | CannotRemoveHost | AlreadyAdded

  type Outcome = Result<Meeting, Error>

  // ---------------------------------------------------------------------------
  // Lookups and the authorization gate

  /** `meeting.participants.id(id)`: the position of the first subdocument with that `_id`. */
  function FindById(ps: seq<Member>, id: string): Option<nat>
  {
    FindFirst(ps, (p: Member) => p.id, id)
  }

  predicate IsHost(m: Meeting, actor: UserId) {
    m.host == actor
  }

  /** Some participant entry belongs to `actor` and carries the role 'moderator'. */
  predicate IsModerator(m: Meeting, actor: UserId) {
    exists j :: 0 <= j < |m.participants| && m.participants[j].user == Some(actor)
      && m.participants[j].role == Some(Moderator)
  }

  /** The gate shared by add, mute, remove and spotlight. */
  predicate MayModerate(m: Meeting, actor: UserId) {
    IsHost(m, actor) || IsModerator(m, actor)
  }

  /** The extra admission of hand-raise: the target entry exists and belongs to the actor. */
  predicate IsTargetSelf(m: Meeting, actor: UserId, participantId: string) {
    var i := FindById(m.participants, participantId);
    i.Some? && m.participants[i.value].user == Some(actor)
  }

  // ---------------------------------------------------------------------------
  // Handlers

  function SetMuted(p: Member, muted: bool): Member { p.(isMuted := Some(muted)) }
  function SetHand(p: Member, raised: bool): Member { p.(handRaised := raised) }

  /** `muteParticipant`: gate, then look the target up by `_id`, then store the flag. */
  function Mute(found: Option<Meeting>, actor: UserId, participantId: string, muted: bool): (r: Outcome)
    ensures found.None? ==> r == Failure(MeetingNotFound)
    ensures found.Some? && !MayModerate(found.value, actor) ==> r == Failure(AccessDenied)
    ensures found.Some? && MayModerate(found.value, actor) ==>
      && (r == Failure(ParticipantNotFound) <==> FindById(found.value.participants, participantId).None?)
      && (r.Success? <==> FindById(found.value.participants, participantId).Some?)
  {
    match found
    case None => Failure(MeetingNotFound)
    case Some(m) =>
      if !MayModerate(m, actor) then Failure(AccessDenied)
      else match FindById(m.participants, participantId)
        case None => Failure(ParticipantNotFound)
        case Some(i) => Success(m.(participants := m.participants[i := SetMuted(m.participants[i], muted)]))
  }

  /** `removeParticipant`: gate, `findIndex` by `_id`, refuse the host's own entry, then splice it out. */
  function Remove(found: Option<Meeting>, actor: UserId, participantId: string): (r: Outcome)
    ensures found.None? ==> r == Failure(MeetingNotFound)
    ensures found.Some? && !MayModerate(found.value, actor) ==> r == Failure(AccessDenied)
    ensures r.Success? ==> found.Some? && MayModerate(found.value, actor)
  {
    match found
    case None => Failure(MeetingNotFound)
    case Some(m) =>
      if !MayModerate(m, actor) then Failure(AccessDenied)
      else match FindById(m.participants, participantId)
        case None => Failure(ParticipantNotFound)
        case Some(i) =>
          if m.participants[i].user == Some(m.host) then Failure(CannotRemoveHost)
          else Success(m.(participants := m.participants[..i] + m.participants[i + 1..]))
  }

  function ClearSpotlight(ps: seq<Member>): (r: seq<Member>)
    ensures |r| == |ps|
    ensures forall j :: 0 <= j < |r| ==> r[j] == ps[j].(isSpotlighted := false)
  {
    seq(|ps|, j requires 0 <= j < |ps| => ps[j].(isSpotlighted := false))
  }

  /** `spotlightParticipant`: gate, clear the flag on every entry, then give the target the requested value.
      An unknown target is not an error: everyone ends up cleared. */
  function Spotlight(found: Option<Meeting>, actor: UserId, participantId: string, spotlighted: bool): (r: Outcome)
    ensures found.None? ==> r == Failure(MeetingNotFound)
    ensures found.Some? && !MayModerate(found.value, actor) ==> r == Failure(AccessDenied)
    ensures found.Some? && MayModerate(found.value, actor) ==> r.Success?
  {
    match found
    case None => Failure(MeetingNotFound)
    case Some(m) =>
      if !MayModerate(m, actor) then Failure(AccessDenied)
      else Success(m.(participants := SpotlightMembers(m.participants, participantId, spotlighted)))
  }

  /** The list after an admitted spotlight: everyone cleared, then the first entry with the target
      `_id`, if any, given the requested value. */
  function SpotlightMembers(ps: seq<Member>, participantId: string, spotlighted: bool): (r: seq<Member>)
    ensures |r| == |ps|
  {
    var cleared := ClearSpotlight(ps);
    match FindById(cleared, participantId)
    case None => cleared
    case Some(i) => cleared[i := cleared[i].(isSpotlighted := spotlighted)]
  }

  /** `toggleHandRaise`: the gate also admits the owner of the target entry; it runs before the
      target lookup, so an unauthorized actor on a missing target is denied, not told "not found". */
  function ToggleHandRaise(found: Option<Meeting>, actor: UserId, participantId: string, raised: bool): (r: Outcome)
    ensures found.None? ==> r == Failure(MeetingNotFound)
    ensures found.Some? && (MayModerate(found.value, actor) || IsTargetSelf(found.value, actor, participantId)) ==>
      && (r == Failure(ParticipantNotFound) <==> FindById(found.value.participants, participantId).None?)
      && (r.Success? <==> FindById(found.value.participants, participantId).Some?)
  {
    match found
    case None => Failure(MeetingNotFound)
    case Some(m) =>
      if !MayModerate(m, actor) && !IsTargetSelf(m, actor, participantId) then Failure(AccessDenied)
      else match FindById(m.participants, participantId)
        case None => Failure(ParticipantNotFound)
        case Some(i) => Success(m.(participants := m.participants[i := SetHand(m.participants[i], raised)]))
  }

  /** The duplicate test of `addParticipant`: same user, or the same `email` value. Two absent
      emails compare equal, as `undefined === undefined` does. */
  predicate AlreadyPresent(ps: seq<Member>, userId: Option<UserId>, email: Option<string>) {
    exists j :: 0 <= j < |ps| &&
      ((ps[j].user.Some? && userId.Some? && ps[j].user == userId) || ps[j].email == email)
  }

  /** `addParticipant`: gate, duplicate check, then push an invited entry joined at `now`.
      `newId` is the `_id` the database assigns to the new subdocument; the flags the request does
      not set take the sub-schema's defaults (not muted, video on, not spotlighted, hand down). */
  function AddParticipant(found: Option<Meeting>, actor: UserId, newId: string, userId: Option<UserId>,
                          name: Option<string>, email: Option<string>, role: Option<Role>, now: Time): (r: Outcome)
    ensures found.None? ==> r == Failure(MeetingNotFound)
    ensures found.Some? && !MayModerate(found.value, actor) ==> r == Failure(AccessDenied)
  {
    match found
    case None => Failure(MeetingNotFound)
    case Some(m) =>
      if !MayModerate(m, actor) then Failure(AccessDenied)
      else if AlreadyPresent(m.participants, userId, email) then Failure(AlreadyAdded)
      else
        var role' := if role.Some? then role.value else Participant;
        var entry := Member(newId, userId, name, email, Some(role'), Invited, Some(now), None,
                            Some(false), Some(true), false, false);
        Success(m.(participants := m.participants + [entry]))
  }

  /** `updateParticipantJoinTime` (no gate): store the join time and, when one is given, the role. */
  function UpdateJoinTime(found: Option<Meeting>, participantId: string, joinedAt: Option<Time>,
                          role: Option<Role>): (r: Outcome)
    ensures found.None? ==> r == Failure(MeetingNotFound)
  {
    match found
    case None => Failure(MeetingNotFound)
    case Some(m) =>
      match FindById(m.participants, participantId)
      case None => Failure(ParticipantNotFound)
      case Some(i) =>
        var p := m.participants[i].(joinedAt := joinedAt);
        var p' := if role.Some? then p.(role := role) else p;
        Success(m.(participants := m.participants[i := p']))
  }

  /** `updateParticipantLeaveTime` (no gate): store `leftAt`. The handler also assigns the stay in
      seconds to `participant.duration`, a path the participants sub-schema does not declare, so that
      value is neither saved nor part of the answer. */
  function UpdateLeaveTime(found: Option<Meeting>, participantId: string, leftAt: Option<Time>): (r: Outcome)
    ensures found.None? ==> r == Failure(MeetingNotFound)
  {
    match found
    case None => Failure(MeetingNotFound)
    case Some(m) =>
      match FindById(m.participants, participantId)
      case None => Failure(ParticipantNotFound)
      case Some(i) =>
        Success(m.(participants := m.participants[i := m.participants[i].(leftAt := leftAt)]))
  }

  /** At most one entry of the list has its spotlight flag set. */
  predicate AtMostOneSpotlighted(ps: seq<Member>) {
    forall i, j :: 0 <= i < |ps| && 0 <= j < |ps| && ps[i].isSpotlighted && ps[j].isSpotlighted ==> i == j
  }
}
