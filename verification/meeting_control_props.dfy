/** What the participant-control endpoints promise, stated over all inputs. */
module MeetingControlProps {
  import opened Common
  import opened MeetingControl
  import Durations

  /** Mute, remove and spotlight admit exactly the host and the moderators; everyone else is
      answered AccessDenied and nothing is saved. */
  lemma ModerationGate(m: Meeting, actor: UserId, participantId: string, flag: bool)
    ensures Mute(Some(m), actor, participantId, flag) == Failure(AccessDenied) <==> !MayModerate(m, actor)
    ensures Remove(Some(m), actor, participantId) == Failure(AccessDenied) <==> !MayModerate(m, actor)
    ensures Spotlight(Some(m), actor, participantId, flag) == Failure(AccessDenied) <==> !MayModerate(m, actor)
  {
  }

  /** Hand-raise also admits the owner of the target entry. The gate runs first: an actor who is
      neither host nor moderator is denied even when the target does not exist. */
  lemma HandRaiseGate(m: Meeting, actor: UserId, participantId: string, raised: bool)
    ensures ToggleHandRaise(Some(m), actor, participantId, raised) == Failure(AccessDenied)
      <==> !MayModerate(m, actor) && !IsTargetSelf(m, actor, participantId)
    ensures FindById(m.participants, participantId).None? ==>
      ToggleHandRaise(Some(m), actor, participantId, raised)
        == (if MayModerate(m, actor) then Failure(ParticipantNotFound) else Failure(AccessDenied))
  {
  }

  /** Mute writes the flag of the first entry with that `_id` and nothing else. */
  lemma MuteChangesOnlyTarget(m: Meeting, actor: UserId, participantId: string, muted: bool)
    requires Mute(Some(m), actor, participantId, muted).Success?
    ensures var ps, ps' := m.participants, Mute(Some(m), actor, participantId, muted).value.participants;
      var i := FindById(ps, participantId).value;
      && |ps'| == |ps|
      && ps'[i].isMuted == Some(muted)
      && ps'[i].(isMuted := ps[i].isMuted) == ps[i]
      && (forall j :: 0 <= j < |ps| && j != i ==> ps'[j] == ps[j])
    ensures Mute(Some(m), actor, participantId, muted).value.(participants := m.participants) == m
  {
  }

  /** Hand-raise writes the flag of the first entry with that `_id` and nothing else. */
  lemma HandRaiseChangesOnlyTarget(m: Meeting, actor: UserId, participantId: string, raised: bool)
    requires ToggleHandRaise(Some(m), actor, participantId, raised).Success?
    ensures var ps, ps' := m.participants, ToggleHandRaise(Some(m), actor, participantId, raised).value.participants;
      var i := FindById(ps, participantId).value;
      && |ps'| == |ps|
      && ps'[i].handRaised == raised
      && ps'[i].(handRaised := ps[i].handRaised) == ps[i]
      && (forall j :: 0 <= j < |ps| && j != i ==> ps'[j] == ps[j])
    ensures ToggleHandRaise(Some(m), actor, participantId, raised).value.(participants := m.participants) == m
  {
  }

  /** Splicing out position `i` keeps the entries before it, shifts those after it down by one,
      and loses exactly one copy of the spliced entry. */
  lemma SpliceOut(ps: seq<Member>, i: nat)
    requires i < |ps|
    ensures var rest := ps[..i] + ps[i + 1..];
      && |rest| == |ps| - 1
      && (forall j :: 0 <= j < i ==> rest[j] == ps[j])
      && (forall j :: i <= j < |ps| - 1 ==> rest[j] == ps[j + 1])
      && multiset(rest) + multiset{ps[i]} == multiset(ps)
  {
    assert ps == ps[..i] + [ps[i]] + ps[i + 1..];
  }

  /** Removal by an admitted actor: a missing target is "not found", the host's own entry is
      refused, and otherwise exactly that entry leaves while the others keep their order. */
  lemma RemoveOutcomes(m: Meeting, actor: UserId, participantId: string)
    requires MayModerate(m, actor)
    ensures var r := Remove(Some(m), actor, participantId);
      var ps := m.participants;
      match FindById(ps, participantId)
      case None => r == Failure(ParticipantNotFound)
      case Some(i) =>
        if ps[i].user == Some(m.host) then r == Failure(CannotRemoveHost)
        else
          && r.Success?
          && r.value.(participants := ps) == m
          && |r.value.participants| == |ps| - 1
          && (forall j :: 0 <= j < i ==> r.value.participants[j] == ps[j])
          && (forall j :: i <= j < |ps| - 1 ==> r.value.participants[j] == ps[j + 1])
          && multiset(r.value.participants) + multiset{ps[i]} == multiset(ps)
  {
    match FindById(m.participants, participantId)
    case None =>
    case Some(i) => SpliceOut(m.participants, i);
  }

  /** A successful removal never takes an entry that belongs to the host: every such entry survives as often as it occurred. */
  lemma HostNeverRemoved(m: Meeting, actor: UserId, participantId: string)
    requires Remove(Some(m), actor, participantId).Success?
    ensures forall p :: p in m.participants && p.user == Some(m.host) ==>
      multiset(Remove(Some(m), actor, participantId).value.participants)[p] == multiset(m.participants)[p]
  {
    RemoveOutcomes(m, actor, participantId);
  }

  /** After an admitted spotlight: only the first entry with the target `_id` can carry the flag,
      and it carries the requested value; every other field of every entry is untouched. */
  lemma SpotlightExclusive(m: Meeting, actor: UserId, participantId: string, spotlighted: bool)
    requires MayModerate(m, actor)
    ensures var ps, ps' := m.participants, Spotlight(Some(m), actor, participantId, spotlighted).value.participants;
      && |ps'| == |ps|
      && AtMostOneSpotlighted(ps')
      && (forall j :: 0 <= j < |ps| ==> ps'[j].(isSpotlighted := ps[j].isSpotlighted) == ps[j])
      && (forall j :: 0 <= j < |ps| && ps'[j].isSpotlighted ==>
            spotlighted && FindById(ps, participantId) == Some(j))
      && (match FindById(ps, participantId)
          case None => forall j :: 0 <= j < |ps| ==> !ps'[j].isSpotlighted
          case Some(i) => ps'[i].isSpotlighted == spotlighted)
  {
    SpotlightMembersFacts(m.participants, participantId, spotlighted);
  }

  /** The list-level facts behind `SpotlightExclusive`. */
  lemma SpotlightMembersFacts(ps: seq<Member>, participantId: string, spotlighted: bool)
    ensures var ps' := SpotlightMembers(ps, participantId, spotlighted);
      && (forall j :: 0 <= j < |ps| ==> ps'[j].(isSpotlighted := ps[j].isSpotlighted) == ps[j])
      && (forall j :: 0 <= j < |ps| && ps'[j].isSpotlighted ==>
            spotlighted && FindById(ps, participantId) == Some(j))
      && (match FindById(ps, participantId)
          case None => forall j :: 0 <= j < |ps| ==> !ps'[j].isSpotlighted
          case Some(i) => ps'[i].isSpotlighted == spotlighted)
  {
    var cleared := ClearSpotlight(ps);
    assert forall j :: 0 <= j < |ps| ==> cleared[j].id == ps[j].id;
    FindFirstSameKeys(ps, (p: Member) => p.id, cleared, (p: Member) => p.id, participantId);
    var ps' := SpotlightMembers(ps, participantId, spotlighted);
    match FindById(ps, participantId)
    case None =>
      assert ps' == cleared;
    case Some(i) =>
      assert ps' == cleared[i := cleared[i].(isSpotlighted := spotlighted)];
  }

  /** Leave-time update, without a gate: an unknown entry is not found; otherwise the first matching
      entry takes the given leave time, absent or not, and nothing else in the meeting changes. */
  lemma LeaveTimeStored(m: Meeting, participantId: string, leftAt: Option<Time>)
    ensures FindById(m.participants, participantId).None? ==>
      UpdateLeaveTime(Some(m), participantId, leftAt) == Failure(ParticipantNotFound)
    ensures FindById(m.participants, participantId).Some? ==>
      var r := UpdateLeaveTime(Some(m), participantId, leftAt);
      var i := FindById(m.participants, participantId).value;
      var p, p' := m.participants[i], r.value.participants[i];
      && r.Success?
      && r.value.(participants := m.participants) == m
      && |r.value.participants| == |m.participants|
      && p'.leftAt == leftAt
      && p'.(leftAt := p.leftAt) == p
      && (forall j :: 0 <= j < |m.participants| && j != i ==> r.value.participants[j] == m.participants[j])
  {
  }

  /** The join-time update has no gate: an unknown entry is not found; otherwise the first matching
      entry takes the given join time (an absent one clears it) and, when one is given, the role,
      and nothing else in the meeting changes. */
  lemma JoinTimeStored(m: Meeting, participantId: string, joinedAt: Option<Time>, role: Option<Role>)
    ensures FindById(m.participants, participantId).None? ==>
      UpdateJoinTime(Some(m), participantId, joinedAt, role) == Failure(ParticipantNotFound)
    ensures FindById(m.participants, participantId).Some? ==>
      var r := UpdateJoinTime(Some(m), participantId, joinedAt, role);
      var i := FindById(m.participants, participantId).value;
      var p, p' := m.participants[i], r.value.participants[i];
      && r.Success?
      && r.value.(participants := m.participants) == m
      && |r.value.participants| == |m.participants|
      && p'.joinedAt == joinedAt
      && p'.role == (if role.Some? then role else p.role)
      && p'.(joinedAt := p.joinedAt, role := p.role) == p
      && (forall j :: 0 <= j < |m.participants| && j != i ==> r.value.participants[j] == m.participants[j])
  {
  }

  /** Add rejects a user or an email already on the list, and otherwise appends one invited entry
      joined at `now`, with role 'participant' unless another was asked for. */
  lemma AddParticipantOutcomes(m: Meeting, actor: UserId, newId: string, userId: Option<UserId>,
                               name: Option<string>, email: Option<string>, role: Option<Role>, now: Time)
    requires MayModerate(m, actor)
    ensures var r := AddParticipant(Some(m), actor, newId, userId, name, email, role, now);
      && (r == Failure(AlreadyAdded) <==> AlreadyPresent(m.participants, userId, email))
      && (r.Success? <==> !AlreadyPresent(m.participants, userId, email))
      && (r.Success? ==>
            var ps' := r.value.participants;
            var e := ps'[|m.participants|];
            && r.value.(participants := m.participants) == m
            && |ps'| == |m.participants| + 1
            && ps'[..|m.participants|] == m.participants
            && e.id == newId && e.user == userId && e.name == name && e.email == email
            && e.joinedAt == Some(now) && e.leftAt.None?
            && e.status == Invited
            && e.role == Some(if role.Some? then role.value else Participant)
            && e.isMuted == Some(false) && e.isVideoOn == Some(true) && !e.isSpotlighted && !e.handRaised)
  {
  }

  /** Adding the same person a second time is refused: the first add leaves the actor admitted
      and the new entry itself trips the duplicate check. */
  lemma AddTwiceRejected(m: Meeting, actor: UserId, newId: string, newId': string, userId: Option<UserId>,
                         name: Option<string>, email: Option<string>, role: Option<Role>, now: Time, now': Time)
    requires AddParticipant(Some(m), actor, newId, userId, name, email, role, now).Success?
    ensures var m' := AddParticipant(Some(m), actor, newId, userId, name, email, role, now).value;
      AddParticipant(Some(m'), actor, newId', userId, name, email, role, now') == Failure(AlreadyAdded)
  {
    var m' := AddParticipant(Some(m), actor, newId, userId, name, email, role, now).value;
    var n := |m.participants|;
    assert m'.participants[n].email == email;
    assert AlreadyPresent(m'.participants, userId, email);
    if IsModerator(m, actor) {
      var j :| 0 <= j < n && m.participants[j].user == Some(actor) && m.participants[j].role == Some(Moderator);
      assert m'.participants[j] == m.participants[j];
    }
    assert MayModerate(m', actor);
  }
}
