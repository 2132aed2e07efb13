/** What the page's participant list promises, message by message and control by control, and how
    it meets the socket server and the HTTP routes. */
module ClientRosterProps {
  import opened Common
  import opened ClientRoster
  import Durations
  import RoomServer
  import Routing
  import MeetingControl

  // ---------------------------------------------------------------------------
  // Helpers about the list primitives

  lemma {:induction false} CountIdAppend(a: seq<Entry>, b: seq<Entry>, id: UserId)
    decreases |a|
    ensures CountId(a + b, id) == CountId(a, id) + CountId(b, id)
  {
    if |a| > 0 {
      assert (a + b)[1..] == a[1..] + b;
      CountIdAppend(a[1..], b, id);
    } else {
      assert a + b == b;
    }
  }

  /** One filtering step: the first entry is kept exactly when its id differs. */
  lemma WithoutCons(e: Entry, rest: seq<Entry>, id: UserId)
    ensures Without([e] + rest, id) == (if e.id == id then [] else [e]) + Without(rest, id)
  {
    assert ([e] + rest)[0] == e && ([e] + rest)[1..] == rest;
  }

  lemma ConsAppend<T>(a: seq<T>, b: seq<T>)
    requires |a| > 0
    ensures a == [a[0]] + a[1..]
    ensures a + b == [a[0]] + (a[1..] + b)
  {
  }

  lemma AppendAssoc<T>(x: seq<T>, y: seq<T>, z: seq<T>)
    ensures x + (y + z) == (x + y) + z
  {
  }

  /** Filtering distributes over concatenation, so the kept entries stay in their order. */
  lemma {:induction false} WithoutAppend(a: seq<Entry>, b: seq<Entry>, id: UserId)
    decreases |a|
    ensures Without(a + b, id) == Without(a, id) + Without(b, id)
  {
    if |a| > 0 {
      var head := if a[0].id == id then [] else [a[0]];
      ConsAppend(a, b);
      WithoutCons(a[0], a[1..] + b, id);
      WithoutCons(a[0], a[1..], id);
      WithoutAppend(a[1..], b, id);
      AppendAssoc(head, Without(a[1..], id), Without(b, id));
    } else {
      assert a + b == b;
    }
  }

  /** Filtering removes every entry with the id and keeps every other one as often as it occurred. */
  lemma {:induction false} WithoutCounts(list: seq<Entry>, id: UserId)
    decreases |list|
    ensures CountId(Without(list, id), id) == 0
    ensures forall e: Entry :: e.id != id ==> multiset(Without(list, id))[e] == multiset(list)[e]
  {
    if |list| > 0 {
      WithoutCounts(list[1..], id);
      var head := if list[0].id == id then [] else [list[0]];
      CountIdAppend(head, Without(list[1..], id), id);
      assert list == [list[0]] + list[1..];
    }
  }

  /** An id that is not on the list filters nothing. */
  lemma {:induction false} WithoutAbsent(list: seq<Entry>, id: UserId)
    decreases |list|
    requires forall j :: 0 <= j < |list| ==> list[j].id != id
    ensures Without(list, id) == list
  {
    if |list| > 0 {
      WithoutAbsent(list[1..], id);
      assert list == [list[0]] + list[1..];
    }
  }

  // ---------------------------------------------------------------------------
  // Messages from the server

  /** `user-connected` appends exactly one entry with the defaults, numbered after the list, host
      iff the id is the fetched host's, and never merges with an entry already there. */
  lemma UserConnectedAppends(s: Session, list: seq<Entry>, u: UserId, now: Time)
    ensures var r := Receive(s, list, RoomServer.UserConnected(u), now);
      var e := r.list[|list|];
      && !r.leave
      && |r.list| == |list| + 1
      && r.list[..|list|] == list
      && e.id == u && !e.isMuted && e.isVideoOn && !e.isSpotlighted && !e.handRaised && e.duration == 0
      && e.joinedAt == Some(now) && e.leftAt.None?
      && (e.role == Host <==> s.info.Some? && s.info.value.hostId == u)
      && (e.role != Host ==> e.role == Participant)
      && Durations.DigitsValue(e.name[|"Participant "|..]) == |list| + 1
      && CountId(r.list, u) == CountId(list, u) + 1
  {
    var e := Newcomer(s, u, |list| + 1, now);
    assert e.name[|"Participant "|..] == Durations.NatToString(|list| + 1);
    Durations.NatToStringValue(|list| + 1);
    CountIdAppend(list, [e], u);
    assert CountId([e], u) == 1 by {
      assert [e][1..] == [];
    }
  }

  /** The field messages change only their field, only on entries with the named id, and keep
      the list's length and order. */
  lemma FieldMessagesChangeOnlyField(s: Session, list: seq<Entry>, msg: RoomServer.Message, now: Time)
    requires msg.ParticipantJoined? || msg.UserDisconnected? || msg.ParticipantMuted?
      || msg.ParticipantVideoChanged? || msg.ParticipantHandRaised?
    ensures var r := Receive(s, list, msg, now);
      && !r.leave
      && |r.list| == |list|
      && (forall j :: 0 <= j < |list| && list[j].id != msg.userId ==> r.list[j] == list[j])
      && (forall j :: 0 <= j < |list| && list[j].id == msg.userId ==>
            r.list[j] == match msg
              case ParticipantJoined(_, t) => list[j].(joinedAt := Some(t))
              case UserDisconnected(_) => list[j].(leftAt := Some(now))
              case ParticipantMuted(_, muted) => list[j].(isMuted := muted)
              case ParticipantVideoChanged(_, videoOff) => list[j].(isVideoOn := !videoOff)
              case ParticipantHandRaised(_, raised) => list[j].(handRaised := raised)
              case _ => list[j])
  {
  }

  /** Applying the same field message twice is the same as applying it once. */
  lemma FieldMessagesIdempotent(s: Session, list: seq<Entry>, msg: RoomServer.Message, now: Time)
    requires msg.ParticipantJoined? || msg.UserDisconnected? || msg.ParticipantMuted?
      || msg.ParticipantVideoChanged? || msg.ParticipantHandRaised? || msg.ParticipantSpotlighted?
    ensures var once := Receive(s, list, msg, now).list;
      Receive(s, once, msg, now).list == once
  {
  }

  /** `participant-removed` deletes every entry with that id, keeps each other entry exactly as
      often as before, and leaves the room exactly when the id is the page's own. */
  lemma RemovedFilters(s: Session, list: seq<Entry>, pid: UserId, now: Time)
    ensures var r := Receive(s, list, RoomServer.ParticipantRemoved(pid), now);
      && (r.leave <==> pid == s.self)
      && CountId(r.list, pid) == 0
      && (forall e: Entry :: e.id != pid ==> multiset(r.list)[e] == multiset(list)[e])
      && (forall a, b :: list == a + b ==> r.list == Without(a, pid) + Without(b, pid))
  {
    assert Receive(s, list, RoomServer.ParticipantRemoved(pid), now) == Reaction(Without(list, pid), pid == s.self);
    WithoutCounts(list, pid);
    forall a, b | list == a + b
      ensures Without(list, pid) == Without(a, pid) + Without(b, pid)
    {
      WithoutAppend(a, b, pid);
    }
  }

  /** After `participant-spotlighted`, an entry is spotlighted exactly when it carries the named id
      and the flag is set; nothing else changes, and with distinct ids at most one entry is lit. */
  lemma SpotlightedExclusive(s: Session, list: seq<Entry>, pid: UserId, spotlighted: bool, now: Time)
    ensures var r := Receive(s, list, RoomServer.ParticipantSpotlighted(pid, spotlighted), now);
      && !r.leave
      && |r.list| == |list|
      && (forall j :: 0 <= j < |list| ==> (r.list[j].isSpotlighted <==> list[j].id == pid && spotlighted))
      && (forall j :: 0 <= j < |list| ==> r.list[j].(isSpotlighted := list[j].isSpotlighted) == list[j])
      && (DistinctIds(list) ==>
            forall i, j :: 0 <= i < |list| && 0 <= j < |list| && r.list[i].isSpotlighted && r.list[j].isSpotlighted ==> i == j)
  {
  }

  /** The call-setup messages and the direct removal notice leave the list alone; only the notice
      makes the page leave. */
  lemma OtherMessagesKeepList(s: Session, list: seq<Entry>, msg: RoomServer.Message, now: Time)
    requires msg.YouWereRemoved? || msg.OfferRelay? || msg.AnswerRelay? || msg.IceCandidateRelay?
    ensures Receive(s, list, msg, now).list == list
    ensures Receive(s, list, msg, now).leave <==> msg.YouWereRemoved?
  {
  }

  // ---------------------------------------------------------------------------
  // Local controls

  /** A control aimed at an id that is not on the list changes nothing and sends nothing. */
  lemma LocalControlsIgnoreAbsent(s: Session, list: seq<Entry>, pid: UserId)
    requires forall j :: 0 <= j < |list| ==> list[j].id != pid
    ensures MuteLocal(s, list, pid) == Local(list, [], [])
    ensures SpotlightLocal(s, list, pid) == Local(list, [], [])
    ensures HandLocal(s, list, pid) == Local(list, [], [])
    ensures RemoveLocal(s, list, pid, true).list == list
  {
    WithoutAbsent(list, pid);
  }

  /** Local mute sets every matching entry to the opposite of the first match's flag, touches
      nothing else, announces that value for the id, and calls the backend only as host. */
  lemma MuteLocalFlips(s: Session, list: seq<Entry>, pid: UserId)
    requires Find(list, pid).Some?
    ensures var i := Find(list, pid).value;
      var r := MuteLocal(s, list, pid);
      && |r.list| == |list|
      && (forall j :: 0 <= j < |list| && list[j].id == pid ==> r.list[j] == list[j].(isMuted := !list[i].isMuted))
      && (forall j :: 0 <= j < |list| && list[j].id != pid ==> r.list[j] == list[j])
      && (r.emitted != [] <==> s.socket)
      && (s.socket ==> r.emitted == [RoomServer.MuteStatusChange(s.roomId, pid, !list[i].isMuted)])
      && (IsHost(s) ==> r.calls == [ApiCall(s.info.value.meetingId, pid, Routing.MuteReq(s.account, !list[i].isMuted))])
      && (!IsHost(s) ==> r.calls == [])
  {
  }

  /** Local hand-raise: the same flip on `handRaised`; its request goes out whenever the meeting was fetched. */
  lemma HandLocalFlips(s: Session, list: seq<Entry>, pid: UserId)
    requires Find(list, pid).Some?
    ensures var i := Find(list, pid).value;
      var r := HandLocal(s, list, pid);
      && |r.list| == |list|
      && (forall j :: 0 <= j < |list| && list[j].id == pid ==> r.list[j] == list[j].(handRaised := !list[i].handRaised))
      && (forall j :: 0 <= j < |list| && list[j].id != pid ==> r.list[j] == list[j])
      && (r.emitted != [] <==> s.socket)
      && (s.socket ==> r.emitted == [RoomServer.HandRaise(s.roomId, pid, !list[i].handRaised)])
      && (s.info.Some? ==>
            r.calls == [ApiCall(s.info.value.meetingId, pid, Routing.HandReq(s.account, !list[i].handRaised))])
      && (s.info.None? ==> r.calls == [])
  {
  }

  /** Local spotlight: matching entries get the opposite of the first match's flag and every other
      entry is cleared; with distinct ids at most one entry is lit. */
  lemma SpotlightLocalExclusive(s: Session, list: seq<Entry>, pid: UserId)
    requires Find(list, pid).Some?
    ensures var i := Find(list, pid).value;
      var r := SpotlightLocal(s, list, pid);
      && |r.list| == |list|
      && (forall j :: 0 <= j < |list| ==>
            r.list[j] == list[j].(isSpotlighted := list[j].id == pid && !list[i].isSpotlighted))
      && (r.emitted != [] <==> s.socket)
      && (s.socket ==> r.emitted == [RoomServer.SpotlightParticipant(s.roomId, pid, !list[i].isSpotlighted)])
      && (IsHost(s) ==>
            r.calls == [ApiCall(s.info.value.meetingId, pid, Routing.SpotlightReq(s.account, !list[i].isSpotlighted))])
      && (!IsHost(s) ==> r.calls == [])
      && (DistinctIds(list) ==>
            forall a, b :: 0 <= a < |list| && 0 <= b < |list| && r.list[a].isSpotlighted && r.list[b].isSpotlighted ==> a == b)
  {
  }

  /** With distinct ids, muting the same participant twice restores the list. */
  lemma MuteLocalTwiceRestores(s: Session, list: seq<Entry>, pid: UserId)
    requires DistinctIds(list)
    ensures MuteLocal(s, MuteLocal(s, list, pid).list, pid).list == list
  {
    match Find(list, pid)
    case None =>
    case Some(i) =>
      var once := MuteLocal(s, list, pid).list;
      FindFirstSameKeys(list, (e: Entry) => e.id, once, (e: Entry) => e.id, pid);
      assert once[i].isMuted == !list[i].isMuted;
      var twice := MuteLocal(s, once, pid).list;
      forall j | 0 <= j < |list|
        ensures twice[j] == list[j]
      {
        if list[j].id == pid {
          assert j == i;
        }
      }
  }

  /** With distinct ids, raising and lowering the same hand restores the list. */
  lemma HandLocalTwiceRestores(s: Session, list: seq<Entry>, pid: UserId)
    requires DistinctIds(list)
    ensures HandLocal(s, HandLocal(s, list, pid).list, pid).list == list
  {
    match Find(list, pid)
    case None =>
    case Some(i) =>
      var once := HandLocal(s, list, pid).list;
      FindFirstSameKeys(list, (e: Entry) => e.id, once, (e: Entry) => e.id, pid);
      assert once[i].handRaised == !list[i].handRaised;
      var twice := HandLocal(s, once, pid).list;
      forall j | 0 <= j < |list|
        ensures twice[j] == list[j]
      {
        if list[j].id == pid {
          assert j == i;
        }
      }
  }

  /** Local removal does nothing without confirmation; confirmed, it filters like the message does
      and announces the removal once if the socket exists. */
  lemma RemoveLocalFilters(s: Session, list: seq<Entry>, pid: UserId, confirmed: bool, now: Time)
    ensures !confirmed ==> RemoveLocal(s, list, pid, confirmed) == Local(list, [], [])
    ensures confirmed ==>
      && RemoveLocal(s, list, pid, confirmed).list == Receive(s, list, RoomServer.ParticipantRemoved(pid), now).list
      && CountId(RemoveLocal(s, list, pid, confirmed).list, pid) == 0
      && (RemoveLocal(s, list, pid, confirmed).emitted != [] <==> s.socket)
      && (s.socket ==> RemoveLocal(s, list, pid, confirmed).emitted == [RoomServer.RemoveParticipant(s.roomId, pid)])
      && (IsHost(s) ==>
            RemoveLocal(s, list, pid, confirmed).calls == [ApiCall(s.info.value.meetingId, pid, Routing.RemoveReq(s.account))])
      && (!IsHost(s) ==> RemoveLocal(s, list, pid, confirmed).calls == [])
  {
    if confirmed {
      var r := RemoveLocal(s, list, pid, confirmed);
      assert r.list == Without(list, pid);
      assert r.emitted == Emit(s, RoomServer.RemoveParticipant(s.roomId, pid));
      assert r.calls == HostCall(s, pid, Routing.RemoveReq(s.account));
      WithoutCounts(list, pid);
    }
  }

  /** The audio toggle announces "muted" exactly when the track ends up disabled, if the socket
      exists; toggling twice restores the track. The video toggle behaves the same way with `videoOff`. */
  lemma TogglesAnnounceTrackState(s: Session, audio: Option<bool>, video: Option<bool>)
    ensures ToggleAudio(s, audio).1 == [] <==> audio.None? || !s.socket
    ensures audio.Some? ==>
      (ToggleAudio(s, audio).0 == Some(!audio.value)
       && (s.socket ==>
             ToggleAudio(s, audio).1 == [RoomServer.MuteStatusChange(s.roomId, s.self, !ToggleAudio(s, audio).0.value)]))
    ensures ToggleAudio(s, ToggleAudio(s, audio).0).0 == audio
    ensures ToggleVideo(s, video).1 == [] <==> video.None? || !s.socket
    ensures video.Some? ==>
      (ToggleVideo(s, video).0 == Some(!video.value)
       && (s.socket ==>
             ToggleVideo(s, video).1 == [RoomServer.VideoStatusChange(s.roomId, s.self, !ToggleVideo(s, video).0.value)]))
    ensures ToggleVideo(s, ToggleVideo(s, video).0).0 == video
  {
  }

  // ---------------------------------------------------------------------------
  // The tick

  /** The tick rewrites the duration, as the floored seconds since joining, of entries that have
      joined and not left, and leaves every other entry and field alone. */
  lemma TickOnlyPresent(list: seq<Entry>, joined: bool, now: Time)
    ensures var r := Tick(list, joined, now);
      && |r| == |list|
      && (forall j :: 0 <= j < |list| && (!joined || list[j].joinedAt.None? || list[j].leftAt.Some?) ==> r[j] == list[j])
      && (forall j :: 0 <= j < |list| && joined && list[j].joinedAt.Some? && list[j].leftAt.None? ==>
            && r[j].(duration := list[j].duration) == list[j]
            && r[j].duration * 1000 <= now - list[j].joinedAt.value < r[j].duration * 1000 + 1000)
  {
  }

  /** Two ticks at the same instant are one tick. */
  lemma TickIdempotent(list: seq<Entry>, joined: bool, now: Time)
    ensures Tick(Tick(list, joined, now), joined, now) == Tick(list, joined, now)
  {
  }

  // ---------------------------------------------------------------------------
  // Meeting the server and the routes

  /** A local mute, relayed by the server, gives every peer's matching entries the flag the sender
      set locally. */
  lemma LocalMuteReachesPeers(s: Session, list: seq<Entry>, pid: UserId, reg: RoomServer.Registry,
                              sock: RoomServer.SocketId, now: Time, peer: Session, peerList: seq<Entry>, later: Time)
    requires Find(list, pid).Some? && sock in reg.connected
    ensures s.socket ==>
      var local := MuteLocal(s, list, pid);
      var i := Find(list, pid).value;
      var out := RoomServer.Handle(reg, sock, local.emitted[0], now).out;
      var r := Receive(peer, peerList, out[0].message, later);
      && |out| == 1
      && sock !in out[0].to
      && (forall j :: 0 <= j < |peerList| && peerList[j].id == pid ==> r.list[j].isMuted == local.list[i].isMuted)
  {
  }

  /** Each local control sends only its own kind of request. */
  lemma LocalCallKinds(s: Session, list: seq<Entry>, pid: UserId, confirmed: bool)
    ensures forall c :: c in MuteLocal(s, list, pid).calls ==> c.req.MuteReq? && c.participantId == pid
    ensures forall c :: c in SpotlightLocal(s, list, pid).calls ==> c.req.SpotlightReq? && c.participantId == pid
    ensures forall c :: c in HandLocal(s, list, pid).calls ==> c.req.HandReq? && c.participantId == pid
    ensures forall c :: c in RemoveLocal(s, list, pid, confirmed).calls ==> c.req.RemoveReq? && c.participantId == pid
  {
  }

  /** Every request the local controls send to the backend is answered "Meeting not found" by the
      routes as written, so none of the page's changes is ever saved. */
  lemma LocalCallsNeverPersist(s: Session, list: seq<Entry>, pid: UserId, confirmed: bool, db: Routing.Store)
    ensures forall c :: c in MuteLocal(s, list, pid).calls + SpotlightLocal(s, list, pid).calls
                        + HandLocal(s, list, pid).calls + RemoveLocal(s, list, pid, confirmed).calls ==>
      Routing.ServeAsWritten(db, c.meetingId, c.participantId, c.req) == Failure(MeetingControl.MeetingNotFound)
  {
    LocalCallKinds(s, list, pid, confirmed);
    var all := MuteLocal(s, list, pid).calls + SpotlightLocal(s, list, pid).calls
               + HandLocal(s, list, pid).calls + RemoveLocal(s, list, pid, confirmed).calls;
    forall c | c in all
      ensures Routing.ServeAsWritten(db, c.meetingId, c.participantId, c.req) == Failure(MeetingControl.MeetingNotFound)
    {
      Routing.AsWrittenNeverFinds(db, c.meetingId, c.participantId, c.req);
    }
  }
}
