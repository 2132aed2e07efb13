/** What the socket server keeps true across events, and what each handler promises. */
module RoomServerProps {
  import opened Common
  import opened RoomServer

  // ---------------------------------------------------------------------------
  // The registry invariant

  /** Some handler in `bs` was registered for `key`. */
  predicate Bound(bs: seq<Binding>, key: string) {
    exists j :: 0 <= j < |bs| && KeyOf(bs[j].roomId, bs[j].userId) == key
  }

  /** The two maps share their keys; each entry sits under the key its own room and user make;
      each registered socket is connected and has a disconnect handler for its key; only connected
      sockets have handlers or sit in rooms. */
  predicate Valid(reg: Registry) {
    && reg.active.Keys == reg.sockets.Keys
    && (forall k :: k in reg.active ==> KeyOf(reg.active[k].roomId, reg.active[k].userId) == k)
    && (forall k :: k in reg.sockets ==>
          reg.sockets[k] in reg.connected && Bound(BindingsOf(reg, reg.sockets[k]), k))
    && reg.bindings.Keys == reg.connected
    && (forall r :: r in reg.rooms ==> reg.rooms[r] <= reg.connected)
  }

  /** Every stored presence joined no later than it was last active, and that no later than `t`. */
  predicate Timely(reg: Registry, t: Time) {
    forall k :: k in reg.active ==> reg.active[k].joinTime <= reg.active[k].lastActive <= t
  }

  /** `Valid` while a disconnect runs: `sender` has left, and the keys still pointing at it are
      exactly covered by the handlers that have not run yet. */
  predicate Draining(reg: Registry, sender: SocketId, pending: seq<Binding>) {
    && sender !in reg.connected
    && reg.active.Keys == reg.sockets.Keys
    && (forall k :: k in reg.active ==> KeyOf(reg.active[k].roomId, reg.active[k].userId) == k)
    && (forall k :: k in reg.sockets && reg.sockets[k] == sender ==> Bound(pending, k))
    && (forall k :: k in reg.sockets && reg.sockets[k] != sender ==>
          reg.sockets[k] in reg.connected && Bound(BindingsOf(reg, reg.sockets[k]), k))
    && reg.bindings.Keys == reg.connected
    && (forall r :: r in reg.rooms ==> reg.rooms[r] <= reg.connected)
  }

  lemma BoundAppend(bs: seq<Binding>, b: Binding, key: string)
    ensures Bound(bs + [b], key) <==> Bound(bs, key) || KeyOf(b.roomId, b.userId) == key
  {
    if Bound(bs + [b], key) {
      var j :| 0 <= j < |bs + [b]| && KeyOf((bs + [b])[j].roomId, (bs + [b])[j].userId) == key;
      if j < |bs| {
        assert bs[j] == (bs + [b])[j];
      }
    }
    if Bound(bs, key) {
      var j :| 0 <= j < |bs| && KeyOf(bs[j].roomId, bs[j].userId) == key;
      assert (bs + [b])[j] == bs[j];
    }
    if KeyOf(b.roomId, b.userId) == key {
      assert (bs + [b])[|bs|] == b;
    }
  }

  /** A key bound by some handler other than the first is bound by the rest. */
  lemma BoundTail(bs: seq<Binding>, key: string)
    requires |bs| > 0
    ensures Bound(bs, key) <==> KeyOf(bs[0].roomId, bs[0].userId) == key || Bound(bs[1..], key)
  {
    if Bound(bs, key) && KeyOf(bs[0].roomId, bs[0].userId) != key {
      var j :| 0 <= j < |bs| && KeyOf(bs[j].roomId, bs[j].userId) == key;
      assert bs[1..][j - 1] == bs[j];
    }
    if Bound(bs[1..], key) {
      var j :| 0 <= j < |bs[1..]| && KeyOf(bs[1..][j].roomId, bs[1..][j].userId) == key;
      assert bs[j + 1] == bs[1..][j];
    }
  }

  // ---------------------------------------------------------------------------
  // Disconnect

  /** Running the handlers `bs` only deletes entries, and leaves rooms, connections and handlers alone. */
  lemma {:induction false} RunBindingsFrame(reg: Registry, sender: SocketId, bs: seq<Binding>, now: Time)
    decreases |bs|
    ensures var st := RunBindings(reg, sender, bs, now);
      && (forall k :: k in st.registry.active ==> k in reg.active && st.registry.active[k] == reg.active[k])
      && (forall k :: k in st.registry.sockets ==> k in reg.sockets && st.registry.sockets[k] == reg.sockets[k])
      && st.registry.rooms == reg.rooms
      && st.registry.connected == reg.connected
      && st.registry.bindings == reg.bindings
  {
    if |bs| > 0 {
      RunBindingsFrame(RunBinding(reg, sender, bs[0], now).registry, sender, bs[1..], now);
    }
  }

  /** Running the handlers `bs` removes exactly the present keys they were registered for. */
  lemma {:induction false} RunBindingsRemoves(reg: Registry, sender: SocketId, bs: seq<Binding>, now: Time)
    decreases |bs|
    ensures var st := RunBindings(reg, sender, bs, now);
      && (forall k :: k in st.registry.active <==> k in reg.active && !Bound(bs, k))
      && (reg.active.Keys == reg.sockets.Keys ==>
            forall k :: k in st.registry.sockets <==> k in reg.sockets && !Bound(bs, k))
  {
    if |bs| > 0 {
      RunBindingsRemoves(RunBinding(reg, sender, bs[0], now).registry, sender, bs[1..], now);
      forall k ensures Bound(bs, k) <==> KeyOf(bs[0].roomId, bs[0].userId) == k || Bound(bs[1..], k) {
        BoundTail(bs, k);
      }
    }
  }

  /** Each handler that finds its key tells that room, without the departing socket, and logs one departure. */
  lemma {:induction false} RunBindingsOut(reg: Registry, sender: SocketId, bs: seq<Binding>, now: Time)
    decreases |bs|
    ensures var st := RunBindings(reg, sender, bs, now);
      && |st.out| == |st.departures| <= |bs|
      && (forall i :: 0 <= i < |st.out| ==>
            st.out[i] == Delivery(Others(reg, st.departures[i].roomId, sender), UserDisconnected(st.departures[i].userId)))
  {
    if |bs| > 0 {
      var first := RunBinding(reg, sender, bs[0], now);
      RunBindingsFrame(reg, sender, [bs[0]], now);
      RunBindingsOut(first.registry, sender, bs[1..], now);
    }
  }

  /** The key a logged departure was stored under. */
  function DepartureKey(d: Departure): string {
    KeyOf(d.roomId, d.userId)
  }

  /** One handler deletes its key, and logs that entry's stay exactly when the key was present. */
  lemma RunBindingStep(reg: Registry, sender: SocketId, b: Binding, now: Time)
    ensures var first := RunBinding(reg, sender, b, now);
      var k0 := KeyOf(b.roomId, b.userId);
      && first.registry.active == reg.active - {k0}
      && first.departures ==
           (if k0 in reg.active then [Departure(b.roomId, b.userId, now - reg.active[k0].joinTime)] else [])
  {
  }

  /** Each departure in `ds` names a present key some handler in `bs` was registered for, with the
      time since that entry's join. */
  predicate LogsStays(active: map<string, Presence>, bs: seq<Binding>, ds: seq<Departure>, now: Time) {
    forall i :: 0 <= i < |ds| ==>
      && DepartureKey(ds[i]) in active
      && Bound(bs, DepartureKey(ds[i]))
      && ds[i].elapsed == now - active[DepartureKey(ds[i])].joinTime
  }

  /** No key is logged twice. */
  predicate DistinctKeys(ds: seq<Departure>) {
    forall i, j :: 0 <= i < j < |ds| ==> DepartureKey(ds[i]) != DepartureKey(ds[j])
  }

  /** Every present key some handler in `bs` was registered for is logged. */
  predicate CoversBound(active: map<string, Presence>, bs: seq<Binding>, ds: seq<Departure>) {
    forall k :: k in active && Bound(bs, k) ==> exists i :: 0 <= i < |ds| && DepartureKey(ds[i]) == k
  }

  /** The log of the first handler followed by the log of the rest, run on the entries the first left. */
  lemma DeparturesCons(active: map<string, Presence>, bs: seq<Binding>, head: seq<Departure>,
                       rs: seq<Departure>, now: Time)
    requires |bs| > 0
    requires var k0 := KeyOf(bs[0].roomId, bs[0].userId);
      && head == (if k0 in active then [Departure(bs[0].roomId, bs[0].userId, now - active[k0].joinTime)] else [])
      && LogsStays(active - {k0}, bs[1..], rs, now)
      && DistinctKeys(rs)
      && CoversBound(active - {k0}, bs[1..], rs)
    ensures LogsStays(active, bs, head + rs, now)
    ensures DistinctKeys(head + rs)
    ensures CoversBound(active, bs, head + rs)
  {
    var k0 := KeyOf(bs[0].roomId, bs[0].userId);
    var after := active - {k0};
    var ds := head + rs;
    var n := |head|;
    forall i | 0 <= i < |rs| ensures ds[i + n] == rs[i] {
    }
    forall k | Bound(bs[1..], k) ensures Bound(bs, k) {
      BoundTail(bs, k);
    }
    forall i | 0 <= i < |ds|
      ensures && DepartureKey(ds[i]) in active
              && Bound(bs, DepartureKey(ds[i]))
              && ds[i].elapsed == now - active[DepartureKey(ds[i])].joinTime
    {
      if i < n {
        assert ds[i] == head[0];
        BoundTail(bs, k0);
      } else {
        assert ds[i] == rs[i - n];
        assert DepartureKey(rs[i - n]) in after;
      }
    }
    forall i, j | 0 <= i < j < |ds| ensures DepartureKey(ds[i]) != DepartureKey(ds[j]) {
      assert ds[j] == rs[j - n];
      assert DepartureKey(rs[j - n]) in after;
      if i >= n {
        assert ds[i] == rs[i - n];
      } else {
        assert ds[i] == head[0];
      }
    }
    forall k | k in active && Bound(bs, k)
      ensures exists i :: 0 <= i < |ds| && DepartureKey(ds[i]) == k
    {
      BoundTail(bs, k);
      if k == k0 {
        assert ds[0] == head[0];
        assert DepartureKey(ds[0]) == k;
      } else {
        assert k in after;
        var i :| 0 <= i < |rs| && DepartureKey(rs[i]) == k;
        assert DepartureKey(ds[i + n]) == k;
      }
    }
  }

  /** The handlers `bs` log one departure per present key they were registered for, each once, with
      the time since that entry's stored join. */
  lemma {:induction false} RunBindingsDepartures(reg: Registry, sender: SocketId, bs: seq<Binding>, now: Time)
    decreases |bs|
    ensures var ds := RunBindings(reg, sender, bs, now).departures;
      && LogsStays(reg.active, bs, ds, now)
      && DistinctKeys(ds)
      && CoversBound(reg.active, bs, ds)
  {
    if |bs| > 0 {
      var first := RunBinding(reg, sender, bs[0], now);
      var rs := RunBindings(first.registry, sender, bs[1..], now).departures;
      assert RunBindings(reg, sender, bs, now).departures == first.departures + rs;
      RunBindingStep(reg, sender, bs[0], now);
      RunBindingsDepartures(first.registry, sender, bs[1..], now);
      DeparturesCons(reg.active, bs, first.departures, rs, now);
    }
  }

  /** Each handler a disconnect runs logs a non-negative stay when the stored times are timely. */
  lemma {:induction false} RunBindingsTimely(reg: Registry, sender: SocketId, bs: seq<Binding>, now: Time, t: Time)
    decreases |bs|
    requires Timely(reg, t) && t <= now
    ensures var st := RunBindings(reg, sender, bs, now);
      && Timely(st.registry, now)
      && (forall i :: 0 <= i < |st.departures| ==> st.departures[i].elapsed >= 0)
  {
    if |bs| > 0 {
      var first := RunBinding(reg, sender, bs[0], now);
      assert Timely(first.registry, t);
      RunBindingsTimely(first.registry, sender, bs[1..], now, t);
    }
  }

  /** One disconnect handler keeps the draining invariant for the handlers after it. */
  lemma RunBindingDraining(reg: Registry, sender: SocketId, bs: seq<Binding>, now: Time)
    requires |bs| > 0 && Draining(reg, sender, bs)
    ensures Draining(RunBinding(reg, sender, bs[0], now).registry, sender, bs[1..])
  {
    var first := RunBinding(reg, sender, bs[0], now);
    forall k | k in first.registry.sockets && first.registry.sockets[k] == sender
      ensures Bound(bs[1..], k)
    {
      BoundTail(bs, k);
    }
  }

  /** Once every handler has run, the registry is valid again. */
  lemma {:induction false} RunBindingsDraining(reg: Registry, sender: SocketId, bs: seq<Binding>, now: Time)
    decreases |bs|
    requires Draining(reg, sender, bs)
    ensures Valid(RunBindings(reg, sender, bs, now).registry)
  {
    if |bs| > 0 {
      RunBindingDraining(reg, sender, bs, now);
      RunBindingsDraining(RunBinding(reg, sender, bs[0], now).registry, sender, bs[1..], now);
    }
  }

  /** Disconnecting a connected socket from a valid registry leaves a valid registry. */
  lemma DisconnectedValid(reg: Registry, sender: SocketId, now: Time)
    requires Valid(reg) && sender in reg.connected
    ensures Valid(Disconnected(reg, sender, now).registry)
  {
    var left := reg.(
      rooms := map r | r in reg.rooms :: reg.rooms[r] - {sender},
      connected := reg.connected - {sender},
      bindings := reg.bindings - {sender});
    assert forall s :: s != sender ==> BindingsOf(left, s) == BindingsOf(reg, s);
    assert Draining(left, sender, BindingsOf(reg, sender));
    RunBindingsDraining(left, sender, BindingsOf(reg, sender), now);
  }

  /** A disconnect removes exactly the entries whose keys the socket's own `join-room` calls bound,
      announces each removal to that room without the departing socket, and takes the socket out of
      every room. A key overwritten since by a later join on another socket is removed all the same. */
  lemma DisconnectRemovesOwnKeys(reg: Registry, sender: SocketId, now: Time)
    requires Valid(reg) && sender in reg.connected
    ensures var st := Handle(reg, sender, Disconnect, now);
      var bs := BindingsOf(reg, sender);
      && (forall k :: k in st.registry.active <==> k in reg.active && !Bound(bs, k))
      && (forall k :: k in st.registry.active ==> st.registry.active[k] == reg.active[k])
      && (forall k :: k in st.registry.sockets <==> k in reg.sockets && !Bound(bs, k))
      && st.registry.connected == reg.connected - {sender}
      && sender !in st.registry.bindings
      && (forall r :: r in st.registry.rooms ==> sender !in st.registry.rooms[r])
      && |st.departures| == |st.out| <= |bs|
  {
    var left := reg.(
      rooms := map r | r in reg.rooms :: reg.rooms[r] - {sender},
      connected := reg.connected - {sender},
      bindings := reg.bindings - {sender});
    RunBindingsFrame(left, sender, BindingsOf(reg, sender), now);
    RunBindingsRemoves(left, sender, BindingsOf(reg, sender), now);
    RunBindingsOut(left, sender, BindingsOf(reg, sender), now);
  }

  /** What a disconnect logs and says: one departure per present key the socket's own `join-room`
      calls bound, none twice, each with the time since that entry's stored join; and for each, a
      `user-disconnected` to the rest of that room as it stood before the socket left. */
  lemma DisconnectDepartures(reg: Registry, sender: SocketId, now: Time)
    requires sender in reg.connected
    ensures var st := Handle(reg, sender, Disconnect, now);
      var bs := BindingsOf(reg, sender);
      && |st.out| == |st.departures|
      && (forall i :: 0 <= i < |st.out| ==>
            st.out[i] == Delivery(Members(reg, st.departures[i].roomId) - {sender},
                                  UserDisconnected(st.departures[i].userId)))
      && LogsStays(reg.active, bs, st.departures, now)
      && DistinctKeys(st.departures)
      && CoversBound(reg.active, bs, st.departures)
  {
    var left := reg.(
      rooms := map r | r in reg.rooms :: reg.rooms[r] - {sender},
      connected := reg.connected - {sender},
      bindings := reg.bindings - {sender});
    assert Handle(reg, sender, Disconnect, now) == RunBindings(left, sender, BindingsOf(reg, sender), now);
    RunBindingsOut(left, sender, BindingsOf(reg, sender), now);
    RunBindingsDepartures(left, sender, BindingsOf(reg, sender), now);
    forall r ensures Others(left, r, sender) == Members(reg, r) - {sender} {
    }
  }

  /** The handlers run once: a socket that has disconnected is no longer connected, so a second
      disconnect event changes nothing and says nothing. */
  lemma SecondDisconnectIsInert(reg: Registry, sender: SocketId, now: Time, later: Time)
    ensures var once := Handle(reg, sender, Disconnect, now).registry;
      Handle(once, sender, Disconnect, later) == Step(once, [], [])
  {
    if sender in reg.connected {
      var left := reg.(
        rooms := map r | r in reg.rooms :: reg.rooms[r] - {sender},
        connected := reg.connected - {sender},
        bindings := reg.bindings - {sender});
      RunBindingsFrame(left, sender, BindingsOf(reg, sender), now);
    }
  }

  // ---------------------------------------------------------------------------
  // The invariant over all events and all traces

  lemma JoinValid(reg: Registry, sender: SocketId, roomId: RoomId, userId: UserId, now: Time)
    requires Valid(reg) && sender in reg.connected
    ensures Valid(Join(reg, sender, roomId, userId, now).registry)
  {
    var reg' := Join(reg, sender, roomId, userId, now).registry;
    forall k | k in reg'.sockets
      ensures reg'.sockets[k] in reg'.connected && Bound(BindingsOf(reg', reg'.sockets[k]), k)
    {
      if reg'.sockets[k] == sender {
        BoundAppend(BindingsOf(reg, sender), Binding(roomId, userId), k);
      }
    }
  }

  /** Refreshing `lastActive` keeps the invariant: it changes no key and no socket. */
  lemma TouchValid(reg: Registry, roomId: RoomId, userId: UserId, now: Time)
    requires Valid(reg)
    ensures Valid(Touch(reg, roomId, userId, now))
  {
    var reg' := Touch(reg, roomId, userId, now);
    assert reg'.sockets == reg.sockets && reg'.bindings == reg.bindings && reg'.connected == reg.connected;
  }

  /** A new connection starts with no disconnect handler and holds no key. */
  lemma ConnectValid(reg: Registry, sender: SocketId, now: Time)
    requires Valid(reg)
    ensures Valid(Handle(reg, sender, Connect, now).registry)
  {
    if sender !in reg.connected {
      var reg' := Handle(reg, sender, Connect, now).registry;
      forall k | k in reg'.sockets
        ensures reg'.sockets[k] in reg'.connected && Bound(BindingsOf(reg', reg'.sockets[k]), k)
      {
        assert reg'.sockets[k] != sender;
        assert BindingsOf(reg', reg'.sockets[k]) == BindingsOf(reg, reg'.sockets[k]);
      }
    }
  }

  lemma HandleValid(reg: Registry, sender: SocketId, ev: Event, now: Time)
    requires Valid(reg)
    ensures Valid(Handle(reg, sender, ev, now).registry)
  {
    if ev.Connect? {
      ConnectValid(reg, sender, now);
    } else if sender in reg.connected {
      match ev
      case JoinRoom(roomId, userId) => JoinValid(reg, sender, roomId, userId, now);
      case Disconnect => DisconnectedValid(reg, sender, now);
      case MuteStatusChange(roomId, userId, _) => TouchValid(reg, roomId, userId, now);
      case VideoStatusChange(roomId, userId, _) => TouchValid(reg, roomId, userId, now);
      case HandRaise(roomId, userId, _) => TouchValid(reg, roomId, userId, now);
      case _ =>
    }
  }

  lemma HandleTimely(reg: Registry, sender: SocketId, ev: Event, now: Time, t: Time)
    requires Timely(reg, t) && t <= now
    ensures var st := Handle(reg, sender, ev, now);
      && Timely(st.registry, now)
      && (forall i :: 0 <= i < |st.departures| ==> st.departures[i].elapsed >= 0)
  {
    if ev.Disconnect? && sender in reg.connected {
      var left := reg.(
        rooms := map r | r in reg.rooms :: reg.rooms[r] - {sender},
        connected := reg.connected - {sender},
        bindings := reg.bindings - {sender});
      RunBindingsTimely(left, sender, BindingsOf(reg, sender), now, t);
    }
  }

  /** From any valid registry, every trace keeps the registry valid. */
  lemma {:induction false} RunValid(reg: Registry, trace: seq<Input>)
    decreases |trace|
    requires Valid(reg)
    ensures Valid(Run(reg, trace).registry)
  {
    if |trace| > 0 {
      HandleValid(reg, trace[0].sender, trace[0].event, trace[0].at);
      RunValid(Handle(reg, trace[0].sender, trace[0].event, trace[0].at).registry, trace[1..]);
    }
  }

  /** When arrival times never go backwards, every stay the disconnect handlers log is non-negative. */
  lemma {:induction false} RunDeparturesNonNegative(reg: Registry, trace: seq<Input>, t: Time)
    decreases |trace|
    requires Timely(reg, t) && Monotone(trace, t)
    ensures forall i :: 0 <= i < |Run(reg, trace).departures| ==> Run(reg, trace).departures[i].elapsed >= 0
  {
    if |trace| > 0 {
      var first := Handle(reg, trace[0].sender, trace[0].event, trace[0].at);
      HandleTimely(reg, trace[0].sender, trace[0].event, trace[0].at, t);
      assert Monotone(trace[1..], trace[0].at);
      RunDeparturesNonNegative(first.registry, trace[1..], trace[0].at);
    }
  }

  /** The process starts valid, so every reachable registry is valid. */
  lemma ReachableValid(trace: seq<Input>)
    ensures Valid(Run(Empty, trace).registry)
  {
    RunValid(Empty, trace);
  }

  /** socket.io puts every connected socket in the room named by its own id. */
  predicate OwnRooms(reg: Registry) {
    forall s :: s in reg.connected ==> s in Members(reg, s)
  }

  lemma HandleOwnRooms(reg: Registry, sender: SocketId, ev: Event, now: Time)
    requires OwnRooms(reg)
    ensures OwnRooms(Handle(reg, sender, ev, now).registry)
  {
    if ev.Disconnect? && sender in reg.connected {
      var left := reg.(
        rooms := map r | r in reg.rooms :: reg.rooms[r] - {sender},
        connected := reg.connected - {sender},
        bindings := reg.bindings - {sender});
      RunBindingsFrame(left, sender, BindingsOf(reg, sender), now);
    }
  }

  lemma {:induction false} RunOwnRooms(reg: Registry, trace: seq<Input>)
    decreases |trace|
    requires OwnRooms(reg)
    ensures OwnRooms(Run(reg, trace).registry)
  {
    if |trace| > 0 {
      HandleOwnRooms(reg, trace[0].sender, trace[0].event, trace[0].at);
      RunOwnRooms(Handle(reg, trace[0].sender, trace[0].event, trace[0].at).registry, trace[1..]);
    }
  }

  /** Every reachable registry keeps each connected socket in its own-id room. */
  lemma ReachableOwnRooms(trace: seq<Input>)
    ensures OwnRooms(Run(Empty, trace).registry)
  {
    RunOwnRooms(Empty, trace);
  }

  // ---------------------------------------------------------------------------
  // Handlers, one at a time

  /** `join-room` announces the user to the sockets already in the room, stores exactly one
      presence and one socket under the key (replacing any earlier), and changes no other key. */
  lemma JoinRegisters(reg: Registry, sender: SocketId, roomId: RoomId, userId: UserId, now: Time)
    requires sender in reg.connected
    ensures var st := Handle(reg, sender, JoinRoom(roomId, userId), now);
      var key := KeyOf(roomId, userId);
      var to := Members(reg, roomId) - {sender};
      && st.out == [Delivery(to, UserConnected(userId)), Delivery(to, ParticipantJoined(userId, now))]
      && st.registry.active.Keys == reg.active.Keys + {key}
      && st.registry.active[key] == Presence(userId, roomId, now, now)
      && st.registry.sockets.Keys == reg.sockets.Keys + {key}
      && st.registry.sockets[key] == sender
      && (forall k :: k in reg.active && k != key ==> st.registry.active[k] == reg.active[k])
      && (forall k :: k in reg.sockets && k != key ==> st.registry.sockets[k] == reg.sockets[k])
      && Members(st.registry, roomId) == Members(reg, roomId) + {sender}
      && st.registry.connected == reg.connected
      && st.departures == []
  {
    var entered := reg.(rooms := reg.rooms[roomId := Members(reg, roomId) + {sender}]);
    assert Others(entered, roomId, sender) == Members(reg, roomId) - {sender};
  }

  /** The control events touch an existing presence's `lastActive` and nothing else: they never
      create an entry, and they relay one message to the room without the sender. */
  lemma ControlEventsOnlyTouch(reg: Registry, sender: SocketId, ev: Event, now: Time)
    requires sender in reg.connected
    requires ev.MuteStatusChange? || ev.VideoStatusChange? || ev.HandRaise?
    ensures var st := Handle(reg, sender, ev, now);
      var key := KeyOf(ev.roomId, ev.userId);
      && st.registry.active.Keys == reg.active.Keys
      && (forall k :: k in reg.active ==>
            st.registry.active[k] == if k == key then reg.active[k].(lastActive := now) else reg.active[k])
      && st.registry.(active := reg.active) == reg
      && |st.out| == 1 && st.out[0].to == Members(reg, ev.roomId) - {sender}
      && st.out[0].message == (match ev
           case MuteStatusChange(_, userId, muted) => ParticipantMuted(userId, muted)
           case VideoStatusChange(_, userId, videoOff) => ParticipantVideoChanged(userId, videoOff)
           case HandRaise(_, userId, raised) => ParticipantHandRaised(userId, raised)
           case _ => st.out[0].message)
      && st.departures == []
  {
  }

  /** A removal request changes no registry at all: the removed participant stays present until its
      own socket disconnects. Its socket is told directly exactly when one is registered under the key. */
  lemma RemoveLeavesRegistry(reg: Registry, sender: SocketId, roomId: RoomId, participantId: UserId, now: Time)
    requires Valid(reg) && sender in reg.connected
    ensures var st := Handle(reg, sender, RemoveParticipant(roomId, participantId), now);
      var key := KeyOf(roomId, participantId);
      && st.registry == reg
      && st.out[0] == Delivery(Members(reg, roomId) - {sender}, ParticipantRemoved(participantId))
      && ((exists i :: 0 <= i < |st.out| && st.out[i].message == YouWereRemoved(roomId)) <==> key in reg.sockets)
      && (key in reg.sockets ==> st.out == [st.out[0], Delivery({reg.sockets[key]}, YouWereRemoved(roomId))])
  {
    var st := Handle(reg, sender, RemoveParticipant(roomId, participantId), now);
    if KeyOf(roomId, participantId) in reg.sockets {
      assert st.out[1].message == YouWereRemoved(roomId);
    } else {
      assert |st.out| == 1 && st.out[0].message.ParticipantRemoved?;
    }
  }

  /** Spotlight and the call-setup messages are pure relays to the rest of the room: the message
      carries the event's own data unchanged. */
  lemma RelaysKeepRegistry(reg: Registry, sender: SocketId, ev: Event, now: Time)
    requires sender in reg.connected
    requires ev.SpotlightParticipant? || ev.Offer? || ev.Answer? || ev.IceCandidate?
    ensures var st := Handle(reg, sender, ev, now);
      && st.registry == reg
      && |st.out| == 1 && st.out[0].to == Members(reg, ev.roomId) - {sender}
      && st.out[0].message == (match ev
           case SpotlightParticipant(_, participantId, spotlighted) => ParticipantSpotlighted(participantId, spotlighted)
           case Offer(offer, _) => OfferRelay(offer)
           case Answer(answer, _) => AnswerRelay(answer)
           case IceCandidate(candidate, _) => IceCandidateRelay(candidate)
           case _ => st.out[0].message)
      && st.departures == []
  {
  }

  /** Who hears a room broadcast: in a registry reached from the start, exactly the sockets that
      are in the room (which makes them connected), other than the sender. A socket that has
      disconnected hears nothing, since leaving takes it out of every room. Because every socket
      sits in the room named by its own id, a client that sends another socket's id as `roomId`
      reaches that socket, whether or not it joined anything. */
  lemma BroadcastAudience(trace: seq<Input>, roomId: RoomId, sender: SocketId, s: SocketId)
    ensures var reg := Run(Empty, trace).registry;
      && (s in Others(reg, roomId, sender) <==>
            roomId in reg.rooms && s in reg.rooms[roomId] && s in reg.connected && s != sender)
      && (s !in reg.connected ==> s !in Others(reg, roomId, sender))
      && (s in reg.connected && s != sender ==> s in Others(reg, s, sender))
  {
    ReachableValid(trace);
    ReachableOwnRooms(trace);
  }

  /** Every broadcast leaves the sending socket out; only the direct removal notice is addressed
      by key, and so can reach the sender when it removes itself. */
  lemma BroadcastsExcludeSender(reg: Registry, sender: SocketId, ev: Event, now: Time)
    ensures var st := Handle(reg, sender, ev, now);
      forall i :: 0 <= i < |st.out| && !st.out[i].message.YouWereRemoved? ==> sender !in st.out[i].to
  {
    if ev.Disconnect? && sender in reg.connected {
      var left := reg.(
        rooms := map r | r in reg.rooms :: reg.rooms[r] - {sender},
        connected := reg.connected - {sender},
        bindings := reg.bindings - {sender});
      RunBindingsOut(left, sender, BindingsOf(reg, sender), now);
    }
  }

  /** From a valid registry, messages are only ever addressed to connected sockets. */
  lemma DeliveriesReachConnected(reg: Registry, sender: SocketId, ev: Event, now: Time)
    requires Valid(reg)
    ensures var st := Handle(reg, sender, ev, now);
      forall i :: 0 <= i < |st.out| ==> st.out[i].to <= reg.connected
  {
    if ev.Disconnect? && sender in reg.connected {
      var left := reg.(
        rooms := map r | r in reg.rooms :: reg.rooms[r] - {sender},
        connected := reg.connected - {sender},
        bindings := reg.bindings - {sender});
      RunBindingsOut(left, sender, BindingsOf(reg, sender), now);
    }
  }

  /** No handler checks who asks: any two connected sockets sending the same control or removal
      event produce the same registry and the same messages, differing only in who is left out
      of the broadcast. A socket can speak for any user id. */
  lemma NoSenderCheck(reg: Registry, s1: SocketId, s2: SocketId, ev: Event, now: Time)
    requires s1 in reg.connected && s2 in reg.connected
    requires ev.MuteStatusChange? || ev.VideoStatusChange? || ev.HandRaise? || ev.RemoveParticipant?
      || ev.SpotlightParticipant?
    ensures var a, b := Handle(reg, s1, ev, now), Handle(reg, s2, ev, now);
      && a.registry == b.registry
      && |a.out| == |b.out|
      && (forall i :: 0 <= i < |a.out| ==> a.out[i].message == b.out[i].message)
      && a.out[0].to - {s2} == b.out[0].to - {s1}
      && (forall i :: 1 <= i < |a.out| ==> a.out[i].to == b.out[i].to)
  {
  }

  /** Events from a socket that is not connected run no handler. */
  lemma UnconnectedIsInert(reg: Registry, sender: SocketId, ev: Event, now: Time)
    requires sender !in reg.connected && !ev.Connect?
    ensures Handle(reg, sender, ev, now) == Step(reg, [], [])
  {
  }

  // ---------------------------------------------------------------------------
  // The key

  /** Distinct (room, user) pairs can share a registry key. */
  lemma KeyCollision()
    ensures ("a-b", "c") != ("a", "b-c") && KeyOf("a-b", "c") == KeyOf("a", "b-c")
  {
  }

  /** In the key of a room id without '-', the first '-' sits right after the room id. */
  lemma FirstDash(r: RoomId, u: UserId)
    requires '-' !in r
    ensures |KeyOf(r, u)| > |r| && KeyOf(r, u)[|r|] == '-'
    ensures forall i :: 0 <= i < |r| ==> KeyOf(r, u)[i] == r[i] != '-'
  {
  }

  /** When room ids contain no '-', the key determines the room and the user. */
  lemma KeyInjective(r1: RoomId, u1: UserId, r2: RoomId, u2: UserId)
    requires '-' !in r1 && '-' !in r2
    requires KeyOf(r1, u1) == KeyOf(r2, u2)
    ensures r1 == r2 && u1 == u2
  {
    var k := KeyOf(r1, u1);
    FirstDash(r1, u1);
    FirstDash(r2, u2);
    assert |r1| == |r2|;
    assert r1 == k[..|r1|] == r2;
    assert u1 == k[|r1| + 1..] == u2;
  }

  /** A user who rejoins from a second socket before the first one disconnects loses its presence
      when the first socket goes: the first socket's handler still holds the key, and the logged
      stay is measured from the second join. */
  lemma StaleSocketDropsRejoin()
    ensures var r0 := Handle(Handle(Empty, "A", Connect, 0).registry, "B", Connect, 0).registry;
      var r1 := Handle(r0, "A", JoinRoom("r", "u"), 10).registry;
      var r2 := Handle(r1, "B", JoinRoom("r", "u"), 20).registry;
      var st := Handle(r2, "A", Disconnect, 30);
      && r2.sockets[KeyOf("r", "u")] == "B"
      && "B" in st.registry.connected
      && KeyOf("r", "u") !in st.registry.active
      && st.departures == [Departure("r", "u", 10)]
  {
    var r0 := Handle(Handle(Empty, "A", Connect, 0).registry, "B", Connect, 0).registry;
    var r1 := Handle(r0, "A", JoinRoom("r", "u"), 10).registry;
    var r2 := Handle(r1, "B", JoinRoom("r", "u"), 20).registry;
    assert BindingsOf(r2, "A") == [Binding("r", "u")];
    var left := r2.(
      rooms := map r | r in r2.rooms :: r2.rooms[r] - {"A"},
      connected := r2.connected - {"A"},
      bindings := r2.bindings - {"A"});
    assert RunBindings(left, "A", [Binding("r", "u")], 30).departures == [Departure("r", "u", 10)];
  }
}
