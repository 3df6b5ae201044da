/** The receive loop of a message-service instance on top of the object hub. */
module HubConsumer {
  import opened Contract
  import opened DeliveryProtocol
  import opened FanoutProtocol
  import opened HubModel
  import opened WsHub

  /** What one message read from the channel adds to the queue of `c`. */
  function Gets<C(==)>(rooms: RoomMap<C>, m: Option<Envelope>, c: C): seq<Event>
  {
    match m
    case None => []
    case Some(envelope) =>
      match Dispatchable(rooms, envelope)
      case None => []
      case Some(e) => if c in MembersOf(rooms, e.roomID).Values then [e] else []
  }

  /** A message adds its event exactly for the members of the room it names in
      key and event, if the event is valid. */
  lemma GetsExactly<C>(rooms: RoomMap<C>, key: string, e: Event, c: C)
    ensures Gets(rooms, Some(Envelope(key, Encoded(e))), c)
            == if key == e.roomID && ValidateEvent(e).Valid? && key in rooms && c in rooms[key].Values then [e] else []
    ensures forall text :: Gets(rooms, Some(Envelope(key, Garbage(text))), c) == []
  {
  }

  function Received<C(==)>(rooms: RoomMap<C>, inbox: seq<Option<Envelope>>, c: C): seq<Event>
  {
    if inbox == [] then [] else Received(rooms, inbox[..|inbox| - 1], c) + Gets(rooms, inbox[|inbox| - 1], c)
  }

  /** What is received is exactly the dispatchable events of the connection's
      rooms, in channel order. */
  lemma {:induction false} ReceivedAre<C>(rooms: RoomMap<C>, inbox: seq<Option<Envelope>>, c: C, e: Event)
    ensures e in Received(rooms, inbox, c) <==>
              exists i :: 0 <= i < |inbox| && Gets(rooms, inbox[i], c) == [e]
  {
    if inbox != [] {
      hide Gets;
      var n := |inbox| - 1;
      ReceivedAre(rooms, inbox[..n], c, e);
      assert forall i :: 0 <= i < n ==> inbox[..n][i] == inbox[i];
      GetsOne(rooms, inbox[n], c);
    }
  }

  lemma GetsOne<C>(rooms: RoomMap<C>, m: Option<Envelope>, c: C)
    ensures |Gets(rooms, m, c)| <= 1
  {
  }

  ghost function Connections(rooms: RoomMap<ClientConnection>): set<ClientConnection>
  {
    set key, client | key in rooms && client in rooms[key] :: rooms[key][client]
  }

  method Receive(hub: Hub, m: Option<Envelope>, ghost members: set<ClientConnection>)
    requires hub.Valid() && members == Connections(hub.Model())
    modifies members
    ensures hub.Valid() && hub.Model() == old(hub.Model())
    ensures forall c :: c in members ==> c.sent == old(c.sent) + Gets(hub.Model(), m, c)
  {
    if m.None? {
      return;
    }
    var envelope := m.value;
    var event := Decode(envelope.value);
    if event.None? || event.value.roomID != envelope.key {
      return;
    }
    var e := event.value;
    var budget := if e.roomID in hub.rooms then |hub.rooms[e.roomID].clients| else 0;
    assert e.roomID in hub.rooms ==> hub.Model()[e.roomID] == hub.rooms[e.roomID].clients;
    var outcome := hub.Dispatch(e, budget);
  }

  /** The loop, on everything read before it ends: each connection of the hub
      gets exactly the events its rooms call for, in order, and the bad
      messages stop nothing. */
  method Run(hub: Hub, inbox: seq<Option<Envelope>>, ghost members: set<ClientConnection>)
    requires hub.Valid() && members == Connections(hub.Model())
    modifies members
    ensures hub.Valid() && hub.Model() == old(hub.Model())
    ensures forall c :: c in members ==> Grown(old(c.sent), c.sent, hub.Model(), inbox, c)
  {
    ghost var model := hub.Model();
    hide Gets, Connections, Hub.Valid, Hub.Model;
    for i := 0 to |inbox|
      invariant hub.Valid() && hub.Model() == model
      invariant forall c :: c in members ==> Grown(old(c.sent), c.sent, model, inbox[..i], c)
    {
      label Before:
      Receive(hub, inbox[i], members);
      hide Grown, Received;
      forall c | c in members
        ensures Grown(old(c.sent), c.sent, model, inbox[..i + 1], c)
      {
        GrownNext(old(c.sent), old@Before(c.sent), c.sent, model, inbox, i, c);
      }
    }
    assert inbox[..|inbox|] == inbox;
  }

  /** The queue of `c` has grown by what the inbox brings it. */
  ghost predicate Grown<C>(was: seq<Event>, now: seq<Event>, rooms: RoomMap<C>, inbox: seq<Option<Envelope>>, c: C)
  {
    now == was + Received(rooms, inbox, c)
  }

  lemma GrownNext<C>(was: seq<Event>, now: seq<Event>, next: seq<Event>, rooms: RoomMap<C>,
                     inbox: seq<Option<Envelope>>, i: nat, c: C)
    requires i < |inbox| && Grown(was, now, rooms, inbox[..i], c) && next == now + Gets(rooms, inbox[i], c)
    ensures Grown(was, next, rooms, inbox[..i + 1], c)
  {
    assert inbox[..i + 1][..i] == inbox[..i] && inbox[..i + 1][i] == inbox[i];
  }

  // ---------- the loop body is a step of the protocol ----------

  /** The hub with its connections named by `ids`. */
  ghost function Renamed(rooms: RoomMap<ClientConnection>, ids: map<ClientConnection, ConnId>): RoomMap<ConnId>
    requires Connections(rooms) <= ids.Keys
  {
    map room | room in rooms :: map client | client in rooms[room] ::
      assert rooms[room][client] in Connections(rooms); ids[rooms[room][client]]
  }

  /** Instance `inst` of the protocol state is this hub: the same members, and
      in every queue what its connection was sent. */
  ghost predicate Mirrors(f: Front, inst: string, rooms: RoomMap<ClientConnection>, ids: map<ClientConnection, ConnId>)
    reads Connections(rooms)
  {
    && Connections(rooms) <= ids.Keys
    && (forall c, d :: c in ids && d in ids && ids[c] == ids[d] ==> c == d)
    && HubOf(f, inst) == Renamed(rooms, ids)
    && (forall c :: c in Connections(rooms) ==> ids[c] in f.queues && f.queues[ids[c]] == c.sent)
  }

  /** Everyone the envelope is for. */
  function Everyone<C>(rooms: RoomMap<C>, m: Envelope): set<string>
  {
    match Dispatchable(rooms, m)
    case None => {}
    case Some(e) => MembersOf(rooms, e.roomID).Keys
  }

  lemma StepGets(channels: map<string, seq<Envelope>>, f: Front, inst: string, rooms: RoomMap<ClientConnection>,
                 ids: map<ClientConnection, ConnId>)
    requires Mirrors(f, inst, rooms, ids) && CursorOf(f, inst) < |ChannelAt(channels, inst)|
    ensures var m := ChannelAt(channels, inst)[CursorOf(f, inst)];
            var step := FanoutProtocol.Receive(inst, Everyone(rooms, m));
            && FanoutProtocol.Enabled(channels, f, step)
            && HubOf(FanoutProtocol.Apply(channels, f, step), inst) == HubOf(f, inst)
            && forall c :: c in Connections(rooms) ==>
                 && ids[c] in FanoutProtocol.Apply(channels, f, step).queues
                 && FanoutProtocol.Apply(channels, f, step).queues[ids[c]] == f.queues[ids[c]] + Gets(rooms, Some(m), c)
  {
    hide ValidateEvent, Mirrors, Renamed, Connections, FanoutProtocol.Apply, FanoutProtocol.Enabled;
    var m := ChannelAt(channels, inst)[CursorOf(f, inst)];
    MirrorsMeans(f, inst, rooms, ids);
    if Dispatchable(rooms, m).Some? {
      GoodGets(channels, f, inst, rooms, ids, Dispatchable(rooms, m).value);
    } else {
      BadGets(channels, f, inst);
    }
  }

  lemma MirrorsMeans(f: Front, inst: string, rooms: RoomMap<ClientConnection>, ids: map<ClientConnection, ConnId>)
    requires Mirrors(f, inst, rooms, ids)
    ensures Connections(rooms) <= ids.Keys && HubOf(f, inst).Keys == rooms.Keys
    ensures forall c :: c in Connections(rooms) ==> ids[c] in f.queues
  {
  }

  lemma BadGets(channels: map<string, seq<Envelope>>, f: Front, inst: string)
    requires CursorOf(f, inst) < |ChannelAt(channels, inst)|
    requires Dispatchable(HubOf(f, inst), ChannelAt(channels, inst)[CursorOf(f, inst)]).None?
    ensures FanoutProtocol.Enabled(channels, f, FanoutProtocol.Receive(inst, {}))
    ensures var f' := FanoutProtocol.Apply(channels, f, FanoutProtocol.Receive(inst, {}));
            f'.queues == f.queues && f'.hubs == f.hubs
  {
  }

  lemma GoodGets(channels: map<string, seq<Envelope>>, f: Front, inst: string, rooms: RoomMap<ClientConnection>,
                 ids: map<ClientConnection, ConnId>, e: Event)
    requires Mirrors(f, inst, rooms, ids) && CursorOf(f, inst) < |ChannelAt(channels, inst)|
    requires ChannelAt(channels, inst)[CursorOf(f, inst)] == Envelope(e.roomID, Encoded(e)) && ValidateEvent(e).Valid?
    requires e.roomID in rooms
    ensures var step := FanoutProtocol.Receive(inst, rooms[e.roomID].Keys);
            && FanoutProtocol.Enabled(channels, f, step)
            && HubOf(FanoutProtocol.Apply(channels, f, step), inst) == HubOf(f, inst)
            && forall c :: c in Connections(rooms) ==>
                 && ids[c] in FanoutProtocol.Apply(channels, f, step).queues
                 && FanoutProtocol.Apply(channels, f, step).queues[ids[c]]
                    == f.queues[ids[c]] + if c in rooms[e.roomID].Values then [e] else []
  {
    hide ValidateEvent, FanoutProtocol.Apply, FanoutProtocol.Enabled;
    var hub := HubOf(f, inst);
    assert hub[e.roomID].Keys == rooms[e.roomID].Keys;
    ReceiveExact(channels, f, inst, rooms[e.roomID].Keys, e);
    forall c | c in Connections(rooms)
      ensures Serves(hub[e.roomID], rooms[e.roomID].Keys, ids[c]) <==> c in rooms[e.roomID].Values
    {
      ServedIsMember(rooms, ids, e.roomID, c);
    }
  }

  lemma ServedIsMember(rooms: RoomMap<ClientConnection>, ids: map<ClientConnection, ConnId>, room: string, c: ClientConnection)
    requires Connections(rooms) <= ids.Keys && c in Connections(rooms) && room in rooms
    requires forall a, b :: a in ids && b in ids && ids[a] == ids[b] ==> a == b
    ensures Serves(Renamed(rooms, ids)[room], rooms[room].Keys, ids[c]) <==> c in rooms[room].Values
  {
    var members := Renamed(rooms, ids)[room];
    if c in rooms[room].Values {
      var client :| client in rooms[room] && rooms[room][client] == c;
      assert client in members && members[client] == ids[c];
    }
    if Serves(members, rooms[room].Keys, ids[c]) {
      var client :| client in rooms[room].Keys && client in members && members[client] == ids[c];
      assert rooms[room][client] in Connections(rooms) && ids[rooms[room][client]] == ids[c];
    }
  }

  /** Reading one message is the receive step of the protocol, for everyone. */
  method Take(hub: Hub, ghost members: set<ClientConnection>, channels: map<string, seq<Envelope>>, inst: string,
              f: Front, ghost ids: map<ClientConnection, ConnId>) returns (ghost f': Front)
    requires hub.Valid() && members == Connections(hub.Model())
    requires Mirrors(f, inst, hub.Model(), ids) && CursorOf(f, inst) < |ChannelAt(channels, inst)|
    modifies members
    ensures hub.Valid() && hub.Model() == old(hub.Model()) && Mirrors(f', inst, hub.Model(), ids)
    ensures var everyone := Everyone(hub.Model(), ChannelAt(channels, inst)[CursorOf(f, inst)]);
            && FanoutProtocol.Enabled(channels, f, FanoutProtocol.Receive(inst, everyone))
            && f' == FanoutProtocol.Apply(channels, f, FanoutProtocol.Receive(inst, everyone))
  {
    var m := ChannelAt(channels, inst)[CursorOf(f, inst)];
    ghost var served := Everyone(hub.Model(), m);
    StepGets(channels, f, inst, hub.Model(), ids);
    f' := FanoutProtocol.Apply(channels, f, FanoutProtocol.Receive(inst, served));
    hide Gets, FanoutProtocol.Apply, FanoutProtocol.Enabled, Hub.Valid, Hub.Model, Connections, Renamed, Everyone;
    Receive(hub, Some(m), members);
  }
}
