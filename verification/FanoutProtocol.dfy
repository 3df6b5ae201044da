/** The receiving end: every message-service instance reads its own Redis
    channel and dispatches to the connections its hub holds for the room.
    Messages published while an instance does not listen are lost. */
module FanoutProtocol {
  import opened Contract
  import opened AcceptProtocol
  import opened RelayProtocol
  import opened DeliveryProtocol
  import opened HubModel

  type ConnId = nat

  /** Per instance its hub and how far it has read its channel; per connection
      the events placed in its queue and the rooms it registered for. */
  datatype Front = Front(
    hubs: map<string, RoomMap<ConnId>>,
    cursors: map<string, nat>,
    queues: map<ConnId, seq<Event>>,
    joined: map<ConnId, set<string>>)

  datatype Step =
    | Register(inst: string, roomIDs: seq<string>, client: string, conn: ConnId)
    | Unregister(inst: string, client: string)
    | Receive(inst: string, served: set<string>)   // all members, fewer if the context ends
    | Lose(inst: string)

  function HubOf(f: Front, inst: string): RoomMap<ConnId>
  {
    if inst in f.hubs then f.hubs[inst] else map[]
  }

  function CursorOf(f: Front, inst: string): nat
  {
    if inst in f.cursors then f.cursors[inst] else 0
  }

  /** Consumer.Run and Hub.Dispatch up to the sends: the event that goes out,
      if the envelope passes every check. */
  function Dispatchable<C>(rooms: RoomMap<C>, m: Envelope): Option<Event>
  {
    match Decode(m.value)
    case None => None
    case Some(event) =>
      if event.roomID == m.key && ValidateEvent(event).Valid? && event.roomID in rooms then Some(event) else None
  }

  predicate Enabled(channels: map<string, seq<Envelope>>, f: Front, step: Step)
  {
    match step
    case Register(inst, roomIDs, client, conn) => conn !in f.queues
    case Unregister(inst, client) => true
    case Receive(inst, served) =>
      && CursorOf(f, inst) < |ChannelAt(channels, inst)|
      && var out := Dispatchable(HubOf(f, inst), ChannelAt(channels, inst)[CursorOf(f, inst)]);
         served <= if out.Some? then MembersOf(HubOf(f, inst), out.value.roomID).Keys else {}
    case Lose(inst) => CursorOf(f, inst) < |ChannelAt(channels, inst)|
  }

  /** The connections of the served clients of a room. */
  function Receivers(rooms: RoomMap<ConnId>, room: string, served: set<string>): set<ConnId>
  {
    set client | client in served && client in MembersOf(rooms, room) :: MembersOf(rooms, room)[client]
  }

  function Apply(channels: map<string, seq<Envelope>>, f: Front, step: Step): Front
    requires Enabled(channels, f, step)
  {
    match step
    case Register(inst, roomIDs, client, conn) =>
      f.(hubs := f.hubs[inst := Join(HubOf(f, inst), roomIDs, client, conn)],
         queues := f.queues[conn := []],
         joined := f.joined[conn := set room | room in roomIDs])
    case Unregister(inst, client) =>
      f.(hubs := f.hubs[inst := HubModel.Leave(HubOf(f, inst), client)])
    case Receive(inst, served) =>
      var f1 := f.(cursors := f.cursors[inst := CursorOf(f, inst) + 1]);
      var out := Dispatchable(HubOf(f, inst), ChannelAt(channels, inst)[CursorOf(f, inst)]);
      if out.None? then f1
      else
        var to := Receivers(HubOf(f, inst), out.value.roomID, served);
        f1.(queues := map c | c in f.queues :: if c in to then f.queues[c] + [out.value] else f.queues[c])
    case Lose(inst) =>
      f.(cursors := f.cursors[inst := CursorOf(f, inst) + 1])
  }

  predicate Init(f: Front)
  {
    f == Front(map[], map[], map[], map[])
  }

  // ---------- the invariant ----------

  /** A queue holds committed events of the rooms its connection joined. */
  ghost predicate QueueOk(outbox: map<Slot, OutboxRow>, rooms: set<string>, queue: seq<Event>)
  {
    forall i :: 0 <= i < |queue| ==> CommittedEvent(outbox, queue[i]) && queue[i].roomID in rooms
  }

  /** A connection is a member only of rooms it joined. */
  ghost predicate HubOk(joined: map<ConnId, set<string>>, rooms: RoomMap<ConnId>)
  {
    forall room, client :: room in rooms && client in rooms[room] ==>
      rooms[room][client] in joined && room in joined[rooms[room][client]]
  }

  ghost predicate HubsOk(joined: map<ConnId, set<string>>, hubs: map<string, RoomMap<ConnId>>)
  {
    forall inst :: inst in hubs ==> HubOk(joined, hubs[inst]) && NoEmptyRoom(hubs[inst])
  }

  ghost predicate Inv(outbox: map<Slot, OutboxRow>, f: Front)
  {
    && f.joined.Keys == f.queues.Keys
    && (forall c :: c in f.queues ==> QueueOk(outbox, f.joined[c], f.queues[c]))
    && HubsOk(f.joined, f.hubs)
  }

  lemma OutboxGrowsFront(outbox: map<Slot, OutboxRow>, outbox': map<Slot, OutboxRow>, f: Front)
    requires Inv(outbox, f)
    requires forall slot :: slot in outbox ==> slot in outbox' && outbox'[slot] == outbox[slot]
    ensures Inv(outbox', f)
  {
    forall c | c in f.queues
      ensures QueueOk(outbox', f.joined[c], f.queues[c])
    {
      assert QueueOk(outbox, f.joined[c], f.queues[c]);
    }
  }

  lemma HubOfOk(f: Front, inst: string)
    requires HubsOk(f.joined, f.hubs)
    ensures HubOk(f.joined, HubOf(f, inst)) && NoEmptyRoom(HubOf(f, inst))
  {
  }

  lemma JoinHub(joined: map<ConnId, set<string>>, rooms: RoomMap<ConnId>, roomIDs: seq<string>, client: string, conn: ConnId)
    requires HubOk(joined, rooms) && conn !in joined
    ensures HubOk(joined[conn := set room | room in roomIDs], Join(rooms, roomIDs, client, conn))
  {
    var joined', after := joined[conn := set room | room in roomIDs], Join(rooms, roomIDs, client, conn);
    forall room, member | room in after && member in after[room]
      ensures after[room][member] in joined' && room in joined'[after[room][member]]
    {
      JoinMembers(rooms, roomIDs, client, conn, room);
    }
  }

  lemma RegisterInv(outbox: map<Slot, OutboxRow>, channels: map<string, seq<Envelope>>, f: Front, step: Step)
    requires Inv(outbox, f) && step.Register? && Enabled(channels, f, step)
    ensures Inv(outbox, Apply(channels, f, step))
  {
    var f' := Apply(channels, f, step);
    assert f'.joined.Keys == f.joined.Keys + {step.conn} && f'.queues.Keys == f.queues.Keys + {step.conn};
    assert step.conn !in f.joined.Keys;
    HubOfOk(f, step.inst);
    JoinHub(f.joined, HubOf(f, step.inst), step.roomIDs, step.client, step.conn);
    JoinKeeps(HubOf(f, step.inst), step.roomIDs, step.client, step.conn);
    forall inst | inst in f'.hubs && inst != step.inst
      ensures HubOk(f'.joined, f'.hubs[inst]) && NoEmptyRoom(f'.hubs[inst])
    {
      HubOfOk(f, inst);
    }
    forall c | c in f'.queues
      ensures QueueOk(outbox, f'.joined[c], f'.queues[c])
    {
      assert c != step.conn ==> QueueOk(outbox, f.joined[c], f.queues[c]);
    }
  }

  lemma UnregisterInv(outbox: map<Slot, OutboxRow>, channels: map<string, seq<Envelope>>, f: Front, step: Step)
    requires Inv(outbox, f) && step.Unregister? && Enabled(channels, f, step)
    ensures Inv(outbox, Apply(channels, f, step))
  {
    hide QueueOk;
    var f' := Apply(channels, f, step);
    HubOfOk(f, step.inst);
    LeaveMembers(HubOf(f, step.inst), step.client, "");
    forall inst | inst in f'.hubs
      ensures HubOk(f'.joined, f'.hubs[inst]) && NoEmptyRoom(f'.hubs[inst])
    {
      HubOfOk(f, inst);
    }
  }

  /** The step that fills queues.  Each queue grows by at most the one event
      dispatched, which is a committed one, and only the queue of a connection
      that is a member of the event's room in that instance's hub right then. */
  lemma ReceiveEffect(outbox: map<Slot, OutboxRow>, channels: map<string, seq<Envelope>>, f: Front, step: Step, c: ConnId)
    requires Inv(outbox, f) && ChannelsOk(outbox, channels)
    requires step.Receive? && Enabled(channels, f, step) && c in f.queues
    ensures c in Apply(channels, f, step).queues
    ensures var q, q' := f.queues[c], Apply(channels, f, step).queues[c];
            q' == q || exists e, client ::
              && q' == q + [e]
              && CommittedEvent(outbox, e)
              && client in step.served
              && client in MembersOf(HubOf(f, step.inst), e.roomID)
              && MembersOf(HubOf(f, step.inst), e.roomID)[client] == c
  {
    hide ValidateEvent;
    var rooms := HubOf(f, step.inst);
    var m := ChannelAt(channels, step.inst)[CursorOf(f, step.inst)];
    assert EnvelopeOk(outbox, m);
    var out := Dispatchable(rooms, m);
    if out.Some? && c in Receivers(rooms, out.value.roomID, step.served) {
      var client :| client in step.served && client in MembersOf(rooms, out.value.roomID)
                    && MembersOf(rooms, out.value.roomID)[client] == c;
      assert Apply(channels, f, step).queues[c] == f.queues[c] + [out.value];
    }
  }

  lemma QueueMore(outbox: map<Slot, OutboxRow>, rooms: set<string>, queue: seq<Event>, e: Event)
    requires QueueOk(outbox, rooms, queue) && CommittedEvent(outbox, e) && e.roomID in rooms
    ensures QueueOk(outbox, rooms, queue + [e])
  {
    hide CommittedEvent;
  }

  lemma ReceiveQueue(outbox: map<Slot, OutboxRow>, channels: map<string, seq<Envelope>>, f: Front, step: Step, c: ConnId)
    requires Inv(outbox, f) && ChannelsOk(outbox, channels)
    requires step.Receive? && Enabled(channels, f, step) && c in f.queues
    ensures c in Apply(channels, f, step).queues && QueueOk(outbox, f.joined[c], Apply(channels, f, step).queues[c])
  {
    ReceiveEffect(outbox, channels, f, step, c);
    HubOfOk(f, step.inst);
    hide Apply, Enabled, ChannelsOk, HubsOk, CommittedEvent, QueueOk;
    var q, q' := f.queues[c], Apply(channels, f, step).queues[c];
    if q' != q {
      var e, client :| q' == q + [e] && CommittedEvent(outbox, e)
                       && client in MembersOf(HubOf(f, step.inst), e.roomID)
                       && MembersOf(HubOf(f, step.inst), e.roomID)[client] == c;
      QueueMore(outbox, f.joined[c], q, e);
    }
  }

  lemma ReceiveInv(outbox: map<Slot, OutboxRow>, channels: map<string, seq<Envelope>>, f: Front, step: Step)
    requires Inv(outbox, f) && ChannelsOk(outbox, channels) && step.Receive? && Enabled(channels, f, step)
    ensures Inv(outbox, Apply(channels, f, step))
  {
    hide ValidateEvent, Dispatchable, Receivers, ChannelsOk, HubsOk, CommittedEvent, QueueOk;
    var f' := Apply(channels, f, step);
    assert f'.queues.Keys == f.queues.Keys;
    forall c | c in f'.queues
      ensures QueueOk(outbox, f'.joined[c], f'.queues[c])
    {
      ReceiveQueue(outbox, channels, f, step, c);
    }
  }

  /** Every step of every instance keeps the invariant. */
  lemma StepInv(outbox: map<Slot, OutboxRow>, channels: map<string, seq<Envelope>>, f: Front, step: Step)
    requires Inv(outbox, f) && ChannelsOk(outbox, channels) && Enabled(channels, f, step)
    ensures Inv(outbox, Apply(channels, f, step))
  {
    hide QueueOk, HubsOk, ChannelsOk;
    match step {
      case Register(_, _, _, _) => RegisterInv(outbox, channels, f, step);
      case Unregister(_, _) => UnregisterInv(outbox, channels, f, step);
      case Receive(_, _) => ReceiveInv(outbox, channels, f, step);
      case Lose(_) =>
    }
  }

  // ---------- what each step does ----------

  /** Registering puts the connection into the named rooms of its instance, with
      an empty queue, and changes nothing else. */
  lemma RegisterExact(channels: map<string, seq<Envelope>>, f: Front, inst: string, roomIDs: seq<string>,
                      client: string, conn: ConnId, room: string)
    requires conn !in f.queues
    ensures Enabled(channels, f, Register(inst, roomIDs, client, conn))
    ensures var f' := Apply(channels, f, Register(inst, roomIDs, client, conn));
            && MembersOf(HubOf(f', inst), room)
               == (if room in roomIDs then MembersOf(HubOf(f, inst), room)[client := conn] else MembersOf(HubOf(f, inst), room))
            && f'.queues == f.queues[conn := []] && f'.cursors == f.cursors
            && conn in f'.joined && (room in f'.joined[conn] <==> room in roomIDs)
            && (forall o :: o != inst ==> HubOf(f', o) == HubOf(f, o))
  {
    JoinMembers(HubOf(f, inst), roomIDs, client, conn, room);
  }

  lemma UnregisterExact(channels: map<string, seq<Envelope>>, f: Front, inst: string, client: string, room: string)
    ensures var f' := Apply(channels, f, Unregister(inst, client));
            && MembersOf(HubOf(f', inst), room) == MembersOf(HubOf(f, inst), room) - {client}
            && f'.queues == f.queues && f'.cursors == f.cursors && f'.joined == f.joined
            && (forall o :: o != inst ==> HubOf(f', o) == HubOf(f, o))
  {
    LeaveMembers(HubOf(f, inst), client, room);
  }

  /** The connection of some served client of the room. */
  ghost predicate Serves(members: map<string, ConnId>, served: set<string>, c: ConnId)
  {
    exists client :: client in served && client in members && members[client] == c
  }

  /** A good envelope for a room with members: any of them may be served, and
      exactly the queues of the served ones grow, by exactly the event. */
  lemma ReceiveExact(channels: map<string, seq<Envelope>>, f: Front, inst: string, served: set<string>, e: Event)
    requires CursorOf(f, inst) < |ChannelAt(channels, inst)|
    requires ChannelAt(channels, inst)[CursorOf(f, inst)] == Envelope(e.roomID, Encoded(e)) && ValidateEvent(e).Valid?
    requires e.roomID in HubOf(f, inst) && served <= HubOf(f, inst)[e.roomID].Keys
    ensures Enabled(channels, f, Receive(inst, served))
    ensures var f' := Apply(channels, f, Receive(inst, served));
            && f'.queues.Keys == f.queues.Keys && f'.hubs == f.hubs && f'.joined == f.joined
            && f'.cursors == f.cursors[inst := CursorOf(f, inst) + 1]
            && forall c :: c in f.queues ==>
                 f'.queues[c] == f.queues[c] + if Serves(HubOf(f, inst)[e.roomID], served, c) then [e] else []
  {
    hide ValidateEvent;
    var f' := Apply(channels, f, Receive(inst, served));
    var members := HubOf(f, inst)[e.roomID];
    forall c | c in f.queues
      ensures f'.queues[c] == f.queues[c] + if Serves(members, served, c) then [e] else []
    {
      assert c in Receivers(HubOf(f, inst), e.roomID, served) <==> Serves(members, served, c);
    }
  }

  /** Any other envelope is passed over: only the cursor moves. */
  lemma ReceiveNothing(channels: map<string, seq<Envelope>>, f: Front, inst: string, served: set<string>)
    requires CursorOf(f, inst) < |ChannelAt(channels, inst)| && Enabled(channels, f, Receive(inst, served))
    requires var m := ChannelAt(channels, inst)[CursorOf(f, inst)];
             m.value.Garbage? || m.key != m.value.event.roomID || !ValidateEvent(m.value.event).Valid?
             || m.value.event.roomID !in HubOf(f, inst)
    ensures Apply(channels, f, Receive(inst, served)) == f.(cursors := f.cursors[inst := CursorOf(f, inst) + 1])
  {
  }

  /** From f to f' exactly the connections of the served members of e's room at
      this instance got e, each once; else only the cursor has moved. */
  ghost predicate Delivered(f: Front, f': Front, inst: string, served: set<string>, e: Event)
  {
    && CursorOf(f', inst) == CursorOf(f, inst) + 1 && f'.hubs == f.hubs && f'.queues.Keys == f.queues.Keys
    && forall c :: c in f.queues ==>
         f'.queues[c] == f.queues[c] + if Serves(MembersOf(HubOf(f, inst), e.roomID), served, c) then [e] else []
  }

  lemma ReceiveDelivers(channels: map<string, seq<Envelope>>, f: Front, inst: string, served: set<string>, e: Event)
    requires CursorOf(f, inst) < |ChannelAt(channels, inst)|
    requires ChannelAt(channels, inst)[CursorOf(f, inst)] == Envelope(e.roomID, Encoded(e)) && ValidateEvent(e).Valid?
    requires served <= MembersOf(HubOf(f, inst), e.roomID).Keys
    ensures Enabled(channels, f, Receive(inst, served))
    ensures Delivered(f, Apply(channels, f, Receive(inst, served)), inst, served, e)
  {
    hide ValidateEvent;
    if e.roomID in HubOf(f, inst) {
      ReceiveExact(channels, f, inst, served, e);
    } else {
      ReceiveNothing(channels, f, inst, served);
    }
  }
}
