/** The in-memory hub of one message-service instance, with the objects the
    source has: a hub of rooms, each room a map from client to connection.
    Locks are not modelled; each method runs under the hub's lock. */
module WsHub {
  import opened Contract
  import opened HubModel

  /** `sent` is everything placed in the Send channel so far. */
  class ClientConnection {
    const ClientID: string
    var sent: seq<Event>

    constructor (clientID: string)
      ensures ClientID == clientID && sent == []
    {
      ClientID, sent := clientID, [];
    }
  }

  class Room {
    const ID: string
    var clients: map<string, ClientConnection>

    /** Each client name leads to a connection of that name. */
    ghost predicate Named()
      reads this
    {
      forall client :: client in clients ==> clients[client].ClientID == client
    }

    constructor (id: string)
      ensures ID == id && clients == map[]
    {
      ID, clients := id, map[];
    }

    method AddClient(c: ClientConnection)
      requires Named()
      modifies this
      ensures Named()
      ensures clients == old(clients)[c.ClientID := c]
    {
      clients := clients[c.ClientID := c];
    }

    method RemoveClient(clientID: string)
      requires Named()
      modifies this
      ensures Named()
      ensures clients == old(clients) - {clientID}
    {
      clients := clients - {clientID};
    }
  }

  /** The rooms outside `todo` have been visited by Unregister. */
  ghost predicate Halfway<C>(before: RoomMap<C>, now: RoomMap<C>, todo: set<string>, client: string)
  {
    && (forall key :: key in todo ==> key in before && key in now && now[key] == before[key])
    && (forall key :: key !in todo ==> (key in now <==> key in before && before[key] - {client} != map[]))
    && (forall key :: key !in todo && key in now ==> now[key] == before[key] - {client})
  }

  lemma HalfwayStart<C>(before: RoomMap<C>, client: string)
    ensures Halfway(before, before, before.Keys, client)
  {
  }

  lemma HalfwayStep<C>(before: RoomMap<C>, now: RoomMap<C>, todo: set<string>, key: string, client: string)
    requires Halfway(before, now, todo, client) && key in todo && key in now
    ensures Halfway(before, if now[key] - {client} == map[] then now - {key} else now[key := now[key] - {client}],
                    todo - {key}, client)
    ensures todo <= now.Keys
  {
  }

  lemma HalfwayDone<C>(before: RoomMap<C>, now: RoomMap<C>, client: string)
    requires Halfway(before, now, {}, client)
    ensures now == Leave(before, client)
  {
  }

  datatype Outcome = Done | InvalidEvent | NoSuchRoom | Cancelled

  class Hub {
    var rooms: map<string, Room>

    /** Each room is stored under its own ID. */
    ghost predicate Linked()
      reads this, rooms.Values
    {
      forall key :: key in rooms ==> rooms[key].ID == key && rooms[key].Named()
    }

    ghost predicate Valid()
      reads this, rooms.Values
    {
      Linked() && NoEmptyRoom(Model())
    }

    /** The abstract value: room to client to connection. */
    ghost function Model(): RoomMap<ClientConnection>
      reads this, rooms.Values
    {
      map key | key in rooms :: rooms[key].clients
    }

    /** Distinct keys hold distinct Room objects. */
    lemma DistinctRooms(a: string, b: string)
      requires Valid() && a in rooms && b in rooms && a != b
      ensures rooms[a] != rooms[b]
    {
      assert rooms[a].ID == a && rooms[b].ID == b;
    }

    constructor ()
      ensures Valid() && Model() == map[]
    {
      rooms := map[];
    }

    /** The room under this key is created if need be. */
    method MakeRoom(roomID: string)
      requires Linked()
      modifies this`rooms
      ensures Linked() && fresh(rooms.Values - old(rooms.Values))
      ensures forall key :: key in old(rooms) ==> key in rooms && rooms[key] == old(rooms)[key]
      ensures Model() == old(Model())[roomID := MembersOf(old(Model()), roomID)]
    {
      if roomID !in rooms {
        var room := new Room(roomID);
        rooms := rooms[roomID := room];
      }
    }

    method AddIn(key: string, conn: ClientConnection)
      requires Linked() && key in rooms
      modifies rooms[key]
      ensures Linked()
      ensures Model() == old(Model())[key := old(Model())[key][conn.ClientID := conn]]
    {
      var room := rooms[key];
      assert forall other :: other in rooms && other != key ==> rooms[other].ID != room.ID;
      room.AddClient(conn);
    }

    /** One turn of Register's loop. */
    method AddTo(roomID: string, conn: ClientConnection)
      requires Linked()
      modifies this, rooms.Values
      ensures Linked() && fresh(rooms.Values - old(rooms.Values))
      ensures Model() == old(Model())[roomID := MembersOf(old(Model()), roomID)[conn.ClientID := conn]]
    {
      hide Model, Linked;
      MakeRoom(roomID);
      ModelKeys();
      AddIn(roomID, conn);
    }

    lemma ModelKeys()
      ensures Model().Keys == rooms.Keys
    {
    }

    method Register(roomIDs: seq<string>, conn: ClientConnection?) returns (ok: bool)
      requires Valid()
      modifies this, rooms.Values
      ensures ok <==> conn != null
      ensures Valid() && fresh(rooms.Values - old(rooms.Values))
      ensures Model() == if conn == null then old(Model()) else Join(old(Model()), roomIDs, conn.ClientID, conn)
    {
      if conn == null {
        return false;
      }
      var i := 0;
      assert roomIDs[0..] == roomIDs;
      while i < |roomIDs|
        invariant i <= |roomIDs| && Linked()
        invariant fresh(rooms.Values - old(rooms.Values))
        invariant Join(Model(), roomIDs[i..], conn.ClientID, conn) == Join(old(Model()), roomIDs, conn.ClientID, conn)
      {
        assert roomIDs[i..][0] == roomIDs[i] && roomIDs[i..][1..] == roomIDs[i + 1..];
        AddTo(roomIDs[i], conn);
        i := i + 1;
      }
      assert roomIDs[|roomIDs|..] == [];
      JoinKeeps(old(Model()), roomIDs, conn.ClientID, conn);
      ok := true;
    }

    method RemoveIn(key: string, clientID: string)
      requires Linked() && key in rooms
      modifies rooms[key]
      ensures Linked()
      ensures Model() == old(Model())[key := old(Model())[key] - {clientID}]
    {
      var room := rooms[key];
      assert forall other :: other in rooms && other != key ==> rooms[other].ID != room.ID;
      room.RemoveClient(clientID);
    }

    /** One turn of Unregister's loop; the room is deleted by its ID. */
    method RemoveFrom(key: string, clientID: string)
      requires Linked() && key in rooms
      modifies this`rooms, rooms[key]
      ensures Linked() && rooms.Values <= old(rooms.Values)
      ensures Model() == if old(Model())[key] - {clientID} == map[] then old(Model()) - {key}
                         else old(Model())[key := old(Model())[key] - {clientID}]
    {
      RemoveIn(key, clientID);
      if rooms[key].clients == map[] {
        rooms := rooms - {rooms[key].ID};
      }
    }

    /** Deletes rooms from the map while walking over it, as the source does. */
    method Unregister(clientID: string)
      requires Valid()
      modifies this, rooms.Values
      ensures Valid() && rooms.Values <= old(rooms.Values)
      ensures Model() == Leave(old(Model()), clientID)
    {
      hide Linked, Model, Halfway, Leave;
      ghost var model := Model();
      ModelKeys();
      var todo := rooms.Keys;
      HalfwayStart(model, clientID);
      while todo != {}
        invariant todo <= rooms.Keys && Linked() && rooms.Values <= old(rooms.Values)
        invariant Halfway(model, Model(), todo, clientID)
        decreases todo
      {
        var key :| key in todo;
        ghost var now := Model();
        ModelKeys();
        RemoveFrom(key, clientID);
        HalfwayStep(model, now, todo, key, clientID);
        todo := todo - {key};
        ModelKeys();
      }
      HalfwayDone(model, Model(), clientID);
      LeaveMembers(model, clientID, "");
    }

    /** Sends to every member of the event's room, in any order; `budget` is
        the number of sends that go through before the context ends.  Nobody
        else's queue is touched. */
    method Dispatch(m: Event, budget: nat) returns (r: Outcome)
      requires Valid()
      modifies (if m.roomID in rooms then rooms[m.roomID].clients.Values else {})
      ensures r.InvalidEvent? <==> !ValidateEvent(m).Valid?
      ensures r.NoSuchRoom? <==> ValidateEvent(m).Valid? && m.roomID !in rooms
      ensures m.roomID in rooms && ValidateEvent(m).Valid? ==> (r.Done? <==> |rooms[m.roomID].clients| <= budget)
      ensures m.roomID in rooms ==> forall client :: client in rooms[m.roomID].clients ==>
                var c := rooms[m.roomID].clients[client];
                && (r.Done? ==> c.sent == old(c.sent) + [m])
                && (r.Cancelled? ==> c.sent == old(c.sent) || c.sent == old(c.sent) + [m])
                && (r.InvalidEvent? ==> c.sent == old(c.sent))
      ensures Valid() && rooms == old(rooms) && Model() == old(Model())
    {
      if !ValidateEvent(m).Valid? {
        return InvalidEvent;
      }
      if m.roomID !in rooms {
        return NoSuchRoom;
      }
      var all := SendAll(rooms[m.roomID], m, budget);
      r := if all then Done else Cancelled;
    }

    /** The send loop of Dispatch. */
    method SendAll(room: Room, m: Event, budget: nat) returns (all: bool)
      requires room.Named()
      modifies room.clients.Values
      ensures room.clients == old(room.clients) && room.Named()
      ensures all <==> |room.clients| <= budget
      ensures forall client :: client in room.clients ==>
                var c := room.clients[client];
                c.sent == old(c.sent) + [m] || (!all && c.sent == old(c.sent))
    {
      var clients := room.clients;
      var todo := clients.Keys;
      var sends := 0;
      while todo != {}
        invariant todo <= clients.Keys && sends + |todo| == |clients| && sends <= budget
        invariant forall client :: client in todo ==> clients[client].sent == old(clients[client].sent)
        invariant forall client :: client in clients && client !in todo ==>
                    clients[client].sent == old(clients[client].sent) + [m]
        decreases todo
      {
        if sends == budget {
          return false;
        }
        var client :| client in todo;
        var c := clients[client];
        assert forall other :: other in clients && other != client ==> clients[other].ClientID != c.ClientID;
        c.sent := c.sent + [m];
        todo := todo - {client};
        sends := sends + 1;
      }
      all := true;
    }
  }
}
