/** The meaning of one instance's hub: for every room with a member, the
    connection registered for each client. */
module HubModel {

  type RoomMap<C> = map<string, map<string, C>>

  function MembersOf<C>(rooms: RoomMap<C>, room: string): map<string, C>
  {
    if room in rooms then rooms[room] else map[]
  }

  /** Register: the rooms are created as needed; an earlier connection of the
      same client is replaced. */
  function Join<C>(rooms: RoomMap<C>, roomIDs: seq<string>, client: string, conn: C): RoomMap<C>
    decreases |roomIDs|
  {
    if roomIDs == [] then rooms
    else
      var room := roomIDs[0];
      Join(rooms[room := MembersOf(rooms, room)[client := conn]], roomIDs[1..], client, conn)
  }

  /** Unregister: the client leaves every room, by name, and rooms left empty go. */
  function Leave<C>(rooms: RoomMap<C>, client: string): RoomMap<C>
  {
    map room | room in rooms && rooms[room] - {client} != map[] :: rooms[room] - {client}
  }

  ghost predicate NoEmptyRoom<C>(rooms: RoomMap<C>)
  {
    forall room :: room in rooms ==> rooms[room] != map[]
  }

  /** Joining touches the named rooms and the named client only. */
  lemma {:induction false} JoinMembers<C>(rooms: RoomMap<C>, roomIDs: seq<string>, client: string, conn: C, room: string)
    ensures MembersOf(Join(rooms, roomIDs, client, conn), room)
            == if room in roomIDs then MembersOf(rooms, room)[client := conn] else MembersOf(rooms, room)
    ensures room in Join(rooms, roomIDs, client, conn) <==> room in rooms || room in roomIDs
    decreases |roomIDs|
  {
    if roomIDs != [] {
      JoinMembers(rooms[roomIDs[0] := MembersOf(rooms, roomIDs[0])[client := conn]], roomIDs[1..], client, conn, room);
      assert room in roomIDs <==> room == roomIDs[0] || room in roomIDs[1..];
    }
  }

  lemma JoinKeeps<C>(rooms: RoomMap<C>, roomIDs: seq<string>, client: string, conn: C)
    requires NoEmptyRoom(rooms)
    ensures NoEmptyRoom(Join(rooms, roomIDs, client, conn))
  {
    var after := Join(rooms, roomIDs, client, conn);
    forall room | room in after
      ensures after[room] != map[]
    {
      JoinMembers(rooms, roomIDs, client, conn, room);
      assert room in roomIDs ==> client in after[room];
    }
  }

  lemma LeaveMembers<C>(rooms: RoomMap<C>, client: string, room: string)
    ensures MembersOf(Leave(rooms, client), room) == MembersOf(rooms, room) - {client}
    ensures NoEmptyRoom(Leave(rooms, client))
  {
  }

  /** Leaving undoes joining, for a client that was nowhere before. */
  lemma LeaveUndoesJoin<C>(rooms: RoomMap<C>, roomIDs: seq<string>, client: string, conn: C)
    requires NoEmptyRoom(rooms)
    requires forall room :: client !in MembersOf(rooms, room)
    ensures Leave(Join(rooms, roomIDs, client, conn), client) == rooms
  {
    var joined := Join(rooms, roomIDs, client, conn);
    forall room
      ensures room in Leave(joined, client) <==> room in rooms
      ensures room in rooms ==> room in Leave(joined, client) && Leave(joined, client)[room] == rooms[room]
    {
      JoinMembers(rooms, roomIDs, client, conn, room);
      LeaveMembers(joined, client, room);
      assert client !in MembersOf(rooms, room);
      assert MembersOf(rooms, room)[client := conn] - {client} == MembersOf(rooms, room);
      assert MembersOf(rooms, room) - {client} == MembersOf(rooms, room);
    }
  }

  /** Removal is by client name, so the end of an old connection also takes
      the client's newest one out of every room. */
  lemma OldConnectionEvictsNew<C>(rooms: RoomMap<C>, roomIDs: seq<string>, client: string, older: C, newer: C, room: string)
    ensures client !in MembersOf(Leave(Join(Join(rooms, roomIDs, client, older), roomIDs, client, newer), client), room)
  {
    LeaveMembers(Join(Join(rooms, roomIDs, client, older), roomIDs, client, newer), client, room);
  }
}
