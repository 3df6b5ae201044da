/** The presence service: for every client connection a Redis set with the
    rooms it is in, and for every room a hash with one field per connection
    naming the instance.  Set and fields carry deadlines and are read as
    absent once these pass.  A MULTI/EXEC is one step; Disconnect and Ping
    first read the set in a step of their own. */
module Presence {
  import opened Contract

  /** connTTL, in nanoseconds. */
  const TTL := 60_000_000_000

  datatype ClientSet = ClientSet(rooms: set<string>, deadline: int)
  datatype Field = Field(inst: string, deadline: int)

  /** Client sets by client key, fields by room and client key. */
  datatype Redis = Redis(now: int, clients: map<string, ClientSet>, hashes: map<string, map<string, Field>>)

  function ClientKey(client: string, inst: string): string
  {
    client + "|" + inst
  }

  function RoomKey(room: string): string
  {
    "room:" + room
  }

  // ---------- reading ----------

  function FieldsOf(r: Redis, room: string): map<string, Field>
  {
    if room in r.hashes then r.hashes[room] else map[]
  }

  predicate ClientLive(r: Redis, ck: string)
  {
    ck in r.clients && r.now < r.clients[ck].deadline
  }

  predicate FieldLive(r: Redis, room: string, ck: string)
  {
    ck in FieldsOf(r, room) && r.now < FieldsOf(r, room)[ck].deadline
  }

  /** SMEMBERS: an expired set reads as empty. */
  function Members(r: Redis, ck: string): set<string>
  {
    if ClientLive(r, ck) then r.clients[ck].rooms else {}
  }

  /** The instances with a live field in the room's hash. */
  function LiveInstances(r: Redis, room: string): set<string>
  {
    set ck | ck in FieldsOf(r, room) && FieldLive(r, room, ck) :: FieldsOf(r, room)[ck].inst
  }

  // ---------- executing ----------

  /** HSET and HEXPIRE of the connection's field in every room. */
  function SaveRooms(r: Redis, ck: string, inst: string, rooms: set<string>): Redis
  {
    r.(hashes := map room | room in r.hashes.Keys + rooms ::
      if room in rooms then FieldsOf(r, room)[ck := Field(inst, r.now + TTL)] else r.hashes[room])
  }

  /** Connect.  SADD without members is refused and aborts the transaction. */
  function ConnectExec(r: Redis, ck: string, inst: string, rooms: set<string>): Redis
  {
    if rooms == {} then r
    else SaveRooms(r, ck, inst, rooms).(clients := r.clients[ck := ClientSet(rooms, r.now + TTL)])
  }

  /** Disconnect, with the rooms it read. */
  function DisconnectExec(r: Redis, ck: string, rooms: set<string>): Redis
  {
    if rooms == {} then r
    else r.(clients := r.clients - {ck},
            hashes := map room | room in r.hashes ::
              if room in rooms then r.hashes[room] - {ck} else r.hashes[room])
  }

  /** Ping, with the rooms it read; EXPIRE does nothing on a missing key. */
  function PingExec(r: Redis, ck: string, inst: string, rooms: set<string>): Redis
  {
    var saved := SaveRooms(r, ck, inst, rooms);
    if ClientLive(r, ck) then saved.(clients := r.clients[ck := r.clients[ck].(deadline := r.now + TTL)]) else saved
  }

  // ---------- keys ----------

  /** With instance names free of the separator, the key determines client and instance. */
  lemma KeyInjective(c: string, i: string, d: string, j: string)
    requires '|' !in i && '|' !in j && ClientKey(c, i) == ClientKey(d, j)
    ensures c == d && i == j
  {
    var k := ClientKey(c, i);
    assert k[|c|] == '|' && k[|d|] == '|';
    if |c| < |d| {
      assert false;
    } else if |d| < |c| {
      assert false;
    }
    assert c == k[..|c|] && d == k[..|d|];
    assert i == k[|c| + 1..] && j == k[|d| + 1..];
  }

  /** Without that, two connections can share a key. */
  lemma KeyClash()
    ensures ClientKey("a|b", "c") == ClientKey("a", "b|c")
  {
  }

  /** A client key is also a room key exactly when the client name starts like one. */
  lemma KeySpacesMeet(client: string, inst: string)
    ensures (exists room :: ClientKey(client, inst) == RoomKey(room)) <==> "room:" <= client
  {
    var k := ClientKey(client, inst);
    assert k[|client|] == '|';
    if room :| k == RoomKey(room) {
      assert k[..5] == "room:";
      assert forall i :: 0 <= i < 5 ==> k[i] == "room:"[i] && k[i] != '|';
      if |client| < 5 {
        assert false;
      }
      assert client[..5] == k[..5];
    }
    if "room:" <= client {
      assert k == RoomKey(k[5..]);
    }
  }

  // ---------- the two indexes ----------

  /** A live client set and the fields of its rooms agree on the deadline. */
  ghost predicate Mirrored(r: Redis, ck: string)
  {
    ClientLive(r, ck) ==> forall room :: room in r.clients[ck].rooms ==>
      FieldLive(r, room, ck) && FieldsOf(r, room)[ck].deadline == r.clients[ck].deadline
  }

  /** Ping ignores an error of its read and then goes on with no rooms.  It
      keeps the indexes in step exactly when there is no live set, or it read
      all the rooms, or the set was refreshed at this very instant. */
  lemma PingMirrors(r: Redis, ck: string, inst: string, rooms: set<string>)
    requires Mirrored(r, ck) && (ClientLive(r, ck) ==> r.clients[ck].deadline <= r.now + TTL)
    ensures Mirrored(PingExec(r, ck, inst, rooms), ck) <==>
              !ClientLive(r, ck) || r.clients[ck].rooms <= rooms || r.clients[ck].deadline == r.now + TTL
  {
    var after := PingExec(r, ck, inst, rooms);
    if ClientLive(r, ck) && !(r.clients[ck].rooms <= rooms) {
      var room :| room in r.clients[ck].rooms && room !in rooms;
      assert FieldLive(r, room, ck);
      assert FieldsOf(after, room) == FieldsOf(r, room);
    }
  }

  /** The failure is real: a refused read followed by a successful EXEC. */
  lemma PingAfterFailedRead() returns (r: Redis, ck: string)
    ensures Mirrored(r, ck) && ClientLive(r, ck) && !Mirrored(PingExec(r, ck, "i", {}), ck)
  {
    ck := ClientKey("c", "i");
    r := ConnectExec(Redis(0, map[], map[]), ck, "i", {"a"}).(now := 1);
    assert "a" in r.clients[ck].rooms;
    assert FieldLive(r, "a", ck);
    assert FieldsOf(PingExec(r, ck, "i", {}), "a")[ck].deadline == TTL;
  }
}
