/** The presence RPCs as the source writes them, with their loops. */
module PresenceService {
  import opened Presence

  /** What becomes of a transaction; commands are only queued before it. */
  datatype Exec = Done | Unanswered | Refused

  function AsSet(xs: seq<string>): set<string>
  {
    set x | x in xs
  }

  class ConnectionService {
    var rdb: Redis

    constructor (rdb: Redis)
      ensures this.rdb == rdb
    {
      this.rdb := rdb;
    }

    /** Queues HSET and HEXPIRE per room; a room named twice is written twice. */
    method SaveRoomFields(ck: string, inst: string, roomsId: seq<string>)
      modifies this
      ensures rdb == SaveRooms(old(rdb), ck, inst, AsSet(roomsId))
    {
      hide SaveRooms;
      ghost var before := rdb;
      NothingToSave(before, ck, inst);
      assert AsSet(roomsId[..0]) == {};
      for i := 0 to |roomsId|
        invariant rdb == SaveRooms(before, ck, inst, AsSet(roomsId[..i]))
      {
        assert roomsId[..i + 1] == roomsId[..i] + [roomsId[i]];
        SaveOneMore(before, ck, inst, AsSet(roomsId[..i]), roomsId[i]);
        assert AsSet(roomsId[..i + 1]) == AsSet(roomsId[..i]) + {roomsId[i]};
        rdb := rdb.(hashes := rdb.hashes[roomsId[i] := FieldsOf(rdb, roomsId[i])[ck := Field(inst, rdb.now + TTL)]]);
      }
      assert roomsId[..|roomsId|] == roomsId;
    }

    method Connect(client: string, inst: string, roomsId: seq<string>, exec: Exec) returns (ok: bool)
      modifies this
      ensures ok <==> exec.Done? && roomsId != []
      ensures rdb == if exec.Refused? then old(rdb) else ConnectExec(old(rdb), ClientKey(client, inst), inst, AsSet(roomsId))
    {
      if exec.Refused? || roomsId == [] {
        return false;
      }
      var ck := ClientKey(client, inst);
      assert roomsId[0] in AsSet(roomsId);
      SaveRoomFields(ck, inst, roomsId);
      rdb := rdb.(clients := rdb.clients[ck := ClientSet(AsSet(roomsId), rdb.now + TTL)]);
      ok := exec.Done?;
    }

    /** `between` is what other RPCs and the clock do between the read and the
        EXEC; a failed read counts as no rooms, and is not reported. */
    method Ping(client: string, inst: string, readOk: bool, exec: Exec, between: Redis -> Redis) returns (ok: bool)
      modifies this
      ensures ok <==> exec.Done?
      ensures rdb == if exec.Refused? then between(old(rdb))
                     else PingExec(between(old(rdb)), ClientKey(client, inst), inst,
                                   if readOk then Members(old(rdb), ClientKey(client, inst)) else {})
    {
      var ck := ClientKey(client, inst);
      var rooms := if readOk then Members(rdb, ck) else {};
      var list := Listing(rooms);
      rdb := between(rdb);
      if exec.Refused? {
        return false;
      }
      ok := exec.Done?;
      var live := ClientLive(rdb, ck);
      SaveRoomFields(ck, inst, list);
      if live {
        rdb := rdb.(clients := rdb.clients[ck := rdb.clients[ck].(deadline := rdb.now + TTL)]);
      }
    }

    method Disconnect(client: string, inst: string, readOk: bool, exec: Exec, between: Redis -> Redis) returns (ok: bool)
      modifies this
      ensures var ck := ClientKey(client, inst);
              && (ok <==> readOk && (Members(old(rdb), ck) == {} || exec.Done?))
              && rdb == if !readOk || Members(old(rdb), ck) == {} then old(rdb)
                        else if exec.Refused? then between(old(rdb))
                        else DisconnectExec(between(old(rdb)), ck, Members(old(rdb), ck))
    {
      if !readOk {
        return false;
      }
      var ck := ClientKey(client, inst);
      var rooms := Members(rdb, ck);
      if rooms == {} {
        return true;
      }
      rdb := between(rdb);
      if exec.Refused? {
        return false;
      }
      ok := exec.Done?;
      ghost var before := rdb;
      rdb := rdb.(clients := rdb.clients - {ck});
      var todo := rooms;
      while todo != {}
        invariant todo <= rooms && rdb.now == before.now && rdb.clients == before.clients - {ck}
        invariant rdb.hashes.Keys == before.hashes.Keys
        invariant forall room :: room in before.hashes ==>
                    rdb.hashes[room] == if room in rooms - todo then before.hashes[room] - {ck} else before.hashes[room]
        decreases todo
      {
        var room :| room in todo;
        if room in rdb.hashes {
          rdb := rdb.(hashes := rdb.hashes[room := rdb.hashes[room] - {ck}]);
        }
        todo := todo - {room};
      }
      assert rdb.hashes == DisconnectExec(before, ck, rooms).hashes;
    }

    /** The instances with a live field, each once. */
    method IsConnected(room: string, readOk: bool) returns (ok: bool, names: seq<string>)
      ensures ok <==> readOk
      ensures forall i, j :: 0 <= i < j < |names| ==> names[i] != names[j]
      ensures ok ==> forall inst :: inst in names <==> inst in LiveInstances(rdb, room)
    {
      if !readOk {
        return false, [];
      }
      ok := true;
      var fields := FieldsOf(rdb, room);
      var live := set ck | ck in fields && FieldLive(rdb, room, ck);
      var seen: set<string> := {};
      names := [];
      var todo := live;
      while todo != {}
        invariant todo <= live
        invariant forall inst :: inst in seen <==> inst in names
        invariant forall i, j :: 0 <= i < j < |names| ==> names[i] != names[j]
        invariant forall ck :: ck in live && ck !in todo ==> fields[ck].inst in seen
        invariant forall inst :: inst in seen ==> inst in LiveInstances(rdb, room)
        decreases todo
      {
        var ck :| ck in todo;
        todo := todo - {ck};
        var inst := fields[ck].inst;
        assert inst in LiveInstances(rdb, room);
        if inst !in seen {
          seen := seen + {inst};
          names := names + [inst];
        }
      }
    }
  }

  lemma NothingToSave(r: Redis, ck: string, inst: string)
    ensures SaveRooms(r, ck, inst, {}) == r
  {
    assert SaveRooms(r, ck, inst, {}).hashes == r.hashes;
  }

  lemma SaveOneMore(r: Redis, ck: string, inst: string, rooms: set<string>, room: string)
    ensures SaveRooms(r, ck, inst, rooms).now == r.now
    ensures var saved := SaveRooms(r, ck, inst, rooms);
            SaveRooms(r, ck, inst, rooms + {room})
            == saved.(hashes := saved.hashes[room := FieldsOf(saved, room)[ck := Field(inst, r.now + TTL)]])
  {
    var saved := SaveRooms(r, ck, inst, rooms);
    var field := Field(inst, r.now + TTL);
    assert FieldsOf(r, room)[ck := field][ck := field] == FieldsOf(r, room)[ck := field];
    assert FieldsOf(saved, room) == if room in rooms then FieldsOf(r, room)[ck := field] else FieldsOf(r, room);
    assert SaveRooms(r, ck, inst, rooms + {room}).hashes
           == saved.hashes[room := FieldsOf(saved, room)[ck := Field(inst, r.now + TTL)]];
  }

  /** Some order of the members of a set, as SMEMBERS returns it. */
  method Listing(xs: set<string>) returns (list: seq<string>)
    ensures AsSet(list) == xs
  {
    list := [];
    var todo := xs;
    while todo != {}
      invariant todo <= xs && AsSet(list) == xs - todo
      decreases todo
    {
      var x :| x in todo;
      assert AsSet(list + [x]) == AsSet(list) + {x};
      list := list + [x];
      todo := todo - {x};
    }
  }
}
