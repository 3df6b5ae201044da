/** The event loop of one naive-scale hub: the three cases of its select, on
    the state that only this loop touches. */
module NaiveHubRun {
  import opened NaiveHub

  class Hub {
    const inst: Inst
    var rooms: map<string, set<ClientId>>
    var clients: map<ClientId, Client>
    /** The rooms whose channel the hub has asked Redis for and not given up. */
    var subscribed: set<string>
    var panicked: bool

    /** Subscriptions follow the rooms, and no room is empty. */
    ghost predicate Valid()
      reads this
    {
      && subscribed == rooms.Keys
      && (forall room :: room in rooms ==> rooms[room] != {} && rooms[room] <= clients.Keys)
    }

    constructor (inst: Inst)
      ensures Valid() && this.inst == inst && rooms == map[] && clients == map[] && !panicked
    {
      this.inst, rooms, clients, subscribed, panicked := inst, map[], map[], {}, false;
    }

    method RegisterCase(c: ClientId)
      requires Valid() && c in clients
      modifies this
      ensures Valid()
      ensures rooms == AddMember(old(rooms), old(clients)[c].room, c)
      ensures clients == old(clients)[c := old(clients)[c].(registered := true)] && panicked == old(panicked)
    {
      var room := clients[c].room;
      if room !in rooms {
        rooms := rooms[room := {}];
        subscribed := subscribed + {room};
      }
      rooms := rooms[room := rooms[room] + {c}];
      clients := clients[c := clients[c].(registered := true)];
    }

    method UnregisterCase(c: ClientId)
      requires Valid() && c in clients
      modifies this
      ensures Valid()
      ensures var x := old(clients)[c];
              if c in MembersOf(old(rooms), x.room) then
                && rooms == DropMember(old(rooms), x.room, c)
                && clients == old(clients)[c := x.(open := false)]
                && panicked == (old(panicked) || !x.open)
              else
                rooms == old(rooms) && clients == old(clients) && panicked == old(panicked)
    {
      var room := clients[c].room;
      if room in rooms && c in rooms[room] {
        var left := rooms[room] - {c};
        panicked := panicked || !clients[c].open;
        clients := clients[c := clients[c].(open := false)];
        if left == {} {
          rooms := rooms - {room};
          subscribed := subscribed - {room};
        } else {
          rooms := rooms[room := left];
        }
      }
    }

    /** Sends to every member, in any order. */
    method BroadcastCase(item: Item)
      requires Valid()
      modifies this
      ensures Valid() && rooms == old(rooms) && subscribed == old(subscribed)
      ensures clients == SendTo(old(clients), MembersOf(rooms, item.room), item)
      ensures panicked == (old(panicked) || SendPanics(old(clients), MembersOf(rooms, item.room)))
    {
      ghost var before := clients;
      var members := MembersOf(rooms, item.room);
      var todo := members;
      while todo != {}
        invariant todo <= members && members <= before.Keys
        invariant rooms == old(rooms) && subscribed == old(subscribed)
        invariant clients == SendTo(before, members - todo, item)
        invariant panicked == (old(panicked) || SendPanics(before, members - todo))
        decreases todo
      {
        var c :| c in todo;
        OneMoreSend(before, members - todo, c, item);
        if clients[c].open {
          clients := clients[c := clients[c].(queue := clients[c].queue + [item])];
        } else {
          panicked := true;
        }
        todo := todo - {c};
        assert members - todo == (members - (todo + {c})) + {c};
      }
      assert members - todo == members;
    }
  }

  lemma OneMoreSend(clients: map<ClientId, Client>, sent: set<ClientId>, c: ClientId, item: Item)
    requires c in clients && c !in sent
    ensures SendTo(clients, sent, item)[c] == clients[c]
    ensures SendTo(clients, sent + {c}, item) ==
              if clients[c].open then SendTo(clients, sent, item)[c := clients[c].(queue := clients[c].queue + [item])]
              else SendTo(clients, sent, item)
    ensures SendPanics(clients, sent + {c}) <==> SendPanics(clients, sent) || !clients[c].open
  {
  }
}
