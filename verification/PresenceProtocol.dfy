/** Presence RPCs interleaved in any way, with a clock. */
module PresenceProtocol {
  import opened Presence

  type RpcId = nat

  /** A Ping or Disconnect between its read and its EXEC. */
  datatype Rpc =
    | Pinging(ck: string, inst: string, rooms: set<string>)
    | Leaving(ck: string, rooms: set<string>)

  /** `last` remembers when a Connect or Ping of a key last executed. */
  datatype State = State(r: Redis, last: map<string, int>, pending: map<RpcId, Rpc>)

  datatype Step =
    | Tick(dt: nat)
    | Connect(ck: string, inst: string, rooms: set<string>)
    | StartPing(id: RpcId, ck: string, inst: string, readOk: bool)
    | FinishPing(id: RpcId)
    | StartLeave(id: RpcId, ck: string)
    | FinishLeave(id: RpcId)
    | Abandon(id: RpcId)

  predicate Enabled(s: State, step: Step)
  {
    match step
    case Tick(_) => true
    case Connect(_, _, rooms) => rooms != {}
    case StartPing(id, _, _, _) => id !in s.pending
    case FinishPing(id) => id in s.pending && s.pending[id].Pinging?
    case StartLeave(id, _) => id !in s.pending
    case FinishLeave(id) => id in s.pending && s.pending[id].Leaving?
    case Abandon(id) => id in s.pending
  }

  function Apply(s: State, step: Step): State
    requires Enabled(s, step)
  {
    match step
    case Tick(dt) => s.(r := s.r.(now := s.r.now + dt))
    case Connect(ck, inst, rooms) => s.(r := ConnectExec(s.r, ck, inst, rooms), last := s.last[ck := s.r.now])
    case StartPing(id, ck, inst, readOk) =>
      s.(pending := s.pending[id := Pinging(ck, inst, if readOk then Members(s.r, ck) else {})])
    case FinishPing(id) =>
      var p := s.pending[id];
      State(PingExec(s.r, p.ck, p.inst, p.rooms), s.last[p.ck := s.r.now], s.pending - {id})
    case StartLeave(id, ck) => s.(pending := s.pending[id := Leaving(ck, Members(s.r, ck))])
    case FinishLeave(id) =>
      var p := s.pending[id];
      s.(r := DisconnectExec(s.r, p.ck, p.rooms), pending := s.pending - {id})
    case Abandon(id) => s.(pending := s.pending - {id})
  }

  predicate Init(s: State)
  {
    s.r.clients == map[] && s.r.hashes == map[] && s.last == map[] && s.pending == map[]
  }

  predicate Legal(s: State, steps: seq<Step>)
    decreases |steps|
  {
    steps == [] || (Enabled(s, steps[0]) && Legal(Apply(s, steps[0]), steps[1..]))
  }

  function After(s: State, steps: seq<Step>): State
    requires Legal(s, steps)
    decreases |steps|
  {
    if steps == [] then s else After(Apply(s, steps[0]), steps[1..])
  }

  // ---------- any interleaving: silence ends presence ----------

  /** Deadlines of one key are bounded by t + TTL in the state r. */
  ghost predicate KeyBounded(r: Redis, ck: string, t: int)
  {
    && (ck in r.clients ==> r.clients[ck].deadline <= t + TTL)
    && (forall room :: room in r.hashes && ck in r.hashes[room] ==> r.hashes[room][ck].deadline <= t + TTL)
  }

  ghost predicate KeyAbsent(r: Redis, ck: string)
  {
    ck !in r.clients && forall room :: room in r.hashes ==> ck !in r.hashes[room]
  }

  /** No deadline reaches beyond TTL after the key's last Connect or Ping. */
  ghost predicate KeyOk(s: State, ck: string)
  {
    if ck in s.last then s.last[ck] <= s.r.now && KeyBounded(s.r, ck, s.last[ck]) else KeyAbsent(s.r, ck)
  }

  ghost predicate Bounded(s: State)
  {
    forall ck :: KeyOk(s, ck)
  }

  lemma SaveBounded(r: Redis, ck: string, inst: string, rooms: set<string>, o: string, t: int)
    ensures SaveRooms(r, ck, inst, rooms).clients == r.clients && SaveRooms(r, ck, inst, rooms).now == r.now
    ensures o != ck && KeyBounded(r, o, t) ==> KeyBounded(SaveRooms(r, ck, inst, rooms), o, t)
    ensures o != ck && KeyAbsent(r, o) ==> KeyAbsent(SaveRooms(r, ck, inst, rooms), o)
    ensures t <= r.now && KeyBounded(r, ck, t) ==> KeyBounded(SaveRooms(r, ck, inst, rooms), ck, r.now)
    ensures KeyAbsent(r, ck) ==> KeyBounded(SaveRooms(r, ck, inst, rooms), ck, r.now)
  {
    var r' := SaveRooms(r, ck, inst, rooms);
    assert r'.clients == r.clients;
  }

  lemma LeaveBounded(r: Redis, ck: string, rooms: set<string>, o: string, t: int)
    ensures DisconnectExec(r, ck, rooms).now == r.now
    ensures KeyBounded(r, o, t) ==> KeyBounded(DisconnectExec(r, ck, rooms), o, t)
    ensures KeyAbsent(r, o) ==> KeyAbsent(DisconnectExec(r, ck, rooms), o)
  {
  }

  lemma ExecBounded(s: State, s': State, ck: string, inst: string, rooms: set<string>)
    requires Bounded(s) && s'.last == s.last[ck := s.r.now]
    requires s'.r == PingExec(s.r, ck, inst, rooms) || (rooms != {} && s'.r == ConnectExec(s.r, ck, inst, rooms))
    ensures Bounded(s')
  {
    hide SaveRooms;
    var saved := SaveRooms(s.r, ck, inst, rooms);
    forall o ensures KeyOk(s', o) {
      assert KeyOk(s, o) && KeyOk(s, ck);
      var t := if o in s.last then s.last[o] else 0;
      SaveBounded(s.r, ck, inst, rooms, o, t);
      assert s'.r.hashes == saved.hashes && s'.r.now == s.r.now;
    }
  }

  lemma StepBounded(s: State, step: Step)
    requires Bounded(s) && Enabled(s, step)
    ensures Bounded(Apply(s, step))
  {
    hide ConnectExec, PingExec, DisconnectExec;
    var s' := Apply(s, step);
    match step {
      case Connect(ck, inst, rooms) => ExecBounded(s, s', ck, inst, rooms);
      case FinishPing(id) =>
        var p := s.pending[id];
        ExecBounded(s, s', p.ck, p.inst, p.rooms);
      case FinishLeave(id) =>
        var p := s.pending[id];
        forall o ensures KeyOk(s', o) {
          assert KeyOk(s, o);
          LeaveBounded(s.r, p.ck, p.rooms, o, if o in s.last then s.last[o] else 0);
        }
      case _ =>
        forall o ensures KeyOk(s', o) {
          assert KeyOk(s, o);
        }
    }
  }

  lemma {:induction false} RunBounded(s: State, steps: seq<Step>)
    requires Bounded(s) && Legal(s, steps)
    ensures Bounded(After(s, steps))
    decreases |steps|
  {
    if steps != [] {
      StepBounded(s, steps[0]);
      RunBounded(Apply(s, steps[0]), steps[1..]);
    }
  }

  /** Whatever RPCs overlapped, failed or were abandoned: TTL after the last
      Connect or Ping of a key its fields are gone, and a room lists only
      instances with a key refreshed within TTL. */
  lemma SilenceEndsPresence(s: State, steps: seq<Step>, room: string)
    requires Init(s) && Legal(s, steps)
    ensures var e := After(s, steps);
            && (forall ck :: FieldLive(e.r, room, ck) ==> ck in e.last && e.r.now < e.last[ck] + TTL)
            && (forall inst :: inst in LiveInstances(e.r, room) ==>
                  exists ck :: ck in e.last && e.r.now < e.last[ck] + TTL
                    && ck in FieldsOf(e.r, room) && FieldsOf(e.r, room)[ck].inst == inst)
  {
    forall ck ensures KeyOk(s, ck) {
    }
    RunBounded(s, steps);
    var e := After(s, steps);
    forall ck | FieldLive(e.r, room, ck)
      ensures ck in e.last && e.r.now < e.last[ck] + TTL
    {
      assert KeyOk(e, ck);
    }
  }

  // ---------- RPCs of one key in turn: the indexes agree ----------

  predicate KeyFree(s: State, ck: string)
  {
    forall id :: id in s.pending ==> s.pending[id].ck != ck
  }

  /** The RPCs of one key do not overlap, and Ping's read does not fail. */
  predicate Orderly(s: State, step: Step)
  {
    match step
    case Connect(ck, _, _) => KeyFree(s, ck)
    case StartPing(_, ck, _, readOk) => KeyFree(s, ck) && readOk
    case StartLeave(_, ck) => KeyFree(s, ck)
    case _ => true
  }

  ghost predicate AllOrderly(s: State, steps: seq<Step>)
    requires Legal(s, steps)
    decreases |steps|
  {
    steps == [] || (Orderly(s, steps[0]) && AllOrderly(Apply(s, steps[0]), steps[1..]))
  }

  /** What a pending RPC read still stands if the set is still live. */
  ghost predicate ReadStands(r: Redis, p: Rpc)
  {
    ClientLive(r, p.ck) ==> r.clients[p.ck].rooms == p.rooms
  }

  ghost predicate Tidy(s: State)
  {
    && (forall ck :: Mirrored(s.r, ck))
    && (forall id :: id in s.pending ==> ReadStands(s.r, s.pending[id]))
    && (forall a, b :: a in s.pending && b in s.pending && a != b ==> s.pending[a].ck != s.pending[b].ck)
  }

  /** An EXEC for one key leaves the other keys' entries alone. */
  ghost predicate OthersSame(r: Redis, r': Redis, ck: string)
  {
    && r'.now == r.now
    && (forall o :: o != ck ==> (o in r'.clients <==> o in r.clients))
    && (forall o :: o != ck && o in r.clients ==> r'.clients[o] == r.clients[o])
    && (forall room, o :: o != ck ==> (o in FieldsOf(r', room) <==> o in FieldsOf(r, room)))
    && (forall room, o :: o != ck && o in FieldsOf(r, room) ==> FieldsOf(r', room)[o] == FieldsOf(r, room)[o])
  }

  lemma OthersMirrored(r: Redis, r': Redis, ck: string, o: string)
    requires OthersSame(r, r', ck) && o != ck && Mirrored(r, o)
    ensures Mirrored(r', o)
  {
    if ClientLive(r', o) {
      forall room | room in r'.clients[o].rooms
        ensures FieldLive(r', room, o) && FieldsOf(r', room)[o].deadline == r'.clients[o].deadline
      {
        assert FieldLive(r, room, o);
      }
    }
  }

  lemma SaveTouchesOneKey(r: Redis, ck: string, inst: string, rooms: set<string>)
    ensures OthersSame(r, SaveRooms(r, ck, inst, rooms), ck)
  {
  }

  lemma ExecTouchesOneKey(r: Redis, ck: string, inst: string, rooms: set<string>)
    ensures OthersSame(r, ConnectExec(r, ck, inst, rooms), ck)
    ensures OthersSame(r, PingExec(r, ck, inst, rooms), ck)
  {
    SaveTouchesOneKey(r, ck, inst, rooms);
    hide SaveRooms;
    var saved := SaveRooms(r, ck, inst, rooms);
    forall room ensures FieldsOf(ConnectExec(r, ck, inst, rooms), room) == FieldsOf(if rooms == {} then r else saved, room) {
    }
    forall room ensures FieldsOf(PingExec(r, ck, inst, rooms), room) == FieldsOf(saved, room) {
    }
  }

  lemma LeaveTouchesOneKey(r: Redis, ck: string, rooms: set<string>)
    ensures OthersSame(r, DisconnectExec(r, ck, rooms), ck)
  {
  }

  /** After an EXEC for a key with no other RPC pending. */
  lemma ExecTidy(s: State, s': State, ck: string)
    requires Tidy(s) && OthersSame(s.r, s'.r, ck) && Mirrored(s'.r, ck)
    requires s'.pending.Keys <= s.pending.Keys && forall id :: id in s'.pending ==> s'.pending[id] == s.pending[id]
    requires KeyFree(s', ck)
    ensures Tidy(s')
  {
    forall o ensures Mirrored(s'.r, o) {
      if o != ck {
        OthersMirrored(s.r, s'.r, ck, o);
      }
    }
    forall id | id in s'.pending
      ensures ReadStands(s'.r, s'.pending[id])
    {
      assert ReadStands(s.r, s.pending[id]);
    }
  }

  lemma TickTidy(s: State, dt: nat)
    requires Tidy(s)
    ensures Tidy(Apply(s, Tick(dt)))
  {
    var s' := Apply(s, Tick(dt));
    forall ck ensures Mirrored(s'.r, ck) {
      assert Mirrored(s.r, ck);
      if ClientLive(s'.r, ck) {
        forall room | room in s'.r.clients[ck].rooms
          ensures FieldLive(s'.r, room, ck) && FieldsOf(s'.r, room)[ck].deadline == s'.r.clients[ck].deadline
        {
          assert FieldLive(s.r, room, ck);
        }
      }
    }
    forall id | id in s'.pending
      ensures ReadStands(s'.r, s'.pending[id])
    {
      assert ReadStands(s.r, s.pending[id]);
    }
  }

  lemma StartTidy(s: State, id: RpcId, p: Rpc)
    requires Tidy(s) && id !in s.pending && KeyFree(s, p.ck) && p.rooms == Members(s.r, p.ck)
    ensures Tidy(s.(pending := s.pending[id := p]))
  {
    forall o | o in s.pending
      ensures ReadStands(s.r, s.pending[o])
    {
    }
  }

  lemma AbandonTidy(s: State, id: RpcId)
    requires Tidy(s)
    ensures Tidy(s.(pending := s.pending - {id}))
  {
  }

  lemma StepTidy(s: State, step: Step)
    requires Tidy(s) && Bounded(s) && Enabled(s, step) && Orderly(s, step)
    ensures Tidy(Apply(s, step))
  {
    hide Tidy, Mirrored, ReadStands, OthersSame, ConnectExec, PingExec, DisconnectExec;
    var s' := Apply(s, step);
    match step {
      case Tick(dt) => TickTidy(s, dt);
      case Connect(ck, inst, rooms) =>
        ExecTouchesOneKey(s.r, ck, inst, rooms);
        ConnectMirrors(s.r, ck, inst, rooms);
        ExecTidy(s, s', ck);
      case StartPing(id, ck, inst, _) => StartTidy(s, id, s'.pending[id]);
      case StartLeave(id, ck) => StartTidy(s, id, s'.pending[id]);
      case FinishPing(id) => FinishTidy(s, id);
      case FinishLeave(id) => FinishTidy(s, id);
      case Abandon(id) => AbandonTidy(s, id);
    }
  }

  lemma ConnectMirrors(r: Redis, ck: string, inst: string, rooms: set<string>)
    requires rooms != {}
    ensures Mirrored(ConnectExec(r, ck, inst, rooms), ck)
  {
  }

  lemma LeaveMirrors(r: Redis, ck: string, rooms: set<string>)
    requires Mirrored(r, ck)
    ensures Mirrored(DisconnectExec(r, ck, rooms), ck)
  {
  }

  lemma FinishTidy(s: State, id: RpcId)
    requires Tidy(s) && Bounded(s) && id in s.pending
    ensures s.pending[id].Pinging? ==> Tidy(Apply(s, FinishPing(id)))
    ensures s.pending[id].Leaving? ==> Tidy(Apply(s, FinishLeave(id)))
  {
    hide OthersSame, ConnectExec, PingExec, DisconnectExec;
    var p := s.pending[id];
    assert ReadStands(s.r, p) && Mirrored(s.r, p.ck) && KeyOk(s, p.ck);
    if p.Pinging? {
      ExecTouchesOneKey(s.r, p.ck, p.inst, p.rooms);
      PingMirrors(s.r, p.ck, p.inst, p.rooms);
      ExecTidy(s, Apply(s, FinishPing(id)), p.ck);
    } else {
      LeaveTouchesOneKey(s.r, p.ck, p.rooms);
      LeaveMirrors(s.r, p.ck, p.rooms);
      ExecTidy(s, Apply(s, FinishLeave(id)), p.ck);
    }
  }

  lemma {:induction false} OrderlyRun(s: State, steps: seq<Step>)
    requires Tidy(s) && Bounded(s) && Legal(s, steps) && AllOrderly(s, steps)
    ensures Tidy(After(s, steps))
    decreases |steps|
  {
    if steps != [] {
      StepTidy(s, steps[0]);
      StepBounded(s, steps[0]);
      OrderlyRun(Apply(s, steps[0]), steps[1..]);
    }
  }

  /** When the RPCs of each key come one after the other and no read fails, a
      live client set and its rooms' fields agree at every moment. */
  lemma OrderlyIndexesAgree(s: State, steps: seq<Step>, ck: string, room: string)
    requires Init(s) && Legal(s, steps) && AllOrderly(s, steps)
    requires ClientLive(After(s, steps).r, ck) && room in After(s, steps).r.clients[ck].rooms
    ensures var r := After(s, steps).r;
            FieldLive(r, room, ck) && FieldsOf(r, room)[ck].deadline == r.clients[ck].deadline
  {
    forall o ensures KeyOk(s, o) && Mirrored(s.r, o) {
    }
    OrderlyRun(s, steps);
    assert Mirrored(After(s, steps).r, ck);
  }

  lemma Prepend(s: State, s': State, step: Step, steps: seq<Step>)
    requires Enabled(s, step) && s' == Apply(s, step) && Legal(s', steps)
    ensures Legal(s, [step] + steps) && After(s, [step] + steps) == After(s', steps)
    ensures AllOrderly(s, [step] + steps) <==> Orderly(s, step) && AllOrderly(s', steps)
  {
    assert ([step] + steps)[0] == step && ([step] + steps)[1..] == steps;
  }

  /** Without that, they need not: a Ping that read before a second Connect and
      executes after it prolongs the set but not the field of the new room. */
  lemma OverlapBreaksAgreement() returns (s: State, steps: seq<Step>, ck: string)
    ensures Init(s) && Legal(s, steps)
    ensures ClientLive(After(s, steps).r, ck) && "b" in After(s, steps).r.clients[ck].rooms
    ensures FieldLive(After(s, steps).r, "b", ck)
            && FieldsOf(After(s, steps).r, "b")[ck].deadline < After(s, steps).r.clients[ck].deadline
  {
    ck := "c|i";
    s := State(Redis(0, map[], map[]), map[], map[]);
    var s1 := Apply(s, Connect(ck, "i", {"a"}));
    var s2 := Apply(s1, StartPing(0, ck, "i", true));
    var s3 := Apply(s2, Connect(ck, "i", {"a", "b"}));
    var s4 := Apply(s3, Tick(1));
    var s5 := Apply(s4, FinishPing(0));
    assert Members(s1.r, ck) == {"a"} && s4.pending[0] == Pinging(ck, "i", {"a"});
    assert FieldsOf(s3.r, "b")[ck] == Field("i", TTL) && FieldsOf(s5.r, "b") == FieldsOf(s3.r, "b");
    assert s5.r.clients[ck] == ClientSet({"a", "b"}, 1 + TTL);
    hide Apply, ConnectExec, PingExec, DisconnectExec, SaveRooms, FieldsOf, Members;
    Prepend(s4, s5, FinishPing(0), []);
    Prepend(s3, s4, Tick(1), [FinishPing(0)]);
    steps := [Tick(1)] + [FinishPing(0)];
    Prepend(s2, s3, Connect(ck, "i", {"a", "b"}), steps);
    steps := [Connect(ck, "i", {"a", "b"})] + steps;
    Prepend(s1, s2, StartPing(0, ck, "i", true), steps);
    steps := [StartPing(0, ck, "i", true)] + steps;
    Prepend(s, s1, Connect(ck, "i", {"a"}), steps);
    steps := [Connect(ck, "i", {"a"})] + steps;
  }
}
