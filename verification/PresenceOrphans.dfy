/** The other direction of the presence indexes: a live field that no live
    client set accounts for is an orphan.  Its room goes on listing the
    instance, and no Disconnect will take it out. */
module PresenceOrphans {
  import opened Presence
  import opened PresenceProtocol

  /** Every live field of the key belongs to its live set. */
  ghost predicate Covered(r: Redis, ck: string)
  {
    forall room :: FieldLive(r, room, ck) ==> ClientLive(r, ck) && room in r.clients[ck].rooms
  }

  // ---------- what each EXEC leaves ----------

  /** A Disconnect takes all live fields of its key out if and only if it read
      every room that has one. */
  lemma LeaveClears(r: Redis, ck: string, rooms: set<string>)
    ensures (forall room :: !FieldLive(DisconnectExec(r, ck, rooms), room, ck)) <==>
              forall room :: FieldLive(r, room, ck) ==> room in rooms
  {
    var r' := DisconnectExec(r, ck, rooms);
    forall room
      ensures FieldLive(r', room, ck) <==> FieldLive(r, room, ck) && room !in rooms
    {
    }
  }

  /** A Connect leaves orphans exactly when it drops a room with a live field,
      since it deletes the set but no fields. */
  lemma ConnectCovers(r: Redis, ck: string, inst: string, rooms: set<string>)
    requires rooms != {}
    ensures Covered(ConnectExec(r, ck, inst, rooms), ck) <==> forall room :: FieldLive(r, room, ck) ==> room in rooms
  {
    var r' := ConnectExec(r, ck, inst, rooms);
    forall room
      ensures FieldLive(r', room, ck) <==> room in rooms || FieldLive(r, room, ck)
    {
    }
  }

  /** A Ping leaves orphans exactly when it writes rooms its set, by then, does
      not hold, be it that the set expired after the read. */
  lemma PingCovers(r: Redis, ck: string, inst: string, rooms: set<string>)
    requires Covered(r, ck)
    ensures Covered(PingExec(r, ck, inst, rooms), ck) <==>
              if ClientLive(r, ck) then rooms <= r.clients[ck].rooms else rooms == {}
  {
    var r' := PingExec(r, ck, inst, rooms);
    forall room
      ensures FieldLive(r', room, ck) <==> room in rooms || FieldLive(r, room, ck)
    {
    }
    assert ClientLive(r', ck) <==> ClientLive(r, ck);
    if Covered(r', ck) {
      forall room | room in rooms
        ensures ClientLive(r, ck) && room in r.clients[ck].rooms
      {
        assert FieldLive(r', room, ck);
      }
    }
  }

  lemma OthersCovered(r: Redis, r': Redis, ck: string, o: string)
    requires OthersSame(r, r', ck) && o != ck
    ensures Covered(r', o) <==> Covered(r, o)
  {
    forall room ensures FieldLive(r', room, o) <==> FieldLive(r, room, o) {
    }
  }

  // ---------- runs ----------

  ghost predicate AllCovered(r: Redis)
  {
    forall ck :: Covered(r, ck)
  }

  /** A Connect names every room its key is still listed in, and a Ping finds
      its set still live, unless it read no rooms. */
  ghost predicate Keeping(s: State, step: Step)
    requires Enabled(s, step)
  {
    match step
    case Connect(ck, _, rooms) => forall room :: FieldLive(s.r, room, ck) ==> room in rooms
    case FinishPing(id) => ClientLive(s.r, s.pending[id].ck) || s.pending[id].rooms == {}
    case _ => true
  }

  ghost predicate AllKeeping(s: State, steps: seq<Step>)
    requires Legal(s, steps)
    decreases |steps|
  {
    steps == [] || (Keeping(s, steps[0]) && AllKeeping(Apply(s, steps[0]), steps[1..]))
  }

  ghost predicate AlwaysCovered(s: State, steps: seq<Step>)
    requires Legal(s, steps)
    decreases |steps|
  {
    AllCovered(s.r) && (steps == [] || AlwaysCovered(Apply(s, steps[0]), steps[1..]))
  }

  lemma ExecCovered(r: Redis, r': Redis, ck: string)
    requires AllCovered(r) && OthersSame(r, r', ck)
    ensures AllCovered(r') <==> Covered(r', ck)
  {
    hide Covered, OthersSame;
    forall o | o != ck ensures Covered(r', o) {
      assert Covered(r, o);
      OthersCovered(r, r', ck, o);
    }
  }

  /** A set and its fields expire together. */
  lemma TickCovered(s: State, dt: nat)
    requires Tidy(s) && AllCovered(s.r)
    ensures AllCovered(Apply(s, Tick(dt)).r)
  {
    var r' := Apply(s, Tick(dt)).r;
    forall ck, room | FieldLive(r', room, ck)
      ensures ClientLive(r', ck) && room in r'.clients[ck].rooms
    {
      assert FieldLive(s.r, room, ck) && Covered(s.r, ck) && Mirrored(s.r, ck);
    }
    forall ck ensures Covered(r', ck) {
    }
  }

  lemma FinishLeaveCovered(s: State, id: RpcId)
    requires Tidy(s) && AllCovered(s.r) && id in s.pending && s.pending[id].Leaving?
    ensures AllCovered(Apply(s, FinishLeave(id)).r)
  {
    var p := s.pending[id];
    var r' := DisconnectExec(s.r, p.ck, p.rooms);
    assert ReadStands(s.r, p) && Covered(s.r, p.ck);
    LeaveClears(s.r, p.ck, p.rooms);
    LeaveTouchesOneKey(s.r, p.ck, p.rooms);
    hide DisconnectExec, OthersSame;
    ExecCovered(s.r, r', p.ck);
  }

  lemma FinishPingCovered(s: State, id: RpcId)
    requires Tidy(s) && AllCovered(s.r) && id in s.pending && s.pending[id].Pinging?
    ensures AllCovered(Apply(s, FinishPing(id)).r) <==> Keeping(s, FinishPing(id))
  {
    var p := s.pending[id];
    assert ReadStands(s.r, p) && Covered(s.r, p.ck);
    PingCovers(s.r, p.ck, p.inst, p.rooms);
    ExecTouchesOneKey(s.r, p.ck, p.inst, p.rooms);
    hide PingExec, OthersSame, Covered;
    ExecCovered(s.r, PingExec(s.r, p.ck, p.inst, p.rooms), p.ck);
  }

  lemma StepCovered(s: State, step: Step)
    requires Tidy(s) && AllCovered(s.r) && Enabled(s, step)
    ensures AllCovered(Apply(s, step).r) <==> Keeping(s, step)
  {
    hide Tidy, AllCovered, OthersSame, ConnectExec, PingExec, DisconnectExec;
    match step {
      case Tick(dt) => TickCovered(s, dt);
      case Connect(ck, inst, rooms) =>
        ConnectCovers(s.r, ck, inst, rooms);
        ExecTouchesOneKey(s.r, ck, inst, rooms);
        ExecCovered(s.r, ConnectExec(s.r, ck, inst, rooms), ck);
      case FinishPing(id) => FinishPingCovered(s, id);
      case FinishLeave(id) => FinishLeaveCovered(s, id);
      case _ =>
    }
  }

  lemma {:induction false} CoveredRun(s: State, steps: seq<Step>)
    requires Tidy(s) && Bounded(s) && AllCovered(s.r) && Legal(s, steps) && AllOrderly(s, steps)
    ensures AlwaysCovered(s, steps) <==> AllKeeping(s, steps)
    ensures AllKeeping(s, steps) ==> AllCovered(After(s, steps).r)
    decreases |steps|
  {
    hide Tidy, Bounded, AllCovered, Keeping, Orderly, Apply, Enabled;
    if steps != [] {
      var s' := Apply(s, steps[0]);
      StepCovered(s, steps[0]);
      StepTidy(s, steps[0]);
      StepBounded(s, steps[0]);
      if Keeping(s, steps[0]) {
        CoveredRun(s', steps[1..]);
      } else {
        assert !AllCovered(s'.r);
      }
    }
  }

  lemma Nothing(s: State)
    requires Init(s)
    ensures Tidy(s) && Bounded(s) && AllCovered(s.r)
  {
    forall ck ensures KeyOk(s, ck) && Mirrored(s.r, ck) && Covered(s.r, ck) {
    }
  }

  /** When the RPCs of each key come one after the other and no read fails, no
      orphan ever arises if and only if no Connect drops a listed room and no
      Ping executes after its set expired; and then the two indexes are one
      relation, with one deadline, at every moment. */
  lemma IndexesAreOne(s: State, steps: seq<Step>)
    requires Init(s) && Legal(s, steps) && AllOrderly(s, steps)
    ensures AlwaysCovered(s, steps) <==> AllKeeping(s, steps)
    ensures AllKeeping(s, steps) ==> forall ck, room ::
              FieldLive(After(s, steps).r, room, ck) <==> Listed(After(s, steps).r, room, ck)
  {
    Nothing(s);
    CoveredRun(s, steps);
    OrderlyRun(s, steps);
    hide Legal, After, AllOrderly, AllKeeping, AlwaysCovered;
    var r := After(s, steps).r;
    if AllKeeping(s, steps) {
      forall ck, room
        ensures FieldLive(r, room, ck) <==> Listed(r, room, ck)
      {
        assert Covered(r, ck) && Mirrored(r, ck);
      }
    }
  }

  /** The live set of the key holds the room, and they share the deadline. */
  predicate Listed(r: Redis, room: string, ck: string)
  {
    && ClientLive(r, ck) && room in r.clients[ck].rooms
    && ck in FieldsOf(r, room) && FieldsOf(r, room)[ck].deadline == r.clients[ck].deadline
  }

  // ---------- both kinds of orphan ----------

  /** Overlap: a Ping that read before a Disconnect and executes after it. */
  lemma OverlapLeavesOrphan() returns (s: State, steps: seq<Step>, ck: string)
    ensures Init(s) && Legal(s, steps) && !AllOrderly(s, steps)
    ensures FieldLive(After(s, steps).r, "a", ck) && !ClientLive(After(s, steps).r, ck)
  {
    ck := "c|i";
    s := State(Redis(0, map[], map[]), map[], map[]);
    var s1 := Apply(s, Connect(ck, "i", {"a"}));
    var s2 := Apply(s1, StartPing(0, ck, "i", true));
    var s3 := Apply(s2, StartLeave(1, ck));
    var s4 := Apply(s3, FinishLeave(1));
    var s5 := Apply(s4, FinishPing(0));
    assert Members(s1.r, ck) == {"a"};
    assert s2.pending[0].ck == ck && s4.pending[0] == Pinging(ck, "i", {"a"});
    assert ck !in s5.r.clients;
    assert "a" in s5.r.hashes && ck in s5.r.hashes["a"];
    assert FieldLive(s5.r, "a", ck) && !ClientLive(s5.r, ck);
    hide Apply, ConnectExec, PingExec, DisconnectExec, SaveRooms, FieldsOf, Members;
    Prepend(s4, s5, FinishPing(0), []);
    Prepend(s3, s4, FinishLeave(1), [FinishPing(0)]);
    steps := [FinishLeave(1)] + [FinishPing(0)];
    Prepend(s2, s3, StartLeave(1, ck), steps);
    steps := [StartLeave(1, ck)] + steps;
    Prepend(s1, s2, StartPing(0, ck, "i", true), steps);
    steps := [StartPing(0, ck, "i", true)] + steps;
    Prepend(s, s1, Connect(ck, "i", {"a"}), steps);
    steps := [Connect(ck, "i", {"a"})] + steps;
  }

  /** No overlap: a Connect that drops a room, then a Disconnect. */
  lemma ReconnectLeavesOrphan() returns (s: State, steps: seq<Step>, ck: string)
    ensures Init(s) && Legal(s, steps) && AllOrderly(s, steps)
    ensures FieldLive(After(s, steps).r, "a", ck) && !ClientLive(After(s, steps).r, ck)
  {
    ck := "c|i";
    s := State(Redis(0, map[], map[]), map[], map[]);
    var s1 := Apply(s, Connect(ck, "i", {"a", "b"}));
    var s2 := Apply(s1, Connect(ck, "i", {"b"}));
    var s3 := Apply(s2, StartLeave(1, ck));
    var s4 := Apply(s3, FinishLeave(1));
    assert Members(s2.r, ck) == {"b"};
    assert FieldsOf(s1.r, "a")[ck] == Field("i", TTL) && FieldsOf(s4.r, "a") == FieldsOf(s1.r, "a");
    assert ck !in s4.r.clients;
    assert FieldLive(s4.r, "a", ck) && !ClientLive(s4.r, ck);
    hide Apply, ConnectExec, PingExec, DisconnectExec, SaveRooms, FieldsOf, Members;
    Prepend(s3, s4, FinishLeave(1), []);
    Prepend(s2, s3, StartLeave(1, ck), [FinishLeave(1)]);
    steps := [StartLeave(1, ck)] + [FinishLeave(1)];
    Prepend(s1, s2, Connect(ck, "i", {"b"}), steps);
    steps := [Connect(ck, "i", {"b"})] + steps;
    Prepend(s, s1, Connect(ck, "i", {"a", "b"}), steps);
    steps := [Connect(ck, "i", {"a", "b"})] + steps;
  }
}
