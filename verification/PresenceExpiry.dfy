/** What happens when a refresh comes too late: the connection is listed up to
    its deadline and not a moment longer, and no later ping brings it back. */
module PresenceExpiry {
  import opened Presence
  import opened PresenceProtocol
  import opened Keepalive

  // ---------- between two refreshes ----------

  /** Nothing executes for this key; other keys do as they like. */
  predicate Silent(s: State, step: Step, ck: string)
    requires Enabled(s, step)
  {
    match step
    case Connect(o, _, _) => o != ck
    case FinishPing(id) => s.pending[id].ck != ck
    case FinishLeave(id) => s.pending[id].ck != ck
    case _ => true
  }

  predicate AllSilent(s: State, steps: seq<Step>, ck: string)
    requires Legal(s, steps)
    decreases |steps|
  {
    steps == [] || (Silent(s, steps[0], ck) && AllSilent(Apply(s, steps[0]), steps[1..], ck))
  }

  /** The key's field in the room stands as it was, and time has not gone back. */
  ghost predicate SameField(r: Redis, r': Redis, room: string, ck: string)
  {
    && r.now <= r'.now
    && (ck in FieldsOf(r', room) <==> ck in FieldsOf(r, room))
    && (ck in FieldsOf(r, room) ==> FieldsOf(r', room)[ck] == FieldsOf(r, room)[ck])
  }

  lemma StepSilent(s: State, step: Step, room: string, ck: string)
    requires Enabled(s, step) && Silent(s, step, ck)
    ensures SameField(s.r, Apply(s, step).r, room, ck)
  {
    hide ConnectExec, PingExec, DisconnectExec;
    match step {
      case Connect(o, inst, rooms) => ExecTouchesOneKey(s.r, o, inst, rooms);
      case FinishPing(id) => ExecTouchesOneKey(s.r, s.pending[id].ck, s.pending[id].inst, s.pending[id].rooms);
      case FinishLeave(id) => LeaveTouchesOneKey(s.r, s.pending[id].ck, s.pending[id].rooms);
      case _ =>
    }
  }

  /** The room lists the key in every state of the run. */
  predicate ListedAllAlong(s: State, steps: seq<Step>, room: string, ck: string)
    requires Legal(s, steps)
    decreases |steps|
  {
    FieldLive(s.r, room, ck) && (steps == [] || ListedAllAlong(Apply(s, steps[0]), steps[1..], room, ck))
  }

  /** Without a refresh the field is live exactly up to its deadline, so it is
      live all along if and only if it is at the end. */
  lemma {:induction false} ListedUntilDeadline(s: State, steps: seq<Step>, room: string, ck: string)
    requires Legal(s, steps) && AllSilent(s, steps, ck) && ck in FieldsOf(s.r, room)
    ensures SameField(s.r, After(s, steps).r, room, ck)
    ensures ListedAllAlong(s, steps, room, ck) <==> After(s, steps).r.now < FieldsOf(s.r, room)[ck].deadline
    decreases |steps|
  {
    hide Apply, Silent, Enabled, FieldsOf;
    if steps != [] {
      StepSilent(s, steps[0], room, ck);
      ListedUntilDeadline(Apply(s, steps[0]), steps[1..], room, ck);
    }
  }

  /** What the ping period leaves room for.  A connection refreshed `late`
      after one tick, with its next refresh `nextLate` after the next tick, is
      listed all the time between if and only if the lateness grows by less
      than six seconds. */
  lemma SixSecondsOfSlack(s: State, steps: seq<Step>, ck: string, inst: string, rooms: set<string>, room: string,
                          times: nat -> int, k: nat, tick: int, late: int, nextLate: int)
    requires Kept(s, ck, inst, rooms, times, k) && s.r.now == times(k) == tick + late && room in rooms
    requires Legal(s, steps) && AllSilent(s, steps, ck)
    requires After(s, steps).r.now == tick + PING_PERIOD + nextLate
    ensures ListedAllAlong(s, steps, room, ck) <==> nextLate - late < 6 * SECOND
  {
    hide Legal, After, AllSilent, ListedAllAlong;
    ListedUntilDeadline(s, steps, room, ck);
  }

  // ---------- after the deadline ----------

  /** Neither set nor field of the key is live, and no RPC under way for it has
      read any rooms. */
  ghost predicate Lost(s: State, ck: string)
  {
    && !ClientLive(s.r, ck)
    && (forall room :: !FieldLive(s.r, room, ck))
    && (forall id :: id in s.pending && s.pending[id].ck == ck ==> s.pending[id].rooms == {})
  }

  lemma OthersLost(s: State, s': State, o: string, ck: string)
    requires Lost(s, ck) && o != ck && OthersSame(s.r, s'.r, o)
    requires s'.pending.Keys <= s.pending.Keys && forall id :: id in s'.pending ==> s'.pending[id] == s.pending[id]
    ensures Lost(s', ck)
  {
    forall room ensures !FieldLive(s'.r, room, ck) {
      assert !FieldLive(s.r, room, ck);
    }
  }

  /** An EXEC with no rooms finds nothing to prolong and nothing to delete. */
  lemma EmptyExec(r: Redis, ck: string, inst: string)
    requires !ClientLive(r, ck)
    ensures PingExec(r, ck, inst, {}) == r && DisconnectExec(r, ck, {}) == r
  {
    assert SaveRooms(r, ck, inst, {}).hashes == r.hashes;
  }

  lemma FinishLost(s: State, step: Step, ck: string)
    requires Lost(s, ck) && (step.FinishPing? || step.FinishLeave?) && Enabled(s, step)
    ensures Lost(Apply(s, step), ck)
  {
    hide PingExec, DisconnectExec, OthersSame;
    var p, s' := s.pending[step.id], Apply(s, step);
    if p.ck == ck {
      EmptyExec(s.r, ck, if step.FinishPing? then p.inst else "");
      assert s'.r == s.r;
    } else {
      if step.FinishPing? {
        ExecTouchesOneKey(s.r, p.ck, p.inst, p.rooms);
      } else {
        LeaveTouchesOneKey(s.r, p.ck, p.rooms);
      }
      OthersLost(s, s', p.ck, ck);
    }
  }

  lemma TickLost(s: State, dt: nat, ck: string)
    requires Lost(s, ck)
    ensures Lost(Apply(s, Tick(dt)), ck)
  {
    var s' := Apply(s, Tick(dt));
    forall room ensures !FieldLive(s'.r, room, ck) {
      assert !FieldLive(s.r, room, ck);
    }
  }

  /** A lost key stays lost at every step but one: its own Connect. */
  lemma StepLost(s: State, step: Step, ck: string)
    requires Lost(s, ck) && Enabled(s, step)
    ensures Lost(Apply(s, step), ck) <==> !(step.Connect? && step.ck == ck)
  {
    hide PingExec, DisconnectExec, OthersSame;
    match step {
      case Tick(dt) => TickLost(s, dt, ck);
      case Connect(o, inst, rooms) =>
        if o != ck {
          ExecTouchesOneKey(s.r, o, inst, rooms);
          OthersLost(s, Apply(s, step), o, ck);
        }
      case FinishPing(_) => FinishLost(s, step, ck);
      case FinishLeave(_) => FinishLost(s, step, ck);
      case _ =>
    }
  }

  predicate NoConnect(steps: seq<Step>, ck: string)
  {
    forall i :: 0 <= i < |steps| && steps[i].Connect? ==> steps[i].ck != ck
  }

  lemma {:induction false} RunLost(s: State, steps: seq<Step>, ck: string)
    requires Lost(s, ck) && Legal(s, steps) && NoConnect(steps, ck)
    ensures Lost(After(s, steps), ck)
    decreases |steps|
  {
    hide Lost, Apply, Enabled;
    if steps != [] {
      StepLost(s, steps[0], ck);
      RunLost(Apply(s, steps[0]), steps[1..], ck);
    }
  }

  /** In any run: once TTL has passed since a key's last Connect or Ping, with
      no RPC under way that read its rooms, no ping and nothing else but a
      Connect of that key ever lists it in any room again. */
  lemma OverdueForGood(s: State, steps: seq<Step>, more: seq<Step>, ck: string, room: string)
    requires Init(s) && Legal(s, steps) && Legal(After(s, steps), more) && NoConnect(more, ck)
    requires var e := After(s, steps);
             && ck in e.last && e.last[ck] + TTL <= e.r.now
             && forall id :: id in e.pending && e.pending[id].ck == ck ==> e.pending[id].rooms == {}
    ensures !FieldLive(After(After(s, steps), more).r, room, ck)
  {
    forall o ensures KeyOk(s, o) {
    }
    RunBounded(s, steps);
    var e := After(s, steps);
    assert KeyOk(e, ck);
    hide Legal, After;
    forall a ensures !FieldLive(e.r, a, ck) {
    }
    RunLost(e, more, ck);
  }

  // ---------- a healthy connection ----------

  /** The time limit of the socket write before the RPC. */
  const WRITE_TIMEOUT := 10 * SECOND

  /** A tick after a wait of dt, and a ping that succeeds. */
  function PingAfter(id: RpcId, dt: nat, ck: string, inst: string): seq<Step>
  {
    [Tick(dt), StartPing(id, ck, inst, true), FinishPing(id)]
  }

  /** A connection whose every write and RPC succeeds: it is pinged at its first
      tick, and at its second after a socket write of the given length. */
  function SlowWrite(ck: string, inst: string, room: string, write: nat): seq<Step>
  {
    [Connect(ck, inst, {room})] + (PingAfter(0, PING_PERIOD, ck, inst) + PingAfter(1, PING_PERIOD + write, ck, inst))
  }

  function Start(now: int): State
  {
    State(Redis(now, map[], map[]), map[], map[])
  }

  /** The state once the set and the only field were written at time `at`. */
  predicate Fresh(s: State, ck: string, inst: string, room: string, at: int, last: int)
  {
    s == State(Redis(at, map[ck := ClientSet({room}, last + TTL)], map[room := map[ck := Field(inst, last + TTL)]]),
               map[ck := last], map[])
  }

  lemma ConnectedFresh(now: int, ck: string, inst: string, room: string)
    ensures Fresh(Apply(Start(now), Connect(ck, inst, {room})), ck, inst, room, now, now)
  {
    var r := ConnectExec(Redis(now, map[], map[]), ck, inst, {room});
    assert r.hashes == map[room := map[ck := Field(inst, now + TTL)]];
  }

  lemma PingSaves(r: Redis, ck: string, inst: string, room: string, last: int)
    requires r.clients == map[ck := ClientSet({room}, last + TTL)] && r.now < last + TTL
    requires r.hashes == map[room := map[ck := Field(inst, last + TTL)]]
    ensures Members(r, ck) == {room}
    ensures PingExec(r, ck, inst, {room})
            == Redis(r.now, map[ck := ClientSet({room}, r.now + TTL)], map[room := map[ck := Field(inst, r.now + TTL)]])
  {
    var r', field := PingExec(r, ck, inst, {room}), Field(inst, r.now + TTL);
    assert FieldsOf(r, room)[ck := field] == map[ck := field];
    assert r'.hashes == map[room := map[ck := field]];
    assert r'.clients == map[ck := ClientSet({room}, r.now + TTL)];
  }

  /** One ping refreshes a live set and does nothing for an expired one. */
  lemma PingFresh(s: State, id: RpcId, ck: string, inst: string, room: string, at: int, dt: nat)
    requires Fresh(s, ck, inst, room, at, at)
    ensures Legal(s, PingAfter(id, dt, ck, inst))
    ensures var s' := After(s, PingAfter(id, dt, ck, inst));
            if dt < TTL then Fresh(s', ck, inst, room, at + dt, at + dt) else Gone(s', ck, room)
  {
    var s1 := Apply(s, Tick(dt));
    var s2 := Apply(s1, StartPing(id, ck, inst, true));
    var s3 := Apply(s2, FinishPing(id));
    assert s2.pending == map[id := Pinging(ck, inst, Members(s1.r, ck))] && s3.pending == map[];
    if dt < TTL {
      PingSaves(s1.r, ck, inst, room, at);
      assert s3.last == map[ck := at + dt];
      assert Fresh(s3, ck, inst, room, at + dt, at + dt);
    } else {
      EmptyExec(s1.r, ck, inst);
      assert s3.r == s1.r && Gone(s3, ck, room);
    }
    hide Apply, PingExec, SaveRooms, Members, Fresh, Gone;
    Unroll(s2, s3, PingAfter(id, dt, ck, inst), 2);
    Unroll(s1, s2, PingAfter(id, dt, ck, inst), 1);
    Unroll(s, s1, PingAfter(id, dt, ck, inst), 0);
    assert PingAfter(id, dt, ck, inst)[0..] == PingAfter(id, dt, ck, inst);
  }

  /** Lost, with no other connection around. */
  predicate Gone(s: State, ck: string, room: string)
  {
    && !ClientLive(s.r, ck) && s.pending == map[] && s.r.hashes.Keys == {room}
    && s.r.hashes[room].Keys == {ck} && s.r.hashes[room][ck].deadline <= s.r.now
  }

  lemma GoneIsLost(s: State, ck: string, room: string)
    requires Gone(s, ck, room)
    ensures Lost(s, ck) && LiveInstances(s.r, room) == {}
  {
    assert !FieldLive(s.r, room, ck);
  }

  lemma Unroll(s: State, s': State, all: seq<Step>, n: nat)
    requires n < |all| && Enabled(s, all[n]) && s' == Apply(s, all[n]) && Legal(s', all[n + 1..])
    ensures Legal(s, all[n..]) && After(s, all[n..]) == After(s', all[n + 1..])
  {
    assert all[n..][0] == all[n] && all[n..][1..] == all[n + 1..];
  }

  lemma {:induction false} RunAppend(s: State, a: seq<Step>, b: seq<Step>)
    requires Legal(s, a) && Legal(After(s, a), b)
    ensures Legal(s, a + b) && After(s, a + b) == After(After(s, a), b)
    decreases |a|
  {
    if a == [] {
      assert a + b == b;
    } else {
      hide Apply, Enabled;
      assert (a + b)[0] == a[0] && (a + b)[1..] == a[1..] + b;
      RunAppend(Apply(s, a[0]), a[1..], b);
    }
  }

  /** Such a connection is still listed in its room if and only if the write
      took less than six seconds. */
  lemma SlowWriteDelists(now: int, ck: string, inst: string, room: string, write: nat)
    ensures Legal(Start(now), SlowWrite(ck, inst, room, write))
    ensures inst in LiveInstances(After(Start(now), SlowWrite(ck, inst, room, write)).r, room) <==> write < 6 * SECOND
    ensures write >= 6 * SECOND ==> Lost(After(Start(now), SlowWrite(ck, inst, room, write)), ck)
  {
    var s0, connect := Start(now), Connect(ck, inst, {room});
    var s1 := Apply(s0, connect);
    ConnectedFresh(now, ck, inst, room);
    var first, second := PingAfter(0, PING_PERIOD, ck, inst), PingAfter(1, PING_PERIOD + write, ck, inst);
    hide Apply, ConnectExec, PingExec, SaveRooms, Legal, After, Lost, AllOrderly, PingAfter;
    TwoPings(s1, ck, inst, room, now, write);
    Prepend(s0, s1, connect, first + second);
  }

  lemma TwoPings(s: State, ck: string, inst: string, room: string, now: int, write: nat)
    requires Fresh(s, ck, inst, room, now, now)
    ensures var both := PingAfter(0, PING_PERIOD, ck, inst) + PingAfter(1, PING_PERIOD + write, ck, inst);
            && Legal(s, both)
            && (inst in LiveInstances(After(s, both).r, room) <==> write < 6 * SECOND)
            && (write >= 6 * SECOND ==> Lost(After(s, both), ck))
  {
    hide Apply, ConnectExec, PingExec, SaveRooms, Legal, After, Lost, PingAfter;
    var first, second := PingAfter(0, PING_PERIOD, ck, inst), PingAfter(1, PING_PERIOD + write, ck, inst);
    PingFresh(s, 0, ck, inst, room, now, PING_PERIOD);
    var s2 := After(s, first);
    PingFresh(s2, 1, ck, inst, room, now + PING_PERIOD, PING_PERIOD + write);
    RunAppend(s, first, second);
    var s3 := After(s2, second);
    if write < 6 * SECOND {
      assert FieldLive(s3.r, room, ck) && FieldsOf(s3.r, room)[ck].inst == inst;
    } else {
      GoneIsLost(s3, ck, room);
    }
  }

  /** Within the write's own time limit, then: a connection that never saw an
      error is listed nowhere, whatever it and the others do, until it
      connects anew. */
  lemma SlowWriteForGood(now: int, ck: string, inst: string, room: string, write: nat, more: seq<Step>, any: string)
    requires 6 * SECOND <= write <= WRITE_TIMEOUT && NoConnect(more, ck)
    requires Legal(Start(now), SlowWrite(ck, inst, room, write))
    requires Legal(After(Start(now), SlowWrite(ck, inst, room, write)), more)
    ensures !FieldLive(After(After(Start(now), SlowWrite(ck, inst, room, write)), more).r, any, ck)
  {
    hide Legal, After, SlowWrite;
    SlowWriteDelists(now, ck, inst, room, write);
    RunLost(After(Start(now), SlowWrite(ck, inst, room, write)), more, ck);
  }
}
