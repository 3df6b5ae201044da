/** A connection stays listed for as long as its pings run.  The socket loop
    pings every 54 seconds, nine tenths of the pong wait, and each ping
    refreshes presence for 60 seconds. */
module Keepalive {
  import opened Presence
  import opened PresenceProtocol

  const SECOND := 1_000_000_000
  const PONG_WAIT := 60 * SECOND
  const PING_PERIOD := PONG_WAIT * 9 / 10

  /** The time limit of one Ping RPC. */
  const RPC_TIMEOUT := 5 * SECOND

  /** `times(0)` is when Connect executes and `times(k)` when the k-th ping
      does: less than TTL after Connect for the first, and for every later one
      within RPC_TIMEOUT of its tick, counted from the socket write on. */
  ghost predicate Schedule(times: nat -> int, firstTick: int)
  {
    && times(0) <= times(1) < times(0) + TTL
    && forall k: nat :: k >= 1 ==>
         firstTick + PING_PERIOD * (k - 1) <= times(k) <= firstTick + PING_PERIOD * (k - 1) + RPC_TIMEOUT
  }

  /** No two refreshes are TTL apart. */
  lemma GapBelowTtl(times: nat -> int, firstTick: int, k: nat)
    requires Schedule(times, firstTick)
    ensures times(k) <= times(k + 1) < times(k) + TTL
  {
    if k > 0 {
      var tick := firstTick + PING_PERIOD * (k - 1);
      assert tick <= times(k) <= tick + RPC_TIMEOUT;
      NextTick(k);
      assert tick + PING_PERIOD <= times(k + 1) <= tick + PING_PERIOD + RPC_TIMEOUT;
    }
  }

  lemma NextTick(k: nat)
    requires k > 0
    ensures PING_PERIOD == 54 * SECOND && PING_PERIOD * k == PING_PERIOD * (k - 1) + PING_PERIOD
  {
  }

  /** The connection `ck` of this instance was refreshed for the k-th time
      last, and the next refresh is not overdue. */
  ghost predicate Kept(s: State, ck: string, inst: string, rooms: set<string>, times: nat -> int, k: nat)
  {
    && times(k) <= s.r.now <= times(k + 1)
    && ck in s.r.clients && s.r.clients[ck] == ClientSet(rooms, times(k) + TTL)
    && (forall room :: room in rooms ==>
          ck in FieldsOf(s.r, room) && FieldsOf(s.r, room)[ck] == Field(inst, times(k) + TTL))
    && (forall id :: id in s.pending && s.pending[id].ck == ck ==> s.pending[id] == Pinging(ck, inst, rooms))
  }

  predicate IsRefresh(s: State, step: Step, ck: string)
  {
    step.FinishPing? && step.id in s.pending && s.pending[step.id].ck == ck
  }

  /** What may happen while the connection lives: anything for other keys; for
      this one only its own pings, executed when the schedule says; and time
      does not pass a due refresh by. */
  predicate Allowed(s: State, step: Step, ck: string, inst: string, times: nat -> int, k: nat)
  {
    match step
    case Tick(dt) => s.r.now + dt <= times(k + 1)
    case Connect(o, _, _) => o != ck
    case StartPing(_, o, i, readOk) => o != ck || (i == inst && readOk)
    case StartLeave(_, o) => o != ck
    case FinishPing(_) => IsRefresh(s, step, ck) ==> s.r.now == times(k + 1)
    case _ => true
  }

  ghost predicate AllAllowed(s: State, steps: seq<Step>, ck: string, inst: string, times: nat -> int, k: nat)
    requires Legal(s, steps)
    decreases |steps|
  {
    steps == [] || (
      && Allowed(s, steps[0], ck, inst, times, k)
      && AllAllowed(Apply(s, steps[0]), steps[1..], ck, inst, times, if IsRefresh(s, steps[0], ck) then k + 1 else k))
  }

  lemma ConnectKept(s: State, ck: string, inst: string, rooms: set<string>, times: nat -> int, firstTick: int)
    requires Schedule(times, firstTick) && s.r.now == times(0) && rooms != {} && KeyFree(s, ck)
    ensures Kept(Apply(s, Connect(ck, inst, rooms)), ck, inst, rooms, times, 0)
  {
  }

  lemma OthersKept(s: State, s': State, o: string, ck: string, inst: string, rooms: set<string>, times: nat -> int, k: nat)
    requires Kept(s, ck, inst, rooms, times, k) && o != ck && OthersSame(s.r, s'.r, o)
    requires s'.pending.Keys <= s.pending.Keys && forall id :: id in s'.pending ==> s'.pending[id] == s.pending[id]
    ensures Kept(s', ck, inst, rooms, times, k)
  {
  }

  lemma RefreshKept(s: State, id: RpcId, ck: string, inst: string, rooms: set<string>,
                    times: nat -> int, firstTick: int, k: nat)
    requires Schedule(times, firstTick) && Kept(s, ck, inst, rooms, times, k)
    requires id in s.pending && s.pending[id] == Pinging(ck, inst, rooms) && s.r.now == times(k + 1)
    ensures Kept(Apply(s, FinishPing(id)), ck, inst, rooms, times, k + 1)
  {
    GapBelowTtl(times, firstTick, k);
    GapBelowTtl(times, firstTick, k + 1);
  }

  lemma StepKept(s: State, step: Step, ck: string, inst: string, rooms: set<string>,
                 times: nat -> int, firstTick: int, k: nat)
    requires Schedule(times, firstTick) && Kept(s, ck, inst, rooms, times, k)
    requires Enabled(s, step) && Allowed(s, step, ck, inst, times, k)
    ensures Kept(Apply(s, step), ck, inst, rooms, times, if IsRefresh(s, step, ck) then k + 1 else k)
  {
    hide OthersSame, ConnectExec, PingExec, DisconnectExec;
    GapBelowTtl(times, firstTick, k);
    var s' := Apply(s, step);
    match step {
      case Connect(o, i, set') =>
        ExecTouchesOneKey(s.r, o, i, set');
        OthersKept(s, s', o, ck, inst, rooms, times, k);
      case FinishPing(id) =>
        var p := s.pending[id];
        if p.ck == ck {
          RefreshKept(s, id, ck, inst, rooms, times, firstTick, k);
        } else {
          ExecTouchesOneKey(s.r, p.ck, p.inst, p.rooms);
          OthersKept(s, s', p.ck, ck, inst, rooms, times, k);
        }
      case FinishLeave(id) =>
        var p := s.pending[id];
        LeaveTouchesOneKey(s.r, p.ck, p.rooms);
        OthersKept(s, s', p.ck, ck, inst, rooms, times, k);
      case _ =>
    }
  }

  lemma {:induction false} RunKept(s: State, steps: seq<Step>, ck: string, inst: string, rooms: set<string>,
                                   times: nat -> int, firstTick: int, k: nat) returns (m: nat)
    requires Schedule(times, firstTick) && Kept(s, ck, inst, rooms, times, k)
    requires Legal(s, steps) && AllAllowed(s, steps, ck, inst, times, k)
    ensures Kept(After(s, steps), ck, inst, rooms, times, m)
    decreases |steps|
  {
    hide Kept, Schedule, Allowed, Apply;
    if steps == [] {
      m := k;
    } else {
      StepKept(s, steps[0], ck, inst, rooms, times, firstTick, k);
      m := RunKept(Apply(s, steps[0]), steps[1..], ck, inst, rooms, times, firstTick,
                   if IsRefresh(s, steps[0], ck) then k + 1 else k);
    }
  }

  /** From Connect on, at every moment of the connection's life and whatever
      the other connections do, every room it joined lists its instance. */
  lemma ListedThroughout(s: State, steps: seq<Step>, ck: string, inst: string, rooms: set<string>,
                         times: nat -> int, firstTick: int, room: string)
    requires Schedule(times, firstTick) && s.r.now == times(0) && KeyFree(s, ck) && room in rooms
    requires Legal(Apply(s, Connect(ck, inst, rooms)), steps)
    requires AllAllowed(Apply(s, Connect(ck, inst, rooms)), steps, ck, inst, times, 0)
    ensures inst in LiveInstances(After(Apply(s, Connect(ck, inst, rooms)), steps).r, room)
  {
    var s1 := Apply(s, Connect(ck, inst, rooms));
    ConnectKept(s, ck, inst, rooms, times, firstTick);
    var m := RunKept(s1, steps, ck, inst, rooms, times, firstTick, 0);
    GapBelowTtl(times, firstTick, m);
    var r := After(s1, steps).r;
    assert FieldLive(r, room, ck) && FieldsOf(r, room)[ck].inst == inst;
  }

  /** The socket's own Disconnect names no instance.  Its key then differs
      from the connection's, so the connection's fields stay until they expire. */
  lemma SocketDisconnectMissesKey(r: Redis, client: string, inst: string, room: string)
    requires inst != ""
    ensures var ck, sent := ClientKey(client, inst), ClientKey(client, "");
            FieldLive(DisconnectExec(r, sent, Members(r, sent)), room, ck) <==> FieldLive(r, room, ck)
  {
    var ck, sent := ClientKey(client, inst), ClientKey(client, "");
    assert |ck| != |sent|;
    LeaveTouchesOneKey(r, sent, Members(r, sent));
  }
}
