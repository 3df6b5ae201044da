/** The system is not idle by construction: from the empty system, every valid
    request can travel all the way, from the client that sends it to the socket
    of another client, and arrives as what was sent. */
module EndToEnd {
  import opened Contract
  import MessageId
  import A = AcceptProtocol
  import R = RelayProtocol
  import D = DeliveryProtocol
  import F = FanoutProtocol
  import H = HubModel
  import opened Pipeline

  // ---------- runs of one component are runs of the whole ----------

  lemma {:induction false} RunAppend(cfg: R.Config, w: World, a: seq<Step>, b: seq<Step>)
    requires Legal(cfg, w, a) && Legal(cfg, After(cfg, w, a), b)
    ensures Legal(cfg, w, a + b) && After(cfg, w, a + b) == After(cfg, After(cfg, w, a), b)
    decreases |a|
  {
    hide Enabled, Apply;
    if a == [] {
      assert a + b == b;
    } else {
      assert (a + b)[0] == a[0] && (a + b)[1..] == a[1..] + b;
      RunAppend(cfg, Apply(cfg, w, a[0]), a[1..], b);
    }
  }

  lemma OneStep(cfg: R.Config, w: World, step: Step)
    requires Enabled(cfg, w, step)
    ensures Legal(cfg, w, [step]) && After(cfg, w, [step]) == Apply(cfg, w, step)
  {
    hide Enabled, Apply;
    var rest := [step][1..];
    assert rest == [] && Legal(cfg, Apply(cfg, w, step), rest) && After(cfg, Apply(cfg, w, step), rest) == Apply(cfg, w, step);
  }

  function Accepts(steps: seq<A.Step>): seq<Step>
  {
    seq(|steps|, i requires 0 <= i < |steps| => Accepting(steps[i]))
  }

  lemma {:induction false} LiftAccepts(cfg: R.Config, w: World, steps: seq<A.Step>)
    requires A.Legal(w.db, steps)
    ensures Legal(cfg, w, Accepts(steps)) && After(cfg, w, Accepts(steps)) == w.(db := A.After(w.db, steps))
    decreases |steps|
  {
    hide A.Enabled, A.Apply;
    if steps != [] {
      assert Accepts(steps)[0] == Accepting(steps[0]) && Accepts(steps)[1..] == Accepts(steps[1..]);
      LiftAccepts(cfg, w.(db := A.Apply(w.db, steps[0])), steps[1..]);
    }
  }

  function Relays(steps: seq<R.Step>): seq<Step>
  {
    seq(|steps|, i requires 0 <= i < |steps| => Relaying(steps[i]))
  }

  lemma {:induction false} LiftRelays(cfg: R.Config, w: World, steps: seq<R.Step>)
    requires R.Legal(w.db.tables.outbox, cfg, w.net, steps)
    ensures Legal(cfg, w, Relays(steps))
    ensures After(cfg, w, Relays(steps)) == w.(net := R.After(w.db.tables.outbox, cfg, w.net, steps))
    decreases |steps|
  {
    hide R.IsBatch, R.ValidateEntry;
    if steps != [] {
      assert Relays(steps)[0] == Relaying(steps[0]) && Relays(steps)[1..] == Relays(steps[1..]);
      LiftRelays(cfg, w.(net := R.Apply(w.db.tables.outbox, cfg, w.net, steps[0])), steps[1..]);
    }
  }

  function Delivers(steps: seq<D.Step>): seq<Step>
  {
    seq(|steps|, i requires 0 <= i < |steps| => Delivering(steps[i]))
  }

  lemma {:induction false} LiftDelivers(cfg: R.Config, w: World, steps: seq<D.Step>)
    requires D.Legal(w.net, w.delivery, steps)
    ensures Legal(cfg, w, Delivers(steps)) && After(cfg, w, Delivers(steps)) == w.(delivery := D.After(w.net, w.delivery, steps))
    decreases |steps|
  {
    hide D.Enabled, D.Apply;
    if steps != [] {
      assert Delivers(steps)[0] == Delivering(steps[0]) && Delivers(steps)[1..] == Delivers(steps[1..]);
      LiftDelivers(cfg, w.(delivery := D.Apply(w.net, w.delivery, steps[0])), steps[1..]);
    }
  }

  // ---------- accepting ----------

  function Nobody(): A.Db
  {
    A.Db(A.Tables(map[], map[], map[]), map[], {})
  }

  function Sent(request: SendRequest, id: string, now: int): Event
  {
    Event(1, id, request.clientMessageID, request.roomID, 1, now, request.payload)
  }

  function At(client: string, request: SendRequest, p: A.Phase): A.Db
  {
    Nobody().(sessions := map[0 := A.Session(client, request, p)])
  }

  lemma Enter(d: A.Db, step: A.Step, client: string, request: SendRequest, p: A.Phase, q: A.Phase, steps: seq<A.Step>)
    requires A.Legal(Nobody(), steps) && A.After(Nobody(), steps) == d == At(client, request, p)
    requires A.Enabled(d, step) && A.Apply(d, step) == A.Enter(d, 0, q)
    ensures A.Legal(Nobody(), steps + [step]) && A.After(Nobody(), steps + [step]) == At(client, request, q)
  {
    hide A.Enabled, A.Apply, A.Legal, A.After;
    A.OneStep(d, step);
    A.RunAppend(Nobody(), steps, [step]);
    assert d.sessions[0 := d.sessions[0].(phase := q)] == map[0 := A.Session(client, request, q)];
  }

  function Trip(client: string, request: SendRequest, id: string, now: int): seq<A.Step>
  {
    [A.Begin(0, client, request)] + [A.FindMiss(0)] + [A.OpenTx(0)] + [A.FindMiss(0)] + [A.Allocate(0)]
    + [A.Insert(0, id, now)] + [A.Enqueue(0)] + [A.Commit(0, true)]
  }

  lemma Starts(client: string, request: SendRequest)
    requires A.RequestOk(client, request)
    ensures A.Legal(Nobody(), [A.Begin(0, client, request)])
    ensures A.After(Nobody(), [A.Begin(0, client, request)]) == At(client, request, A.Looking)
  {
    A.OneStep(Nobody(), A.Begin(0, client, request));
  }

  lemma Looks(client: string, request: SendRequest)
    requires A.RequestOk(client, request)
    ensures var steps := [A.Begin(0, client, request)] + [A.FindMiss(0)] + [A.OpenTx(0)] + [A.FindMiss(0)];
            A.Legal(Nobody(), steps) && A.After(Nobody(), steps) == At(client, request, A.Allocating)
  {
    Starts(client, request);
    var s1 := [A.Begin(0, client, request)];
    hide A.Legal, A.After, A.RequestOk;
    Enter(At(client, request, A.Looking), A.FindMiss(0), client, request, A.Looking, A.Opening, s1);
    var s2 := s1 + [A.FindMiss(0)];
    Enter(At(client, request, A.Opening), A.OpenTx(0), client, request, A.Opening, A.LookingAgain, s2);
    var s3 := s2 + [A.OpenTx(0)];
    Enter(At(client, request, A.LookingAgain), A.FindMiss(0), client, request, A.LookingAgain, A.Allocating, s3);
  }

  lemma Writes(client: string, request: SendRequest, id: string, now: int, s4: seq<A.Step>)
    requires A.RequestOk(client, request) && MessageId.Canonical(id) && now != 0
    requires A.Legal(Nobody(), s4) && A.After(Nobody(), s4) == At(client, request, A.Allocating)
    ensures var steps := s4 + [A.Allocate(0)] + [A.Insert(0, id, now)] + [A.Enqueue(0)];
            A.Legal(Nobody(), steps)
            && A.After(Nobody(), steps) == At(client, request, A.Enqueued(id, Sent(request, id, now)))
  {
    hide A.Legal, A.After;
    var e := Sent(request, id, now);
    Enter(At(client, request, A.Allocating), A.Allocate(0), client, request, A.Allocating, A.Allocated(1), s4);
    var s5 := s4 + [A.Allocate(0)];
    InsertRuns(client, request, id, now);
    hide A.RequestOk, ValidateEvent, MessageId.Canonical;
    Enter(At(client, request, A.Allocated(1)), A.Insert(0, id, now), client, request, A.Allocated(1), A.Inserted(id, e), s5);
    var s6 := s5 + [A.Insert(0, id, now)];
    Enter(At(client, request, A.Inserted(id, e)), A.Enqueue(0), client, request, A.Inserted(id, e), A.Enqueued(id, e), s6);
  }

  lemma InsertRuns(client: string, request: SendRequest, id: string, now: int)
    requires A.RequestOk(client, request) && MessageId.Canonical(id) && now != 0
    ensures var d := At(client, request, A.Allocated(1));
            && A.Enabled(d, A.Insert(0, id, now))
            && A.Apply(d, A.Insert(0, id, now)) == A.Enter(d, 0, A.Inserted(id, Sent(request, id, now)))
  {
    MessageId.CanonicalNotBlank(id);
    hide MessageId.Canonical, Blank;
  }

  /** The two rows a first message leaves. */
  function FirstTables(client: string, request: SendRequest, id: string, now: int): A.Tables
  {
    var slot := A.Slot(request.roomID, 1);
    A.Tables(
      map[request.roomID := 1],
      map[slot := A.MessageRow(id, A.ClientKey(client, request.clientMessageID), now - now % 1000, request.payload)],
      map[slot := A.OutboxRow(id, Sent(request, id, now), now - now % 1000)])
  }

  lemma Accepted(client: string, request: SendRequest, id: string, now: int)
    requires A.RequestOk(client, request) && MessageId.Canonical(id) && now != 0
    ensures A.Legal(Nobody(), Trip(client, request, id, now))
    ensures A.After(Nobody(), Trip(client, request, id, now)).tables == FirstTables(client, request, id, now)
  {
    Looks(client, request);
    var s4 := [A.Begin(0, client, request)] + [A.FindMiss(0)] + [A.OpenTx(0)] + [A.FindMiss(0)];
    Writes(client, request, id, now, s4);
    var s7 := s4 + [A.Allocate(0)] + [A.Insert(0, id, now)] + [A.Enqueue(0)];
    var d := At(client, request, A.Enqueued(id, Sent(request, id, now)));
    hide A.Legal, A.After, A.RequestOk, MessageId.Canonical;
    var d' := A.Apply(d, A.Commit(0, true));
    assert d'.tables == FirstTables(client, request, id, now);
    A.OneStep(d, A.Commit(0, true));
    A.RunAppend(Nobody(), s7, [A.Commit(0, true)]);
  }

  // ---------- publishing ----------

  lemma Published(cfg: R.Config, slot: A.Slot, row: A.OutboxRow)
    requires cfg.batchSize >= 1 && cfg.maxRetries >= 1 && R.ValidateEntry(R.EntryOf(slot, row)).Valid?
    ensures var outbox, n := map[slot := row], R.Net({}, map[], map[]);
            var steps := [R.Fetch(0, [R.EntryOf(slot, row)])] + [R.Publish(0, true, true)] + [R.Mark(0)];
            && R.Legal(outbox, cfg, n, steps)
            && R.After(outbox, cfg, n, steps).log == map[cfg.place(slot.room) := [R.Record(slot.room, Encoded(row.event))]]
            && R.After(outbox, cfg, n, steps).published == {slot}
  {
    var outbox, n0, e := map[slot := row], R.Net({}, map[], map[]), R.EntryOf(slot, row);
    hide R.ValidateEntry;
    FirstBatch(cfg.batchSize, slot, row);
    var n1 := R.Apply(outbox, cfg, n0, R.Fetch(0, [e]));
    var n2 := R.Apply(outbox, cfg, n1, R.Publish(0, true, true));
    var n3 := R.Apply(outbox, cfg, n2, R.Mark(0));
    assert n1.workers == map[0 := R.Publishing([e], 0, 0)] && n2.workers == map[0 := R.Acked([e], 0)];
    assert R.LogAt(n1, cfg.place(slot.room)) + [R.RecordOf(e)] == [R.Record(slot.room, Encoded(row.event))];
    assert n2.log == map[cfg.place(slot.room) := [R.Record(slot.room, Encoded(row.event))]];
    assert R.Marked(outbox, {}, e.messageID) == {slot};
    assert R.Legal(outbox, cfg, n0, []) && R.After(outbox, cfg, n0, []) == n0;
    hide R.IsBatch, R.Legal, R.After, R.Marked;
    R.LegalAppend(outbox, cfg, n0, [], R.Fetch(0, [e]));
    assert [] + [R.Fetch(0, [e])] == [R.Fetch(0, [e])];
    R.LegalAppend(outbox, cfg, n0, [R.Fetch(0, [e])], R.Publish(0, true, true));
    R.LegalAppend(outbox, cfg, n0, [R.Fetch(0, [e])] + [R.Publish(0, true, true)], R.Mark(0));
  }

  lemma FirstBatch(limit: nat, slot: A.Slot, row: A.OutboxRow)
    requires limit >= 1
    ensures R.IsBatch(map[slot := row], {}, limit, [R.EntryOf(slot, row)])
  {
    var outbox, batch := map[slot := row], [R.EntryOf(slot, row)];
    assert R.SlotOf(batch[0]) == slot && R.IsHead(outbox, {}, slot);
    assert batch[0] in batch;
  }

  // ---------- all the way ----------

  function Empty(): World
  {
    World(Nobody(), R.Net({}, map[], map[]), D.Delivery(map[], map[], [], map[]), F.Front(map[], map[], map[], map[]))
  }

  /** From the empty system, with any partitioner and any limits of at least
      one: another client is connected to some instance in the room; the request
      is accepted, published, handled and received; and that client's queue
      holds exactly the event of what was sent. */
  lemma MessageArrives(cfg: R.Config, client: string, request: SendRequest, id: string, now: int,
                       inst: string, reader: string, conn: F.ConnId) returns (steps: seq<Step>)
    requires cfg.batchSize >= 1 && cfg.maxRetries >= 1
    requires TrimSpace(client) != "" && request.frameType == "send" && request.version == 1
    requires TrimSpace(request.clientMessageID) != "" && TrimSpace(request.roomID) != "" && request.payload.Document?
    requires MessageId.Canonical(id) && now != 0
    ensures Init(Empty()) && Legal(cfg, Empty(), steps)
    ensures var x := After(cfg, Empty(), steps);
            && conn in x.front.queues
            && x.front.queues[conn] == [Event(1, id, request.clientMessageID, request.roomID, 1, now, request.payload)]
            && D.CommittedAt(x.delivery, cfg.place(request.roomID)) == 1
            && x.net.published == {A.Slot(request.roomID, 1)}
  {
    TrimSpaceEmpty(client);
    SendPasses(request);
    hide TrimSpace, Blank;
    Accepted(client, request, id, now);
    var e, w0 := Sent(request, id, now), Empty();
    var slot, row := A.Slot(request.roomID, 1), A.OutboxRow(id, e, now - now % 1000);
    EventIsValid(client, request, id, now);
    hide A.RequestOk, ValidateSend, ValidateEvent, MessageId.Canonical;
    var s1, w1 := Join(cfg, inst, request.roomID, reader, conn);
    LiftAccepts(cfg, w1, Trip(client, request, id, now));
    var s2 := Accepts(Trip(client, request, id, now));
    var w2 := After(cfg, w1, s2);
    R.EntryPasses(R.EntryOf(slot, row));
    Published(cfg, slot, row);
    var relay := [R.Fetch(0, [R.EntryOf(slot, row)])] + [R.Publish(0, true, true)] + [R.Mark(0)];
    hide Legal, After, A.Legal, A.After, R.Legal, R.After, Accepts, Trip;
    LiftRelays(cfg, w2, relay);
    var s3 := Relays(relay);
    var w3 := After(cfg, w2, s3);
    var s4 := Arrive(cfg, w3, e, inst, reader, conn);
    RunAppend(cfg, w2, s3, s4);
    RunAppend(cfg, w1, s2, s3 + s4);
    RunAppend(cfg, w0, s1, s2 + (s3 + s4));
    steps := s1 + (s2 + (s3 + s4));
  }

  lemma EventIsValid(client: string, request: SendRequest, id: string, now: int)
    requires A.RequestOk(client, request) && MessageId.Canonical(id) && now != 0
    ensures ValidateEvent(Sent(request, id, now)).Valid?
  {
    MessageId.CanonicalNotBlank(id);
    hide MessageId.Canonical, Blank;
  }

  /** The reader connects first. */
  lemma Join(cfg: R.Config, inst: string, room: string, reader: string, conn: F.ConnId) returns (steps: seq<Step>, w: World)
    ensures Legal(cfg, Empty(), steps) && After(cfg, Empty(), steps) == w
    ensures w.db == Nobody() && w.net == R.Net({}, map[], map[]) && w.delivery == D.Delivery(map[], map[], [], map[])
    ensures F.CursorOf(w.front, inst) == 0 && w.front.queues == map[conn := []]
    ensures H.MembersOf(F.HubOf(w.front, inst), room) == map[reader := conn]
  {
    var step := F.Register(inst, [room], reader, conn);
    F.RegisterExact(map[], Empty().front, inst, [room], reader, conn, room);
    w := Apply(cfg, Empty(), Fanning(step));
    steps := [Fanning(step)];
    OneStep(cfg, Empty(), Fanning(step));
    assert map[][reader := conn] == map[reader := conn];
  }

  /** A claim handles the record, and the instance receives it. */
  lemma Arrive(cfg: R.Config, w: World, e: Event, inst: string, reader: string, conn: F.ConnId) returns (steps: seq<Step>)
    requires ValidateEvent(e).Valid? && w.delivery == D.Delivery(map[], map[], [], map[])
    requires R.LogAt(w.net, cfg.place(e.roomID)) == [R.Record(e.roomID, Encoded(e))]
    requires F.CursorOf(w.front, inst) == 0 && w.front.queues == map[conn := []]
    requires H.MembersOf(F.HubOf(w.front, inst), e.roomID) == map[reader := conn]
    ensures Legal(cfg, w, steps)
    ensures var x := After(cfg, w, steps);
            && conn in x.front.queues && x.front.queues[conn] == [e] && x.net == w.net
            && D.CommittedAt(x.delivery, cfg.place(e.roomID)) == 1
  {
    hide ValidateEvent;
    var p, env := cfg.place(e.roomID), D.Envelope(e.roomID, Encoded(e));
    D.AdmitPasses(env);
    hide D.Admit;
    D.ClaimAdvances(w.net, w.delivery, 0, p, [inst]);
    var claim := [D.Open(0, p), D.Handle(0, [inst]), D.MarkOffset(0), D.CommitOffset(0)];
    LiftDelivers(cfg, w, claim);
    var s1 := Delivers(claim);
    var w1 := After(cfg, w, s1);
    D.PublishAllExact(map[], [inst], env, inst);
    assert D.ChannelAt(map[], inst) + [env] == [env];
    hide Legal, After, D.Legal, D.After, D.PublishAll, Delivers;
    var step := F.Receive(inst, {reader});
    assert reader in H.MembersOf(F.HubOf(w1.front, inst), e.roomID);
    F.ReceiveExact(w1.delivery.channels, w1.front, inst, {reader}, e);
    assert F.Serves(map[reader := conn], {reader}, conn);
    OneStep(cfg, w1, Fanning(step));
    RunAppend(cfg, w, s1, [Fanning(step)]);
    steps := s1 + [Fanning(step)];
  }
}
