/** The whole proper-scale pipeline as one machine: accepting sessions, relays,
    consumer claims and hub instances, interleaved in any order.  The theorems
    hold in every state of every run. */
module Pipeline {
  import opened Contract
  import MessageId
  import A = AcceptProtocol
  import R = RelayProtocol
  import D = DeliveryProtocol
  import F = FanoutProtocol
  import S = SoloRelay
  import H = HubModel
  import P = Provenance

  datatype World = World(db: A.Db, net: R.Net, delivery: D.Delivery, front: F.Front)

  datatype Step =
    | Accepting(accept: A.Step)
    | Relaying(relay: R.Step)
    | Delivering(deliver: D.Step)
    | Fanning(fan: F.Step)

  ghost predicate Enabled(cfg: R.Config, w: World, step: Step)
  {
    match step
    case Accepting(s) => A.Enabled(w.db, s)
    case Relaying(s) => R.Enabled(w.db.tables.outbox, cfg, w.net, s)
    case Delivering(s) => D.Enabled(w.net, w.delivery, s)
    case Fanning(s) => F.Enabled(w.delivery.channels, w.front, s)
  }

  ghost function Apply(cfg: R.Config, w: World, step: Step): World
    requires Enabled(cfg, w, step)
  {
    match step
    case Accepting(s) => w.(db := A.Apply(w.db, s))
    case Relaying(s) => w.(net := R.Apply(w.db.tables.outbox, cfg, w.net, s))
    case Delivering(s) => w.(delivery := D.Apply(w.net, w.delivery, s))
    case Fanning(s) => w.(front := F.Apply(w.delivery.channels, w.front, s))
  }

  ghost predicate Init(w: World)
  {
    A.Init(w.db) && R.Init(w.net) && D.Init(w.delivery) && F.Init(w.front)
  }

  ghost predicate Inv(cfg: R.Config, w: World)
  {
    && A.Inv(w.db)
    && R.Inv(w.db.tables.outbox, cfg, w.net)
    && D.Inv(w.db.tables.outbox, w.net, w.delivery)
    && F.Inv(w.db.tables.outbox, w.front)
  }

  lemma InitInv(cfg: R.Config, w: World)
    requires Init(w)
    ensures Inv(cfg, w)
  {
  }

  /** A new committed row leaves the later stages in order. */
  lemma AcceptingInv(cfg: R.Config, w: World, s: A.Step)
    requires Inv(cfg, w) && A.Enabled(w.db, s)
    ensures Inv(cfg, w.(db := A.Apply(w.db, s)))
  {
    hide A.Inv, A.Apply, A.Enabled, R.Inv, D.Inv, F.Inv;
    var d' := A.Apply(w.db, s);
    A.StepInv(w.db, s);
    A.VisibleInOrder(w.db, s);
    R.OutboxGrows(w.db.tables.outbox, d'.tables.outbox, cfg, w.net);
    D.EnvironmentGrows(w.db.tables.outbox, d'.tables.outbox, w.net, w.net, w.delivery);
    F.OutboxGrowsFront(w.db.tables.outbox, d'.tables.outbox, w.front);
  }

  lemma LogGrows(cfg: R.Config, outbox: map<A.Slot, A.OutboxRow>, n: R.Net, s: R.Step)
    requires R.Enabled(outbox, cfg, n, s)
    ensures forall p :: R.LogAt(n, p) <= R.LogAt(R.Apply(outbox, cfg, n, s), p)
  {
  }

  lemma RelayingInv(cfg: R.Config, w: World, s: R.Step)
    requires Inv(cfg, w) && R.Enabled(w.db.tables.outbox, cfg, w.net, s)
    ensures Inv(cfg, w.(net := R.Apply(w.db.tables.outbox, cfg, w.net, s)))
  {
    hide R.Inv, R.Apply, D.Inv, F.Inv, A.TablesOk, A.SessionOk, A.AckBacked, A.Compatible;
    var outbox := w.db.tables.outbox;
    R.TablesGiveOutbox(w.db.tables);
    R.StepInv(outbox, cfg, w.net, s);
    LogGrows(cfg, outbox, w.net, s);
    D.EnvironmentGrows(outbox, outbox, w.net, R.Apply(outbox, cfg, w.net, s), w.delivery);
  }

  /** Every step of every component keeps the invariant. */
  lemma StepInv(cfg: R.Config, w: World, step: Step)
    requires Inv(cfg, w) && Enabled(cfg, w, step)
    ensures Inv(cfg, Apply(cfg, w, step))
  {
    hide A.Inv, A.Apply, A.Enabled, R.Apply, R.Enabled, D.Apply, D.Enabled, F.Apply, F.Enabled, F.Inv;
    match step {
      case Accepting(s) => AcceptingInv(cfg, w, s);
      case Relaying(s) => RelayingInv(cfg, w, s);
      case Delivering(s) => D.StepInv(w.db.tables.outbox, cfg, w.net, w.delivery, s);
      case Fanning(s) => F.StepInv(w.db.tables.outbox, w.delivery.channels, w.front, s);
    }
  }

  // ---------- runs ----------

  ghost predicate Legal(cfg: R.Config, w: World, steps: seq<Step>)
    decreases |steps|
  {
    steps == [] || (Enabled(cfg, w, steps[0]) && Legal(cfg, Apply(cfg, w, steps[0]), steps[1..]))
  }

  ghost function After(cfg: R.Config, w: World, steps: seq<Step>): World
    requires Legal(cfg, w, steps)
    decreases |steps|
  {
    if steps == [] then w else After(cfg, Apply(cfg, w, steps[0]), steps[1..])
  }

  lemma {:induction false} RunInv(cfg: R.Config, w: World, steps: seq<Step>)
    requires Inv(cfg, w) && Legal(cfg, w, steps)
    ensures Inv(cfg, After(cfg, w, steps))
    decreases |steps|
  {
    hide Inv, Enabled, Apply;
    if steps != [] {
      StepInv(cfg, w, steps[0]);
      RunInv(cfg, Apply(cfg, w, steps[0]), steps[1..]);
    }
  }

  // ---------- per-room order, end to end ----------

  function EventAt(n: R.Net, p: nat, i: nat): Option<Event>
  {
    if i < |R.LogAt(n, p)| then Decode(R.LogAt(n, p)[i].value) else None
  }

  /** x is the event just before e in e's room. */
  predicate IsPrevious(x: Option<Event>, e: Event)
  {
    x.Some? && x.value.roomID == e.roomID && x.value.roomSeq == e.roomSeq - 1
  }

  ghost predicate PublishedExactly(n: R.Net, room: string, p: int)
  {
    forall m :: A.Slot(room, m) in n.published <==> 1 <= m <= p
  }

  ghost predicate PublishedIsPrefix(n: R.Net, room: string)
  {
    exists p :: PublishedExactly(n, room, p)
  }

  /** The published row stands in the topic, and says what was committed. */
  ghost predicate InTopic(w: World, slot: A.Slot)
  {
    && slot in w.db.tables.outbox
    && exists p: nat, i: nat :: EventAt(w.net, p, i) == Some(w.db.tables.outbox[slot].event)
  }

  lemma PublishedInTopic(cfg: R.Config, w: World, slot: A.Slot)
    requires R.PublishedOk(w.db.tables.outbox, cfg, w.net) && slot in w.net.published
    ensures InTopic(w, slot)
  {
    var row := w.db.tables.outbox[slot];
    var p := cfg.place(slot.room);
    var i: nat :| i < |R.LogAt(w.net, p)| && R.LogAt(w.net, p)[i] == R.RecordOf(R.EntryOf(slot, row));
    assert EventAt(w.net, p, i) == Some(row.event);
  }

  ghost predicate LogInOrder(n: R.Net, p: nat)
  {
    forall i: nat :: i < |R.LogAt(n, p)| ==>
      && EventAt(n, p, i).Some?
      && (EventAt(n, p, i).value.roomSeq > 1 ==>
            exists j: nat :: j < i && IsPrevious(EventAt(n, p, j), EventAt(n, p, i).value))
  }

  ghost predicate HandledInOrder(n: R.Net, d: D.Delivery)
  {
    forall i: nat :: i < |d.handled| ==>
      && D.HandledEvent(n, d, i).Some?
      && (D.HandledEvent(n, d, i).value.roomSeq > 1 ==>
            exists j: nat :: j < i && IsPrevious(D.HandledEvent(n, d, j), D.HandledEvent(n, d, i).value))
  }

  lemma LogOrder(cfg: R.Config, w: World, p: nat)
    requires R.OutboxOk(w.db.tables.outbox) && R.LogOk(w.db.tables.outbox, cfg, w.net)
    ensures LogInOrder(w.net, p)
  {
    var outbox, log := w.db.tables.outbox, R.LogAt(w.net, p);
    forall i: nat | i < |log|
      ensures EventAt(w.net, p, i).Some?
      ensures EventAt(w.net, p, i).value.roomSeq > 1 ==>
                exists j: nat :: j < i && IsPrevious(EventAt(w.net, p, j), EventAt(w.net, p, i).value)
    {
      assert R.RecordOk(outbox, log, i);
      var e := log[i].value.event;
      if e.roomSeq > 1 {
        var prev := A.Slot(e.roomID, e.roomSeq - 1);
        var record := R.RecordOf(R.EntryOf(prev, outbox[prev]));
        var j :| 0 <= j < i && log[..i][j] == record;
        assert IsPrevious(EventAt(w.net, p, j), e);
      }
    }
  }

  lemma HandledOrder(cfg: R.Config, w: World)
    requires R.OutboxOk(w.db.tables.outbox) && R.LogOk(w.db.tables.outbox, cfg, w.net)
    requires D.Inv(w.db.tables.outbox, w.net, w.delivery)
    ensures HandledInOrder(w.net, w.delivery)
  {
    hide R.LogOk, R.OutboxOk, D.Inv, D.HandledEvent;
    forall i: nat | i < |w.delivery.handled|
      ensures D.HandledEvent(w.net, w.delivery, i).Some?
      ensures D.HandledEvent(w.net, w.delivery, i).value.roomSeq > 1 ==>
                exists j: nat :: j < i
                  && IsPrevious(D.HandledEvent(w.net, w.delivery, j), D.HandledEvent(w.net, w.delivery, i).value)
    {
      D.HandledInOrder(w.db.tables.outbox, cfg, w.net, w.delivery, i);
    }
  }

  lemma PublishedPrefix(cfg: R.Config, w: World, room: string)
    requires A.TablesOk(w.db.tables) && R.Inv(w.db.tables.outbox, cfg, w.net)
    ensures PublishedIsPrefix(w.net, room)
  {
    hide A.TablesOk, R.Inv;
    R.PublishedIsPrefix(w.db.tables, cfg, w.net, room);
    assert PublishedExactly(w.net, room, R.PublishedUpTo(w.net.published, room, A.Last(w.db.tables, room)));
  }

  /** Whatever sessions, relays, claims and failures are interleaved: each
      room's published rows are exactly 1..p and stand in the topic, no record
      enters the topic before its room's previous number, and none is handled
      before it. */
  lemma OrderedPipeline(cfg: R.Config, w: World, steps: seq<Step>)
    requires Init(w) && Legal(cfg, w, steps)
    ensures var x := After(cfg, w, steps);
            && (forall room :: PublishedIsPrefix(x.net, room))
            && (forall slot :: slot in x.net.published ==> InTopic(x, slot))
            && (forall p :: LogInOrder(x.net, p))
            && HandledInOrder(x.net, x.delivery)
  {
    hide PublishedIsPrefix, LogInOrder, HandledInOrder, InTopic, R.LogOk, R.PublishedOk, D.Inv, F.Inv, A.TablesOk;
    InitInv(cfg, w);
    RunInv(cfg, w, steps);
    var x := After(cfg, w, steps);
    R.TablesGiveOutbox(x.db.tables);
    forall room ensures PublishedIsPrefix(x.net, room) { PublishedPrefix(cfg, x, room); }
    forall slot | slot in x.net.published ensures InTopic(x, slot) { PublishedInTopic(cfg, x, slot); }
    forall p ensures LogInOrder(x.net, p) { LogOrder(cfg, x, p); }
    HandledOrder(cfg, x);
  }

  // ---------- one relay ----------

  ghost predicate OnlyRelay(steps: seq<Step>, r: R.RelayId)
  {
    forall i :: 0 <= i < |steps| && steps[i].Relaying? ==> steps[i].relay.r == r
  }

  lemma {:induction false} SoloRun(cfg: R.Config, w: World, steps: seq<Step>, r: R.RelayId)
    requires Inv(cfg, w) && S.Solo(cfg, w.net, r) && Legal(cfg, w, steps) && OnlyRelay(steps, r)
    ensures S.Solo(cfg, After(cfg, w, steps).net, r)
    decreases |steps|
  {
    hide S.Solo, R.Inv, R.Enabled, R.Apply, A.Apply, A.Enabled, D.Apply, D.Enabled, F.Apply, F.Enabled,
         D.Inv, F.Inv, A.TablesOk;
    if steps != [] {
      StepInv(cfg, w, steps[0]);
      if steps[0].Relaying? {
        R.TablesGiveOutbox(w.db.tables);
        S.StepSolo(w.db.tables.outbox, cfg, w.net, steps[0].relay);
      }
      SoloRun(cfg, Apply(cfg, w, steps[0]), steps[1..], r);
    }
  }

  /** With one relay process a room's records start at 1 and rise by 0 or 1, in
      whatever partition they lie. */
  lemma SingleRelayClimbs(cfg: R.Config, w: World, steps: seq<Step>, r: R.RelayId, room: string, p: nat)
    requires Init(w) && Legal(cfg, w, steps) && OnlyRelay(steps, r)
    ensures S.Climbs(S.RoomLog(cfg, After(cfg, w, steps).net, room))
    ensures S.LogClimbs(R.LogAt(After(cfg, w, steps).net, p), room)
  {
    hide S.LogClimbs, S.Climbs, A.TablesOk, D.Inv, F.Inv;
    InitInv(cfg, w);
    S.InitSolo(cfg, w.net, r);
    SoloRun(cfg, w, steps, r);
    var x := After(cfg, w, steps);
    assert S.RoomOk(cfg, x.net, room);
    RunInv(cfg, w, steps);
    hide Legal, After, OnlyRelay, S.Solo;
    if p == cfg.place(room) {
      S.ClimbsInLog(R.LogAt(x.net, p), room);
    } else {
      NotThere(cfg, x, p, room);
    }
  }

  lemma NotThere(cfg: R.Config, x: World, p: nat, room: string)
    requires R.LogOk(x.db.tables.outbox, cfg, x.net) && p != cfg.place(room)
    ensures S.LogClimbs(R.LogAt(x.net, p), room)
  {
    var log := R.LogAt(x.net, p);
    forall i | 0 <= i < |log| ensures !S.IsOf(log[i], room) {
      assert R.RecordOk(x.db.tables.outbox, x.net.log[p], i) && cfg.place(x.net.log[p][i].key) == p;
    }
  }

  // ---------- nothing is made up, nothing is lost ----------

  /** The event is a committed message: history row and outbox row agree with it. */
  ghost predicate IsMessage(tb: A.Tables, e: Event)
  {
    var slot := A.Slot(e.roomID, e.roomSeq);
    && slot in tb.messages && slot in tb.outbox
    && tb.outbox[slot].event == e
    && tb.messages[slot].id == e.messageID
    && tb.messages[slot].key.message == e.clientMessageID
    && tb.messages[slot].payload == e.payload
  }

  lemma CommittedIsMessage(tb: A.Tables, e: Event)
    requires A.TablesOk(tb) && R.CommittedEvent(tb.outbox, e)
    ensures IsMessage(tb, e)
  {
    var slot := A.Slot(e.roomID, e.roomSeq);
    assert slot in tb.messages.Keys;
    assert A.RowsMatch(slot, tb.messages[slot], tb.outbox[slot]);
  }

  /** Every event ever placed in a connection's queue is a committed message
      of a room that connection registered for. */
  lemma NoCreation(cfg: R.Config, w: World, steps: seq<Step>, c: F.ConnId, i: nat)
    requires Init(w) && Legal(cfg, w, steps)
    requires c in After(cfg, w, steps).front.queues && i < |After(cfg, w, steps).front.queues[c]|
    ensures var x := After(cfg, w, steps);
            var e := x.front.queues[c][i];
            IsMessage(x.db.tables, e) && c in x.front.joined && e.roomID in x.front.joined[c]
  {
    hide IsMessage, R.Inv, D.Inv, A.TablesOk;
    InitInv(cfg, w);
    RunInv(cfg, w, steps);
    var x := After(cfg, w, steps);
    assert F.QueueOk(x.db.tables.outbox, x.front.joined[c], x.front.queues[c]);
    CommittedIsMessage(x.db.tables, x.front.queues[c][i]);
  }

  // ---------- from the sender to the socket ----------

  /** The statements of the accepting sessions, in the order they ran. */
  function AcceptSteps(steps: seq<Step>): seq<A.Step>
  {
    if steps == [] then []
    else (if steps[0].Accepting? then [steps[0].accept] else []) + AcceptSteps(steps[1..])
  }

  lemma {:induction false} AcceptStepsAre(steps: seq<Step>, s: A.Step)
    ensures s in AcceptSteps(steps) <==> Accepting(s) in steps
  {
    if steps != [] {
      AcceptStepsAre(steps[1..], s);
      assert steps == [steps[0]] + steps[1..];
    }
  }

  /** The rest of the system does not touch the tables. */
  lemma {:induction false} Projected(cfg: R.Config, w: World, steps: seq<Step>)
    requires Legal(cfg, w, steps)
    ensures A.Legal(w.db, AcceptSteps(steps)) && A.After(w.db, AcceptSteps(steps)) == After(cfg, w, steps).db
    decreases |steps|
  {
    hide A.Enabled, A.Apply, R.Enabled, R.Apply, D.Enabled, D.Apply, F.Enabled, F.Apply;
    if steps != [] {
      var rest := AcceptSteps(steps[1..]);
      Projected(cfg, Apply(cfg, w, steps[0]), steps[1..]);
      if steps[0].Accepting? {
        assert ([steps[0].accept] + rest)[0] == steps[0].accept && ([steps[0].accept] + rest)[1..] == rest;
      } else {
        assert [] + rest == rest;
      }
    }
  }

  /** Whatever reaches a socket was sent by a client: the event carries the
      room, the client message id and the payload of a request some session of
      the run began with, and the identifier and time of its insert. */
  lemma FromSenderToSocket(cfg: R.Config, w: World, steps: seq<Step>, c: F.ConnId, i: nat)
    requires Init(w) && Legal(cfg, w, steps)
    requires c in After(cfg, w, steps).front.queues && i < |After(cfg, w, steps).front.queues[c]|
    ensures var e := After(cfg, w, steps).front.queues[c][i];
            exists t, client, request, id, now ::
              && Accepting(A.Begin(t, client, request)) in steps && Accepting(A.Insert(t, id, now)) in steps
              && e == Event(1, id, request.clientMessageID, request.roomID, e.roomSeq, now, request.payload)
  {
    NoCreation(cfg, w, steps, c, i);
    Projected(cfg, w, steps);
    var x, accepts := After(cfg, w, steps), AcceptSteps(steps);
    var e := x.front.queues[c][i];
    var slot := A.Slot(e.roomID, e.roomSeq);
    P.RowsComeFromRequests(w.db, accepts, slot);
    var m, o := x.db.tables.messages[slot], x.db.tables.outbox[slot];
    hide Legal, After, A.Legal, A.After, AcceptSteps, Init;
    var t, client, request, id, now :|
      P.Ran(accepts, t, client, request, id, now) && P.RowsOf(slot, m, o, client, request, id, now);
    AcceptStepsAre(steps, A.Begin(t, client, request));
    AcceptStepsAre(steps, A.Insert(t, id, now));
  }

  /** In any run, the step that makes a queue longer adds one committed
      message, and the connection is a member of its room at that moment. */
  lemma QueueGrowsByMembership(cfg: R.Config, w: World, steps: seq<Step>, step: Step, c: F.ConnId)
    requires Init(w) && Legal(cfg, w, steps) && Enabled(cfg, After(cfg, w, steps), step)
    requires c in After(cfg, w, steps).front.queues
    ensures var x := After(cfg, w, steps);
            var y := Apply(cfg, x, step);
            && c in y.front.queues
            && (y.front.queues[c] == x.front.queues[c]
                || (step.Fanning? && step.fan.Receive? && exists e, client ::
                      && y.front.queues[c] == x.front.queues[c] + [e]
                      && IsMessage(x.db.tables, e)
                      && client in H.MembersOf(F.HubOf(x.front, step.fan.inst), e.roomID)
                      && H.MembersOf(F.HubOf(x.front, step.fan.inst), e.roomID)[client] == c))
  {
    hide IsMessage, R.Inv, R.CommittedEvent, A.TablesOk, F.Inv;
    InitInv(cfg, w);
    RunInv(cfg, w, steps);
    var x := After(cfg, w, steps);
    if step.Fanning? && step.fan.Receive? {
      ReceivedIsMessage(cfg, x, step.fan, c);
    }
  }

  /** In every state of every run: what stands at an instance's cursor is a
      committed message, and if the instance has members of its room, a receive
      step for any of them can be taken, up to all; then exactly the served
      connections' queues grow, each by exactly that message.  Without members
      the message is passed over. */
  lemma DispatchReaches(cfg: R.Config, w: World, steps: seq<Step>, inst: string, served: set<string>)
    requires Init(w) && Legal(cfg, w, steps)
    requires F.CursorOf(After(cfg, w, steps).front, inst) < |D.ChannelAt(After(cfg, w, steps).delivery.channels, inst)|
    requires var f := After(cfg, w, steps).front;
             var m := D.ChannelAt(After(cfg, w, steps).delivery.channels, inst)[F.CursorOf(f, inst)];
             served <= if m.value.Encoded? then H.MembersOf(F.HubOf(f, inst), m.value.event.roomID).Keys else {}
    ensures var x := After(cfg, w, steps);
            var m := D.ChannelAt(x.delivery.channels, inst)[F.CursorOf(x.front, inst)];
            && m.value.Encoded? && IsMessage(x.db.tables, m.value.event)
            && Enabled(cfg, x, Fanning(F.Receive(inst, served)))
            && F.Delivered(x.front, Apply(cfg, x, Fanning(F.Receive(inst, served))).front, inst, served, m.value.event)
  {
    hide Legal, After, Inv, Init, D.Inv, R.Inv, A.Inv, F.Inv;
    InitInv(cfg, w);
    RunInv(cfg, w, steps);
    var x := After(cfg, w, steps);
    AtCursor(cfg, x, inst);
    var e := D.ChannelAt(x.delivery.channels, inst)[F.CursorOf(x.front, inst)].value.event;
    hide IsMessage, F.Apply, F.Enabled, F.Delivered, ValidateEvent;
    F.ReceiveDelivers(x.delivery.channels, x.front, inst, served, e);
  }

  lemma AtCursor(cfg: R.Config, x: World, inst: string)
    requires Inv(cfg, x) && F.CursorOf(x.front, inst) < |D.ChannelAt(x.delivery.channels, inst)|
    ensures var m := D.ChannelAt(x.delivery.channels, inst)[F.CursorOf(x.front, inst)];
            && m.value.Encoded? && m == D.Envelope(m.value.event.roomID, Encoded(m.value.event))
            && ValidateEvent(m.value.event).Valid? && IsMessage(x.db.tables, m.value.event)
  {
    hide R.Inv, F.Inv, ValidateEvent;
    var m := D.ChannelAt(x.delivery.channels, inst)[F.CursorOf(x.front, inst)];
    assert D.EnvelopeOk(x.db.tables.outbox, m);
    var e := m.value.event;
    CommittedIsMessage(x.db.tables, e);
    var slot := A.Slot(e.roomID, e.roomSeq);
    assert A.RowsMatch(slot, x.db.tables.messages[slot], x.db.tables.outbox[slot]);
  }

  lemma ReceivedIsMessage(cfg: R.Config, x: World, fan: F.Step, c: F.ConnId)
    requires Inv(cfg, x) && fan.Receive? && F.Enabled(x.delivery.channels, x.front, fan) && c in x.front.queues
    ensures var f' := F.Apply(x.delivery.channels, x.front, fan);
            && c in f'.queues
            && (f'.queues[c] == x.front.queues[c]
                || exists e, client ::
                     && f'.queues[c] == x.front.queues[c] + [e]
                     && IsMessage(x.db.tables, e)
                     && client in H.MembersOf(F.HubOf(x.front, fan.inst), e.roomID)
                     && H.MembersOf(F.HubOf(x.front, fan.inst), e.roomID)[client] == c)
  {
    hide F.Enabled, F.Apply, IsMessage, R.Inv, R.CommittedEvent, A.TablesOk, F.Inv;
    F.ReceiveEffect(x.db.tables.outbox, x.delivery.channels, x.front, fan, c);
    var q, q' := x.front.queues[c], F.Apply(x.delivery.channels, x.front, fan).queues[c];
    if q' != q {
      var e, client :| q' == q + [e] && R.CommittedEvent(x.db.tables.outbox, e) && client in fan.served
                       && client in H.MembersOf(F.HubOf(x.front, fan.inst), e.roomID)
                       && H.MembersOf(F.HubOf(x.front, fan.inst), e.roomID)[client] == c;
      CommittedIsMessage(x.db.tables, e);
    }
  }

  /** Delivery loses nothing: every offset below a partition's committed one
      was handled successfully, its record sent to every instance presence
      listed. */
  lemma DeliveredBelowCommitted(cfg: R.Config, w: World, steps: seq<Step>, p: nat, m: nat)
    requires Init(w) && Legal(cfg, w, steps)
    requires m < D.CommittedAt(After(cfg, w, steps).delivery, p)
    ensures var x := After(cfg, w, steps);
            && m < |R.LogAt(x.net, p)|
            && exists j :: 0 <= j < |x.delivery.handled|
                 && x.delivery.handled[j].partition == p && x.delivery.handled[j].offset == m
                 && forall name :: name in x.delivery.handled[j].targets ==>
                      D.EnvelopeOf(R.LogAt(x.net, p)[m]) in D.ChannelAt(x.delivery.channels, name)
  {
    InitInv(cfg, w);
    RunInv(cfg, w, steps);
    var x := After(cfg, w, steps);
    D.NothingLost(x.db.tables.outbox, x.net, x.delivery, p, m);
  }

  /** No accepted message blocks its room.  Every committed outbox row passes
      the relay's check, its uuid column prints as the identifier in the
      event, and its record passes the delivery service's checks. */
  lemma NoBlockedRoom(cfg: R.Config, w: World, steps: seq<Step>, slot: A.Slot)
    requires Init(w) && Legal(cfg, w, steps) && slot in After(cfg, w, steps).db.tables.outbox
    ensures var entry := R.EntryOf(slot, After(cfg, w, steps).db.tables.outbox[slot]);
            && R.ValidateEntry(entry).Valid?
            && MessageId.ParseId(entry.messageID).Some?
            && MessageId.FormatId(MessageId.ParseId(entry.messageID).value) == entry.messageID
            && D.Admit(D.EnvelopeOf(R.RecordOf(entry))).Valid?
  {
    hide R.Inv, D.Inv, F.Inv, ValidateEvent, MessageId.FormatId, MessageId.ParseId;
    InitInv(cfg, w);
    RunInv(cfg, w, steps);
    var tb := After(cfg, w, steps).db.tables;
    assert slot in tb.messages.Keys;
    assert A.RowsMatch(slot, tb.messages[slot], tb.outbox[slot]);
    CanonicalParses(tb.outbox[slot].id);
  }

  lemma CanonicalParses(id: string)
    requires MessageId.Canonical(id)
    ensures MessageId.ParseId(id).Some? && MessageId.FormatId(MessageId.ParseId(id).value) == id
  {
    MessageId.CanonicalDecodes(id);
    MessageId.FormatParse(id);
  }
}
