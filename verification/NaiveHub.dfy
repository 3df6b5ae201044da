/** The naive-scale hubs: one per instance, joined by Redis pub/sub.  A
    published payload gets the next index of its room's log; every instance
    it reaches takes it through a FIFO pipe to the clients its hub holds for
    the room then.  Which instances a message reaches is left open: that
    depends on subscriptions in progress and on the network.

    A send on a closed channel and a second close of a channel are panics. */
module NaiveHub {

  type ClientId = nat
  type Inst = nat

  /** A published message: the room of its channel, its place in that room's
      log, and the payload. */
  datatype Item = Item(room: string, index: nat, payload: string)

  /** `queue` is everything sent on the client's channel. */
  datatype Client = Client(inst: Inst, room: string, queue: seq<Item>, open: bool, registered: bool)

  datatype State = State(
    log: map<string, seq<string>>,
    pipes: map<Inst, seq<Item>>,
    hubs: map<Inst, map<string, set<ClientId>>>,
    clients: map<ClientId, Client>,
    panicked: bool)

  datatype Step =
    | Connect(c: ClientId, inst: Inst, room: string)
    | Register(c: ClientId)
    | Unregister(c: ClientId)
    | Publish(room: string, payload: string, reached: set<Inst>)
    | Deliver(inst: Inst)

  function LogOf(s: State, room: string): seq<string>
  {
    if room in s.log then s.log[room] else []
  }

  function PipeOf(s: State, inst: Inst): seq<Item>
  {
    if inst in s.pipes then s.pipes[inst] else []
  }

  function HubOf(s: State, inst: Inst): map<string, set<ClientId>>
  {
    if inst in s.hubs then s.hubs[inst] else map[]
  }

  function MembersOf(hub: map<string, set<ClientId>>, room: string): set<ClientId>
  {
    if room in hub then hub[room] else {}
  }

  // ---------- the cases of Run's select ----------

  function AddMember(hub: map<string, set<ClientId>>, room: string, c: ClientId): map<string, set<ClientId>>
  {
    hub[room := MembersOf(hub, room) + {c}]
  }

  /** An emptied room is deleted. */
  function DropMember(hub: map<string, set<ClientId>>, room: string, c: ClientId): map<string, set<ClientId>>
  {
    if MembersOf(hub, room) - {c} == {} then hub - {room} else hub[room := MembersOf(hub, room) - {c}]
  }

  function SendTo(clients: map<ClientId, Client>, members: set<ClientId>, item: Item): map<ClientId, Client>
  {
    map c | c in clients ::
      if c in members && clients[c].open then clients[c].(queue := clients[c].queue + [item]) else clients[c]
  }

  /** Some member's channel is closed already. */
  predicate SendPanics(clients: map<ClientId, Client>, members: set<ClientId>)
  {
    exists c :: c in members && c in clients && !clients[c].open
  }

  predicate Enabled(s: State, step: Step)
  {
    match step
    case Connect(c, _, _) => c !in s.clients
    case Register(c) => c in s.clients
    case Unregister(c) => c in s.clients
    case Publish(_, _, _) => true
    case Deliver(inst) => PipeOf(s, inst) != []
  }

  function Apply(s: State, step: Step): State
    requires Enabled(s, step)
  {
    match step
    case Connect(c, inst, room) => s.(clients := s.clients[c := Client(inst, room, [], true, false)])
    case Register(c) =>
      var x := s.clients[c];
      s.(hubs := s.hubs[x.inst := AddMember(HubOf(s, x.inst), x.room, c)],
         clients := s.clients[c := x.(registered := true)])
    case Unregister(c) =>
      var x := s.clients[c];
      if c !in MembersOf(HubOf(s, x.inst), x.room) then s
      else
        s.(hubs := s.hubs[x.inst := DropMember(HubOf(s, x.inst), x.room, c)],
           clients := s.clients[c := x.(open := false)],
           panicked := s.panicked || !x.open)
    case Publish(room, payload, reached) =>
      var item := Item(room, |LogOf(s, room)|, payload);
      s.(log := s.log[room := LogOf(s, room) + [payload]],
         pipes := map inst | inst in s.pipes.Keys + reached ::
           PipeOf(s, inst) + if inst in reached then [item] else [])
    case Deliver(inst) =>
      var item := PipeOf(s, inst)[0];
      var members := MembersOf(HubOf(s, inst), item.room);
      s.(pipes := s.pipes[inst := PipeOf(s, inst)[1..]],
         clients := SendTo(s.clients, members, item),
         panicked := s.panicked || SendPanics(s.clients, members))
  }

  predicate Init(s: State)
  {
    s == State(map[], map[], map[], map[], false)
  }

  /** No client registers whose channel is closed. */
  predicate RegistersOpen(s: State, step: Step)
  {
    step.Register? && step.c in s.clients ==> s.clients[step.c].open
  }

  /** A socket handler registers the client it made, once. */
  predicate RegistersOnce(s: State, step: Step)
  {
    step.Register? && step.c in s.clients ==> !s.clients[step.c].registered
  }

  // ---------- the invariant ----------

  ghost predicate Rising(q: seq<Item>)
  {
    forall i, j :: 0 <= i < j < |q| ==> q[i].index < q[j].index
  }

  /** The item is what the log of its room holds at its index. */
  predicate InLog(log: seq<string>, item: Item)
  {
    item.index < |log| && log[item.index] == item.payload
  }

  /** Every entry is of this room and stands in its log, and the places rise. */
  ghost predicate IsSubsequence(q: seq<Item>, room: string, log: seq<string>)
  {
    && Rising(q)
    && forall i :: 0 <= i < |q| ==> q[i].room == room && InLog(log, q[i])
  }

  /** The pipe's items are in the log; those of one room rise. */
  ghost predicate PipeOk(s: State, pipe: seq<Item>)
  {
    && (forall i :: 0 <= i < |pipe| ==> InLog(LogOf(s, pipe[i].room), pipe[i]))
    && (forall i, j :: 0 <= i < j < |pipe| && pipe[i].room == pipe[j].room ==> pipe[i].index < pipe[j].index)
  }

  /** The queue comes from the room's log and stays behind the room's items in the pipe. */
  ghost predicate QueueOk(q: seq<Item>, room: string, log: seq<string>, pipe: seq<Item>)
  {
    && IsSubsequence(q, room, log)
    && (forall i, j :: 0 <= i < |q| && 0 <= j < |pipe| && pipe[j].room == room ==> q[i].index < pipe[j].index)
  }

  ghost predicate ClientOk(s: State, x: Client)
  {
    QueueOk(x.queue, x.room, LogOf(s, x.room), PipeOf(s, x.inst))
  }

  ghost predicate Ordered(s: State)
  {
    && (forall inst :: inst in s.pipes ==> PipeOk(s, s.pipes[inst]))
    && (forall c :: c in s.clients ==> ClientOk(s, s.clients[c]))
  }

  /** Hubs hold each client under its own room and instance, registered and open. */
  ghost predicate Placed(s: State)
  {
    && (forall inst, room, c :: c in MembersOf(HubOf(s, inst), room) ==>
          && c in s.clients && s.clients[c].inst == inst && s.clients[c].room == room
          && s.clients[c].registered)
  }

  ghost predicate Open(s: State)
  {
    && !s.panicked
    && (forall inst, room, c :: c in MembersOf(HubOf(s, inst), room) && c in s.clients ==> s.clients[c].open)
    && (forall c :: c in s.clients && !s.clients[c].open ==> s.clients[c].registered)
  }

  lemma PublishPipe(s: State, s': State, pipe: seq<Item>, item: Item)
    requires PipeOk(s, pipe) && (forall r :: LogOf(s, r) <= LogOf(s', r))
    requires item.index == |LogOf(s, item.room)| && InLog(LogOf(s', item.room), item)
    ensures PipeOk(s', pipe) && PipeOk(s', pipe + [item])
  {
    forall i | 0 <= i < |pipe|
      ensures InLog(LogOf(s', pipe[i].room), pipe[i])
    {
      assert InLog(LogOf(s, pipe[i].room), pipe[i]);
      assert LogOf(s, pipe[i].room) <= LogOf(s', pipe[i].room);
    }
  }

  lemma PublishQueue(q: seq<Item>, room: string, log: seq<string>, log': seq<string>, pipe: seq<Item>, item: Item)
    requires QueueOk(q, room, log, pipe) && log <= log' && (item.room == room ==> item.index == |log|)
    ensures QueueOk(q, room, log', pipe) && QueueOk(q, room, log', pipe + [item])
  {
    forall i | 0 <= i < |q|
      ensures InLog(log', q[i])
    {
      assert InLog(log, q[i]);
    }
  }

  lemma PublishOrdered(s: State, step: Step)
    requires Ordered(s) && step.Publish?
    ensures Ordered(Apply(s, step))
  {
    hide PipeOk, QueueOk;
    var s' := Apply(s, step);
    var item := Item(step.room, |LogOf(s, step.room)|, step.payload);
    assert forall r :: LogOf(s, r) <= LogOf(s', r);
    forall inst
      ensures PipeOf(s', inst) == if inst in step.reached then PipeOf(s, inst) + [item] else PipeOf(s, inst)
    {
    }
    EmptyPipe(s);
    forall inst | inst in s'.pipes
      ensures PipeOk(s', s'.pipes[inst])
    {
      PublishPipe(s, s', PipeOf(s, inst), item);
    }
    forall c | c in s'.clients
      ensures ClientOk(s', s'.clients[c])
    {
      var x := s.clients[c];
      assert ClientOk(s, x);
      PublishQueue(x.queue, x.room, LogOf(s, x.room), LogOf(s', x.room), PipeOf(s, x.inst), item);
    }
  }

  lemma EmptyPipe(s: State)
    ensures PipeOk(s, [])
  {
  }

  lemma DeliverOrdered(s: State, inst: Inst)
    requires Ordered(s) && Placed(s) && Enabled(s, Deliver(inst))
    ensures Ordered(Apply(s, Deliver(inst)))
  {
    var s' := Apply(s, Deliver(inst));
    var pipe := PipeOf(s, inst);
    var item := pipe[0];
    assert PipeOk(s, pipe);
    forall o | o in s'.pipes
      ensures PipeOk(s', s'.pipes[o])
    {
      assert o != inst ==> PipeOk(s, s.pipes[o]);
      assert o == inst ==> forall i :: 0 <= i < |pipe[1..]| ==> pipe[1..][i] == pipe[i + 1];
    }
    forall c | c in s'.clients
      ensures ClientOk(s', s'.clients[c])
    {
      DeliverClient(s, inst, c);
    }
  }

  /** The head of the pipe is newer than the queue and older than the rest. */
  lemma DeliverQueue(s: State, q: seq<Item>, room: string, pipe: seq<Item>)
    requires QueueOk(q, room, LogOf(s, room), pipe) && PipeOk(s, pipe) && pipe != []
    ensures QueueOk(q, room, LogOf(s, room), pipe[1..])
    ensures pipe[0].room == room ==> QueueOk(q + [pipe[0]], room, LogOf(s, room), pipe[1..])
  {
    assert forall j :: 0 <= j < |pipe[1..]| ==> pipe[1..][j] == pipe[j + 1];
  }

  lemma DeliverClient(s: State, inst: Inst, c: ClientId)
    requires Placed(s) && Enabled(s, Deliver(inst)) && PipeOk(s, PipeOf(s, inst))
    requires c in s.clients && ClientOk(s, s.clients[c])
    ensures ClientOk(Apply(s, Deliver(inst)), Apply(s, Deliver(inst)).clients[c])
  {
    hide QueueOk, PipeOk;
    var s' := Apply(s, Deliver(inst));
    var pipe, x := PipeOf(s, inst), s.clients[c];
    if x.inst == inst {
      DeliverQueue(s, x.queue, x.room, pipe);
    }
    if s'.clients[c] != x {
      assert x.inst == inst && x.room == pipe[0].room;
    }
  }

  lemma EmptyQueue()
    ensures forall room, log, pipe :: QueueOk([], room, log, pipe)
  {
  }

  lemma OthersOrdered(s: State, step: Step)
    requires Ordered(s) && Enabled(s, step) && (step.Connect? || step.Register? || step.Unregister?)
    ensures Ordered(Apply(s, step))
  {
    hide QueueOk;
    EmptyQueue();
    var s' := Apply(s, step);
    forall inst | inst in s'.pipes
      ensures PipeOk(s', s'.pipes[inst])
    {
      assert PipeOk(s, s.pipes[inst]);
    }
    forall c | c in s'.clients
      ensures ClientOk(s', s'.clients[c])
    {
      assert c in s.clients ==> ClientOk(s, s.clients[c]);
    }
  }

  lemma StepPlaced(s: State, step: Step)
    requires Placed(s) && Enabled(s, step)
    ensures Placed(Apply(s, step))
  {
    var s' := Apply(s, step);
    forall inst, room, c | c in MembersOf(HubOf(s', inst), room)
      ensures c in s'.clients && s'.clients[c].inst == inst && s'.clients[c].room == room && s'.clients[c].registered
    {
      assert c in MembersOf(HubOf(s, inst), room) || (step.Register? && c == step.c);
    }
  }

  /** Registering a closed channel is exactly what spoils it. */
  lemma StepOpen(s: State, step: Step)
    requires Placed(s) && Open(s) && Enabled(s, step)
    ensures Open(Apply(s, step)) <==> RegistersOpen(s, step)
  {
    var s' := Apply(s, step);
    if RegistersOpen(s, step) {
      forall inst, room, c | c in MembersOf(HubOf(s', inst), room) && c in s'.clients
        ensures s'.clients[c].open
      {
        assert c in MembersOf(HubOf(s, inst), room) || (step.Register? && c == step.c);
      }
    } else {
      var x := s.clients[step.c];
      assert step.c in MembersOf(HubOf(s', x.inst), x.room) && !s'.clients[step.c].open;
    }
  }

  lemma StepOrdered(s: State, step: Step)
    requires Ordered(s) && Placed(s) && Enabled(s, step)
    ensures Ordered(Apply(s, step))
  {
    match step {
      case Publish(_, _, _) => PublishOrdered(s, step);
      case Deliver(inst) => DeliverOrdered(s, inst);
      case _ => OthersOrdered(s, step);
    }
  }

  // ---------- runs ----------

  predicate Legal(s: State, steps: seq<Step>)
    decreases |steps|
  {
    steps == [] || (Enabled(s, steps[0]) && Legal(Apply(s, steps[0]), steps[1..]))
  }

  function After(s: State, steps: seq<Step>): State
    requires Legal(s, steps)
    decreases |steps|
  {
    if steps == [] then s else After(Apply(s, steps[0]), steps[1..])
  }

  predicate AllRegisterOpen(s: State, steps: seq<Step>)
    requires Legal(s, steps)
    decreases |steps|
  {
    steps == [] || (RegistersOpen(s, steps[0]) && AllRegisterOpen(Apply(s, steps[0]), steps[1..]))
  }

  predicate AllRegisterOnce(s: State, steps: seq<Step>)
    requires Legal(s, steps)
    decreases |steps|
  {
    steps == [] || (RegistersOnce(s, steps[0]) && AllRegisterOnce(Apply(s, steps[0]), steps[1..]))
  }

  lemma {:induction false} RunOrdered(s: State, steps: seq<Step>)
    requires Ordered(s) && Placed(s) && Legal(s, steps)
    ensures Ordered(After(s, steps)) && Placed(After(s, steps))
    decreases |steps|
  {
    hide Ordered, Placed, Apply;
    if steps != [] {
      StepOrdered(s, steps[0]);
      StepPlaced(s, steps[0]);
      RunOrdered(Apply(s, steps[0]), steps[1..]);
    }
  }

  /** A client's queue is a subsequence of its room's publish log: every entry
      is of that room, carries the payload logged at its place, and the places
      rise, so no reordering, no duplicate and no foreign room. */
  lemma QueueIsSubsequence(s: State, steps: seq<Step>, c: ClientId)
    requires Init(s) && Legal(s, steps) && c in After(s, steps).clients
    ensures var e := After(s, steps);
            IsSubsequence(e.clients[c].queue, e.clients[c].room, LogOf(e, e.clients[c].room))
  {
    RunOrdered(s, steps);
    assert ClientOk(After(s, steps), After(s, steps).clients[c]);
  }

  /** Two clients on whatever instances see the messages both have received in
      the same order; and what both have received is of one room. */
  lemma ClientsAgreeOnOrder(s: State, steps: seq<Step>, c: ClientId, d: ClientId, i: nat, j: nat, k: nat, l: nat)
    requires Init(s) && Legal(s, steps) && c in After(s, steps).clients && d in After(s, steps).clients
    requires var p, q := After(s, steps).clients[c].queue, After(s, steps).clients[d].queue;
             i < |p| && j < |p| && k < |q| && l < |q| && p[i] == q[k] && p[j] == q[l]
    ensures i < j <==> k < l
    ensures After(s, steps).clients[c].room == After(s, steps).clients[d].room
  {
    QueueIsSubsequence(s, steps, c);
    QueueIsSubsequence(s, steps, d);
  }

  // ---------- what each step does ----------

  lemma RegisterExact(s: State, c: ClientId, inst: Inst, room: string)
    requires c in s.clients
    ensures var s', x := Apply(s, Register(c)), s.clients[c];
            && MembersOf(HubOf(s', inst), room)
               == MembersOf(HubOf(s, inst), room) + (if inst == x.inst && room == x.room then {c} else {})
            && s'.clients == s.clients[c := x.(registered := true)]
            && s'.log == s.log && s'.pipes == s.pipes && s'.panicked == s.panicked
  {
  }

  lemma UnregisterExact(s: State, c: ClientId, inst: Inst, room: string)
    requires c in s.clients
    ensures var s', x := Apply(s, Unregister(c)), s.clients[c];
            var member := c in MembersOf(HubOf(s, x.inst), x.room);
            && MembersOf(HubOf(s', inst), room)
               == MembersOf(HubOf(s, inst), room) - (if inst == x.inst && room == x.room then {c} else {})
            && s'.clients == (if member then s.clients[c := x.(open := false)] else s.clients)
            && (s'.panicked <==> s.panicked || (member && !x.open))
            && s'.log == s.log && s'.pipes == s.pipes
  {
  }

  /** A payload goes to the end of its room's log and of the pipe of every
      instance it reaches. */
  lemma PublishExact(s: State, room: string, payload: string, reached: set<Inst>, inst: Inst, other: string)
    ensures var s' := Apply(s, Publish(room, payload, reached));
            && LogOf(s', other) == LogOf(s, other) + (if other == room then [payload] else [])
            && PipeOf(s', inst)
               == PipeOf(s, inst) + (if inst in reached then [Item(room, |LogOf(s, room)|, payload)] else [])
            && s'.hubs == s.hubs && s'.clients == s.clients && s'.panicked == s.panicked
  {
  }

  /** The item at the head of an instance's pipe goes, once each, to the members
      its hub holds for the room, and to nobody else. */
  lemma DeliverExact(s: State, inst: Inst, c: ClientId)
    requires PipeOf(s, inst) != [] && c in s.clients
    ensures var s', item := Apply(s, Deliver(inst)), PipeOf(s, inst)[0];
            && PipeOf(s', inst) == PipeOf(s, inst)[1..] && s'.hubs == s.hubs && s'.log == s.log
            && c in s'.clients
            && s'.clients[c] == s.clients[c].(queue := s.clients[c].queue
                 + if c in MembersOf(HubOf(s, inst), item.room) && s.clients[c].open then [item] else [])
  {
  }

  /** In any run that registers no closed channel, a delivery reaches every
      member of the room at that instance, and leaves all others as they were. */
  lemma DeliverReachesMembers(s: State, steps: seq<Step>, inst: Inst, c: ClientId)
    requires Init(s) && Legal(s, steps) && AllRegisterOpen(s, steps)
    requires PipeOf(After(s, steps), inst) != [] && c in After(s, steps).clients
    ensures var x := After(s, steps);
            var item, y := PipeOf(x, inst)[0], Apply(x, Deliver(inst));
            && c in y.clients && !y.panicked
            && y.clients[c].queue
               == x.clients[c].queue + if c in MembersOf(HubOf(x, inst), item.room) then [item] else []
  {
    SafeRun(s, steps);
    RunOrdered(s, steps);
    var x := After(s, steps);
    hide Legal, After, AllRegisterOpen, AlwaysSafe, Ordered;
    DeliverExact(x, inst, c);
    StepOpen(x, Deliver(inst));
  }

  // ---------- panics ----------

  /** It has not panicked, and no client's leaving would make it. */
  predicate Safe(s: State)
  {
    !s.panicked && forall c :: c in s.clients ==> !Apply(s, Unregister(c)).panicked
  }

  predicate AlwaysSafe(s: State, steps: seq<Step>)
    requires Legal(s, steps)
    decreases |steps|
  {
    Safe(s) && (steps == [] || AlwaysSafe(Apply(s, steps[0]), steps[1..]))
  }

  /** A closed channel among the members is one leave away from a panic. */
  lemma SafeIsOpen(s: State)
    requires Placed(s)
    ensures Open(s) ==> Safe(s)
    ensures Safe(s) ==> forall inst, room, c :: c in MembersOf(HubOf(s, inst), room) ==> s.clients[c].open
  {
    if Safe(s) {
      forall inst, room, c | c in MembersOf(HubOf(s, inst), room)
        ensures s.clients[c].open
      {
        assert !Apply(s, Unregister(c)).panicked;
      }
    }
  }

  lemma {:induction false} SafeRun(s: State, steps: seq<Step>)
    requires Placed(s) && Open(s) && Legal(s, steps)
    ensures AlwaysSafe(s, steps) <==> AllRegisterOpen(s, steps)
    ensures AllRegisterOpen(s, steps) ==> Open(After(s, steps))
    decreases |steps|
  {
    hide Open, Placed, Safe, Apply, RegistersOpen;
    SafeIsOpen(s);
    if steps != [] {
      var s' := Apply(s, steps[0]);
      StepOpen(s, steps[0]);
      StepPlaced(s, steps[0]);
      if RegistersOpen(s, steps[0]) {
        SafeRun(s', steps[1..]);
      } else {
        ClosedMember(s, steps[0]);
      }
    }
  }

  lemma ClosedMember(s: State, step: Step)
    requires Placed(s) && Enabled(s, step) && !RegistersOpen(s, step)
    ensures !Safe(Apply(s, step))
  {
    var s', x := Apply(s, step), s.clients[step.c];
    assert step.c in MembersOf(HubOf(s', x.inst), x.room) && !s'.clients[step.c].open;
    assert Apply(s', Unregister(step.c)).panicked;
  }

  /** A run is at no point panicked or one leave away from it, if and only if
      no client registers whose channel is closed; then no send ever goes to a
      closed channel and no channel is closed twice. */
  lemma NoPanicExactly(s: State, steps: seq<Step>)
    requires Init(s) && Legal(s, steps)
    ensures AlwaysSafe(s, steps) <==> AllRegisterOpen(s, steps)
    ensures AllRegisterOpen(s, steps) ==> !After(s, steps).panicked
  {
    SafeRun(s, steps);
  }

  lemma {:induction false} OnceIsOpen(s: State, steps: seq<Step>)
    requires Placed(s) && Open(s) && Legal(s, steps) && AllRegisterOnce(s, steps)
    ensures AllRegisterOpen(s, steps)
    decreases |steps|
  {
    if steps != [] {
      assert RegistersOpen(s, steps[0]);
      StepOpen(s, steps[0]);
      StepPlaced(s, steps[0]);
      hide Open, Placed, Apply;
      OnceIsOpen(Apply(s, steps[0]), steps[1..]);
    }
  }

  /** In particular it does not panic when every client is registered at most
      once, as the socket handler does. */
  lemma NoPanic(s: State, steps: seq<Step>)
    requires Init(s) && Legal(s, steps) && AllRegisterOnce(s, steps)
    ensures !After(s, steps).panicked
  {
    OnceIsOpen(s, steps);
    NoPanicExactly(s, steps);
  }

  /** The condition is needed: registering a client again after it has left
      ends in a send on its closed channel. */
  lemma RegisteringTwicePanics() returns (s: State, steps: seq<Step>)
    ensures Init(s) && Legal(s, steps) && After(s, steps).panicked
  {
    s := State(map[], map[], map[], map[], false);
    var s1 := Apply(s, Connect(0, 0, "a"));
    var s2 := Apply(s1, Register(0));
    var s3 := Apply(s2, Unregister(0));
    var s4 := Apply(s3, Register(0));
    var s5 := Apply(s4, Publish("a", "x", {0}));
    assert 0 in MembersOf(HubOf(s2, 0), "a");
    assert !s3.clients[0].open && !s4.clients[0].open;
    assert 0 in MembersOf(HubOf(s4, 0), "a");
    assert PipeOf(s5, 0) == [Item("a", 0, "x")];
    var s6 := Apply(s5, Deliver(0));
    assert s6.panicked;
    Prepend(s5, s6, Deliver(0), []);
    steps := [Deliver(0)];
    Prepend(s4, s5, Publish("a", "x", {0}), steps);
    steps := [Publish("a", "x", {0})] + steps;
    Prepend(s3, s4, Register(0), steps);
    steps := [Register(0)] + steps;
    Prepend(s2, s3, Unregister(0), steps);
    steps := [Unregister(0)] + steps;
    Prepend(s1, s2, Register(0), steps);
    steps := [Register(0)] + steps;
    Prepend(s, s1, Connect(0, 0, "a"), steps);
    steps := [Connect(0, 0, "a")] + steps;
  }

  lemma Prepend(s: State, s': State, step: Step, steps: seq<Step>)
    requires Enabled(s, step) && s' == Apply(s, step) && Legal(s', steps)
    ensures Legal(s, [step] + steps) && After(s, [step] + steps) == After(s', steps)
  {
    assert ([step] + steps)[0] == step && ([step] + steps)[1..] == steps;
  }
}
