/** Rooms that cannot be published do not starve the others.  With fewer
    failing rooms than the batch size and no new rows, every relay cycle
    publishes at least one row of the other rooms, so these are drained after
    as many cycles as they have pending rows. */
module RelayProgress {
  import opened Contract
  import opened AcceptProtocol
  import opened RelayProtocol
  import opened Relay
  import SoloRelay

  /** Pending rows of rooms that do not fail. */
  function Pending(outbox: map<Slot, OutboxRow>, published: set<Slot>, failing: set<string>): set<Slot>
  {
    set slot | slot in outbox && slot !in published && slot.room !in failing
  }

  /** One uncancelled ProcessBatch, as its contract states it, in which only
      entries of failing rooms may fail; other relays may publish more. */
  ghost predicate Cycle(outbox: map<Slot, OutboxRow>, cfg: Config, failing: set<string>, out: Outside,
                        batch: seq<Entry>, before: set<Slot>, after: set<Slot>)
  {
    && IsBatch(outbox, before, cfg.batchSize, batch)
    && before + PublishedBy(cfg, out, batch) <= after
    && forall i :: 0 <= i < |batch| && batch[i].room !in failing ==> GetsPublished(cfg, out, batch[i])
  }

  lemma {:induction false} RoomHasHead(outbox: map<Slot, OutboxRow>, published: set<Slot>, slot: Slot) returns (head: Slot)
    requires OutboxOk(outbox) && slot in outbox && slot !in published
    ensures IsHead(outbox, published, head) && head.room == slot.room
    decreases slot.number
  {
    if IsHead(outbox, published, slot) {
      head := slot;
    } else {
      var o :| o in outbox && o.room == slot.room && o.number < slot.number && o !in published;
      assert o.number >= 1;
      head := RoomHasHead(outbox, published, o);
    }
  }

  function RoomsOf(batch: seq<Entry>): set<string>
  {
    set i | 0 <= i < |batch| :: batch[i].room
  }

  lemma {:induction false} DistinctRoomsCount(batch: seq<Entry>)
    requires forall i, j :: 0 <= i < j < |batch| ==> batch[i].room != batch[j].room
    ensures |RoomsOf(batch)| == |batch|
  {
    if batch != [] {
      var n := |batch| - 1;
      var init := batch[..n];
      DistinctRoomsCount(init);
      assert RoomsOf(batch) == RoomsOf(init) + {batch[n].room} by {
        forall room | room in RoomsOf(batch)
          ensures room in RoomsOf(init) || room == batch[n].room
        {
          var i :| 0 <= i < |batch| && batch[i].room == room;
          assert i < n ==> init[i] == batch[i];
        }
        forall room | room in RoomsOf(init)
          ensures room in RoomsOf(batch)
        {
          var i :| 0 <= i < |init| && init[i].room == room;
          assert batch[i] == init[i];
        }
      }
      assert batch[n].room !in RoomsOf(init);
    }
  }

  lemma SubsetCount(a: set<string>, b: set<string>)
    requires a <= b
    ensures |a| <= |b|
  {
    assert b == a + (b - a);
  }

  /** Each batch holds at most one row per room. */
  lemma OneRowPerRoom(outbox: map<Slot, OutboxRow>, published: set<Slot>, limit: nat, batch: seq<Entry>)
    requires IsBatch(outbox, published, limit, batch)
    ensures |RoomsOf(batch)| == |batch| <= limit
  {
    SoloRelay.HeadsInDistinctRooms(outbox, published, limit, batch);
    DistinctRoomsCount(batch);
  }

  /** The batch reaches past the failing rooms. */
  lemma BatchHoldsHealthyRoom(outbox: map<Slot, OutboxRow>, published: set<Slot>, limit: nat, failing: set<string>,
                              batch: seq<Entry>) returns (k: nat)
    requires OutboxOk(outbox) && IsBatch(outbox, published, limit, batch) && |failing| < limit
    requires Pending(outbox, published, failing) != {}
    ensures k < |batch| && batch[k].room !in failing
  {
    k := 0;
    if i :| 0 <= i < |batch| && batch[i].room !in failing {
      k := i;
    } else {
      OneRowPerRoom(outbox, published, limit, batch);
      SubsetCount(RoomsOf(batch), failing);
      var slot :| slot in Pending(outbox, published, failing);
      var head := RoomHasHead(outbox, published, slot);
      assert false;
    }
  }

  lemma CycleProgress(outbox: map<Slot, OutboxRow>, cfg: Config, failing: set<string>, out: Outside,
                      batch: seq<Entry>, before: set<Slot>, after: set<Slot>)
    requires OutboxOk(outbox) && |failing| < cfg.batchSize
    requires Cycle(outbox, cfg, failing, out, batch, before, after)
    ensures Pending(outbox, after, failing) <= Pending(outbox, before, failing)
    ensures Pending(outbox, before, failing) != {} ==>
              |Pending(outbox, after, failing)| < |Pending(outbox, before, failing)|
  {
    hide GetsPublished;
    var a, b := Pending(outbox, after, failing), Pending(outbox, before, failing);
    if b != {} {
      var k := BatchHoldsHealthyRoom(outbox, before, cfg.batchSize, failing, batch);
      var slot := SlotOf(batch[k]);
      assert slot in PublishedBy(cfg, out, batch);
      assert slot in b && slot !in a;
      assert b == (b - {slot}) + {slot} && a <= b - {slot};
      SlotsCount(a, b - {slot});
    }
  }

  lemma SlotsCount(a: set<Slot>, b: set<Slot>)
    requires a <= b
    ensures |a| <= |b|
  {
    assert b == a + (b - a);
  }

  /** After as many cycles as the healthy rooms had pending rows, none is left. */
  lemma {:induction false} HealthyRoomsDrain(outbox: map<Slot, OutboxRow>, cfg: Config, failing: set<string>,
                                             outs: seq<Outside>, batches: seq<seq<Entry>>, states: seq<set<Slot>>)
    requires OutboxOk(outbox) && |failing| < cfg.batchSize
    requires |outs| == |batches| == |states| - 1
    requires forall i :: 0 <= i < |batches| ==>
               Cycle(outbox, cfg, failing, outs[i], batches[i], states[i], states[i + 1])
    requires |batches| >= |Pending(outbox, states[0], failing)|
    ensures Pending(outbox, states[|states| - 1], failing) == {}
    decreases |batches|
  {
    hide Cycle, Pending, OutboxOk;
    if |batches| > 0 {
      assert Cycle(outbox, cfg, failing, outs[0], batches[0], states[0], states[1]);
      CycleProgress(outbox, cfg, failing, outs[0], batches[0], states[0], states[1]);
      forall i | 0 <= i < |batches[1..]|
        ensures Cycle(outbox, cfg, failing, outs[1..][i], batches[1..][i], states[1..][i], states[1..][i + 1])
      {
        assert Cycle(outbox, cfg, failing, outs[i + 1], batches[i + 1], states[i + 1], states[i + 2]);
      }
      HealthyRoomsDrain(outbox, cfg, failing, outs[1..], batches[1..], states[1..]);
    }
  }

  /** An uncancelled cycle in which, for every row of the healthy rooms, some
      attempt within the limit is acknowledged and the mark takes effect. */
  ghost predicate Healthy(outbox: map<Slot, OutboxRow>, cfg: Config, failing: set<string>, out: Outside)
  {
    && out.fetched && cfg.batchSize <= out.stop
    && forall slot :: slot in outbox && slot.room !in failing ==> ServesRow(cfg, out, EntryOf(slot, outbox[slot]))
  }

  ghost predicate ServesRow(cfg: Config, out: Outside, e: Entry)
  {
    && ValidateEntry(e).Valid? && !out.mark(e).NotApplied?
    && (exists k :: 0 <= k < cfg.maxRetries && out.attempt(k, e).Acknowledged?)
    && (forall k :: !out.cancelled(k, e))
  }

  lemma HealthyCycle(outbox: map<Slot, OutboxRow>, cfg: Config, failing: set<string>, out: Outside,
                     batch: seq<Entry>, before: set<Slot>, after: set<Slot>)
    requires Healthy(outbox, cfg, failing, out) && IsBatch(outbox, before, cfg.batchSize, batch)
    requires before + PublishedBy(cfg, out, batch[..Begun(out, batch)]) <= after
    ensures Cycle(outbox, cfg, failing, out, batch, before, after)
  {
    hide GetsPublished, ServesRow;
    assert batch[..|batch|] == batch;
    forall i | 0 <= i < |batch| && batch[i].room !in failing
      ensures GetsPublished(cfg, out, batch[i])
    {
      assert batch[i] == EntryOf(SlotOf(batch[i]), outbox[SlotOf(batch[i])]);
      RowGetsPublished(cfg, out, batch[i]);
    }
  }

  lemma RowGetsPublished(cfg: Config, out: Outside, e: Entry)
    requires ServesRow(cfg, out, e)
    ensures GetsPublished(cfg, out, e)
  {
    var k :| 0 <= k < cfg.maxRetries && out.attempt(k, e).Acknowledged?;
    assert Served(cfg, out, e);
  }

  /** The loop of Run over a fixed outbox: cycle after cycle of ProcessBatch,
      and after as many cycles as the healthy rooms had pending rows, all of
      these are published, whatever the failing rooms and other relays do. */
  method RunCycles(relay: Relay, failing: set<string>, outs: seq<Outside>)
    requires relay.Valid() && WorkerOf(relay.net, relay.r).Idle? && |failing| < relay.cfg.batchSize
    requires forall i :: 0 <= i < |outs| ==>
               Healthy(relay.outbox, relay.cfg, failing, outs[i]) && Foreign(relay.outbox, relay.cfg, outs[i], relay.r)
    requires |outs| >= |Pending(relay.outbox, relay.net.published, failing)|
    modifies relay`net, relay`trace, relay`tick
    ensures relay.Valid() && old(relay.trace) <= relay.trace
    ensures Pending(relay.outbox, relay.net.published, failing) == {}
  {
    hide RelayProtocol.Inv, RelayProtocol.Legal, RelayProtocol.After, Pending, IsBatch, PublishedBy, Cycle, Foreign,
         GetsPublished;
    ghost var left := |Pending(relay.outbox, relay.net.published, failing)|;
    for i := 0 to |outs|
      invariant relay.Valid() && old(relay.trace) <= relay.trace && WorkerOf(relay.net, relay.r).Idle?
      invariant Pending(relay.outbox, relay.net.published, failing) == {}
                || |Pending(relay.outbox, relay.net.published, failing)| + i <= left
    {
      ghost var before := relay.net.published;
      var batch, failed, at := relay.ProcessBatch(outs[i]);
      PendingShrinks(relay.outbox, before, at.published, failing);
      HealthyCycle(relay.outbox, relay.cfg, failing, outs[i], batch, at.published, relay.net.published);
      CycleProgress(relay.outbox, relay.cfg, failing, outs[i], batch, at.published, relay.net.published);
    }
  }

  lemma PendingShrinks(outbox: map<Slot, OutboxRow>, before: set<Slot>, after: set<Slot>, failing: set<string>)
    requires before <= after
    ensures |Pending(outbox, after, failing)| <= |Pending(outbox, before, failing)|
  {
    SlotsCount(Pending(outbox, after, failing), Pending(outbox, before, failing));
  }

  /** The bound on failing rooms is needed: with as many failing rooms as the
      batch size, a cycle may publish nothing although another room has a
      pending row, and the next cycle reads the same batch again. */
  lemma FullBatchOfFailuresStarves() returns (outbox: map<Slot, OutboxRow>, cfg: Config, failing: set<string>,
                                              out: Outside, batch: seq<Entry>)
    ensures OutboxOk(outbox) && |failing| == cfg.batchSize
    ensures Cycle(outbox, cfg, failing, out, batch, {}, {})
    ensures Pending(outbox, {}, failing) != {}
  {
    var stuck, waiting := Slot("stuck", 1), Slot("waiting", 1);
    var a := OutboxRow("a", Event(1, "a", "m", "stuck", 1, 1, Document("1")), 1);
    var b := OutboxRow("b", Event(1, "b", "n", "waiting", 1, 2, Document("2")), 2);
    outbox := map[stuck := a, waiting := b];
    cfg := Config(1, 1, _ => 0);
    failing := {"stuck"};
    out := Outside((_, _) => [], true, (_, _) => Lost, (_, _) => false, _ => Applied, 1);
    batch := [EntryOf(stuck, a)];
    assert SlotOf(batch[0]) == stuck && IsHead(outbox, {}, stuck);
    assert !Served(cfg, out, batch[0]);
    assert PublishedBy(cfg, out, batch) == {};
    assert waiting in Pending(outbox, {}, failing);
  }
}
