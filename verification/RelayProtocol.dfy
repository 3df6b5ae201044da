/** The outbox relay as a protocol: any number of relay processes read the
    heads of the pending rooms, publish them to Kafka and mark them published,
    one entry after the other.  A publish may append without being
    acknowledged, a mark may fail or take effect unnoticed, and a relay may
    die and start again at any point. */
module RelayProtocol {
  import opened Contract
  import opened AcceptProtocol

  type RelayId = nat

  /** postgres.Entry: a row as NextPending reads it. */
  datatype Entry = Entry(messageID: IdText, room: string, number: int, value: Doc)

  /** A Kafka record. */
  datatype Record = Record(key: string, value: Doc)

  /** What a relay process knows: it is between batches, or at one entry of a
      batch after some failed attempts, or its publish was acknowledged and
      the mark is due. */
  datatype Worker =
    | Idle
    | Publishing(batch: seq<Entry>, at: nat, attempts: nat)
    | Acked(batch: seq<Entry>, at: nat)

  /** `published` is the set of outbox rows whose published_at is set; `log`
      holds the partitions of the topic. */
  datatype Net = Net(published: set<Slot>, log: map<nat, seq<Record>>, workers: map<RelayId, Worker>)

  /** `place` is the partitioner: a fixed function of the record key. */
  datatype Config = Config(batchSize: nat, maxRetries: nat, place: string -> nat)

  datatype Step =
    | Fetch(r: RelayId, batch: seq<Entry>)
    | Publish(r: RelayId, appended: bool, acked: bool)
    | Skip(r: RelayId)                       // validation, publish or mark failed: next entry
    | Mark(r: RelayId)                       // the update ran; whether the relay learns of it or not
    | Restart(r: RelayId)                    // end of the batch, or a crash

  // ---------- NextPending and validateEntry ----------

  function SlotOf(e: Entry): Slot
  {
    Slot(e.room, e.number)
  }

  function EntryOf(slot: Slot, row: OutboxRow): Entry
  {
    Entry(row.id, slot.room, slot.number, Encoded(row.event))
  }

  function RecordOf(e: Entry): Record
  {
    Record(e.room, e.value)
  }

  /** Pending, with no earlier pending row of the same room. */
  predicate IsHead(outbox: map<Slot, OutboxRow>, published: set<Slot>, slot: Slot)
  {
    && slot in outbox && slot !in published
    && forall o :: o in outbox && o.room == slot.room && o.number < slot.number ==> o in published
  }

  /** What NextPending returns: the heads with the earliest created_at, at
      most `limit` of them, in that order. */
  ghost predicate IsBatch(outbox: map<Slot, OutboxRow>, published: set<Slot>, limit: nat, batch: seq<Entry>)
  {
    && |batch| <= limit
    && (forall i :: 0 <= i < |batch| ==>
          IsHead(outbox, published, SlotOf(batch[i])) && batch[i] == EntryOf(SlotOf(batch[i]), outbox[SlotOf(batch[i])]))
    && (forall i, j :: 0 <= i < j < |batch| ==>
          && SlotOf(batch[i]) != SlotOf(batch[j])
          && outbox[SlotOf(batch[i])].createdAt <= outbox[SlotOf(batch[j])].createdAt)
    && (forall slot :: IsHead(outbox, published, slot) ==>
          || EntryOf(slot, outbox[slot]) in batch
          || (|batch| == limit
              && forall i :: 0 <= i < |batch| ==> outbox[SlotOf(batch[i])].createdAt <= outbox[slot].createdAt))
  }

  function ValidateEntry(e: Entry): Checked
  {
    match Decode(e.value)
    case None => Invalid("decode event")
    case Some(event) =>
      var checked := ValidateEvent(event);
      if !checked.Valid? then checked
      else if event.messageID != e.messageID || event.roomID != e.room || event.roomSeq != e.number then
        Invalid("event fields do not match outbox row")
      else Valid
  }

  /** An entry passes exactly when its value is a valid event with the row's
      own identifier, room and number. */
  lemma EntryPasses(e: Entry)
    ensures ValidateEntry(e).Valid? <==>
              && e.value.Encoded? && ValidateEvent(e.value.event).Valid?
              && e.value.event.messageID == e.messageID && e.value.event.roomID == e.room && e.value.event.roomSeq == e.number
  {
  }

  // ---------- steps ----------

  function LogAt(n: Net, p: nat): seq<Record>
  {
    if p in n.log then n.log[p] else []
  }

  function Append(n: Net, p: nat, record: Record): map<nat, seq<Record>>
  {
    n.log[p := LogAt(n, p) + [record]]
  }

  function WorkerOf(n: Net, r: RelayId): Worker
  {
    if r in n.workers then n.workers[r] else Idle
  }

  predicate AtEntry(w: Worker)
  {
    !w.Idle? && w.at < |w.batch|
  }

  /** The rows MarkPublished updates: those with this message_id still pending. */
  function Marked(outbox: map<Slot, OutboxRow>, published: set<Slot>, id: IdText): set<Slot>
  {
    set slot | slot in outbox && outbox[slot].id == id && slot !in published
  }

  ghost predicate Enabled(outbox: map<Slot, OutboxRow>, cfg: Config, n: Net, step: Step)
  {
    var w := WorkerOf(n, step.r);
    match step
    case Fetch(r, batch) => w.Idle? && IsBatch(outbox, n.published, cfg.batchSize, batch)
    case Publish(r, appended, acked) =>
      && w.Publishing? && AtEntry(w) && w.attempts < cfg.maxRetries
      && ValidateEntry(w.batch[w.at]).Valid?
      && (acked ==> appended)
    case Skip(r) => AtEntry(w)
    case Mark(r) => w.Acked? && AtEntry(w)
    case Restart(r) => true
  }

  function Apply(outbox: map<Slot, OutboxRow>, cfg: Config, n: Net, step: Step): Net
    requires step.Publish? || step.Skip? || step.Mark? ==> AtEntry(WorkerOf(n, step.r))
  {
    var w := WorkerOf(n, step.r);
    match step
    case Fetch(r, batch) => n.(workers := n.workers[r := Publishing(batch, 0, 0)])
    case Publish(r, appended, acked) =>
      var e := w.batch[w.at];
      n.(log := if appended then Append(n, cfg.place(e.room), RecordOf(e)) else n.log,
         workers := n.workers[r :=
           if acked then Acked(w.batch, w.at)
           else Publishing(w.batch, w.at, if w.Publishing? then w.attempts + 1 else 0)])
    case Skip(r) => n.(workers := n.workers[r := Publishing(w.batch, w.at + 1, 0)])
    case Mark(r) =>
      n.(published := n.published + Marked(outbox, n.published, w.batch[w.at].messageID),
         workers := n.workers[r := Publishing(w.batch, w.at + 1, 0)])
    case Restart(r) => n.(workers := n.workers[r := Idle])
  }

  /** One attempt: the record of the entry, under its room's key, goes to the end
      of the room's partition if it was appended, whether the relay learns of
      it or not; nothing else of the topic changes. */
  lemma PublishExact(outbox: map<Slot, OutboxRow>, cfg: Config, n: Net, r: RelayId, appended: bool, acked: bool, p: nat)
    requires Enabled(outbox, cfg, n, Publish(r, appended, acked))
    ensures var e := WorkerOf(n, r).batch[WorkerOf(n, r).at];
            var n' := Apply(outbox, cfg, n, Publish(r, appended, acked));
            && LogAt(n', p) == LogAt(n, p) + (if appended && p == cfg.place(e.room) then [Record(e.room, e.value)] else [])
            && n'.published == n.published
            && WorkerOf(n', r) == (if acked then Acked(WorkerOf(n, r).batch, WorkerOf(n, r).at)
                                   else WorkerOf(n, r).(attempts := WorkerOf(n, r).attempts + 1))
  {
  }

  predicate Init(n: Net)
  {
    n == Net({}, map[], map[])
  }

  // ---------- the invariant ----------

  /** The event is the one in the outbox row of its room and number. */
  predicate CommittedEvent(outbox: map<Slot, OutboxRow>, e: Event)
  {
    Slot(e.roomID, e.roomSeq) in outbox && outbox[Slot(e.roomID, e.roomSeq)].event == e
  }

  /** Every earlier number of the room is published. */
  ghost predicate Preceded(published: set<Slot>, slot: Slot)
  {
    forall m :: 1 <= m < slot.number ==> Slot(slot.room, m) in published
  }

  ghost predicate EntryOk(outbox: map<Slot, OutboxRow>, published: set<Slot>, e: Entry)
  {
    && SlotOf(e) in outbox && e == EntryOf(SlotOf(e), outbox[SlotOf(e)])
    && Preceded(published, SlotOf(e))
  }

  ghost predicate WorkerOk(outbox: map<Slot, OutboxRow>, cfg: Config, n: Net, w: Worker)
  {
    && (!w.Idle? ==> forall i :: 0 <= i < |w.batch| ==> EntryOk(outbox, n.published, w.batch[i]))
    && (w.Acked? ==> AtEntry(w) && RecordOf(w.batch[w.at]) in LogAt(n, cfg.place(w.batch[w.at].room)))
  }

  /** The record at offset i is a committed event under its own room's key,
      and the previous number of the room lies at a smaller offset. */
  ghost predicate RecordOk(outbox: map<Slot, OutboxRow>, log: seq<Record>, i: nat)
    requires i < |log|
  {
    && log[i].value.Encoded?
    && var e := log[i].value.event;
    && CommittedEvent(outbox, e) && log[i].key == e.roomID
    && (e.roomSeq > 1 ==>
          var prev := Slot(e.roomID, e.roomSeq - 1);
          prev in outbox && RecordOf(EntryOf(prev, outbox[prev])) in log[..i])
  }

  ghost predicate LogOk(outbox: map<Slot, OutboxRow>, cfg: Config, n: Net)
  {
    forall p, i :: p in n.log && 0 <= i < |n.log[p]| ==>
      RecordOk(outbox, n.log[p], i) && cfg.place(n.log[p][i].key) == p
  }

  ghost predicate PublishedOk(outbox: map<Slot, OutboxRow>, cfg: Config, n: Net)
  {
    forall slot :: slot in n.published ==>
      && slot in outbox
      && Preceded(n.published, slot)
      && RecordOf(EntryOf(slot, outbox[slot])) in LogAt(n, cfg.place(slot.room))
  }

  ghost predicate Inv(outbox: map<Slot, OutboxRow>, cfg: Config, n: Net)
  {
    && PublishedOk(outbox, cfg, n)
    && LogOk(outbox, cfg, n)
    && (forall r :: r in n.workers ==> WorkerOk(outbox, cfg, n, n.workers[r]))
  }

  /** What the relay needs to know about the tables. */
  ghost predicate OutboxOk(outbox: map<Slot, OutboxRow>)
  {
    && (forall slot :: slot in outbox ==>
          && outbox[slot].event.roomID == slot.room && outbox[slot].event.roomSeq == slot.number
          && slot.number >= 1
          && (slot.number > 1 ==> Slot(slot.room, slot.number - 1) in outbox))
    && (forall a, b :: a in outbox && b in outbox && outbox[a].id == outbox[b].id ==> a == b)
  }

  lemma TablesGiveOutbox(tb: Tables)
    requires TablesOk(tb)
    ensures OutboxOk(tb.outbox)
  {
    hide ValidateEvent;
    forall slot | slot in tb.outbox
      ensures slot in tb.messages && RowsMatch(slot, tb.messages[slot], tb.outbox[slot])
    {
      assert slot in tb.messages.Keys;
    }
  }

  /** More committed rows do no harm. */
  lemma OutboxGrows(outbox: map<Slot, OutboxRow>, outbox': map<Slot, OutboxRow>, cfg: Config, n: Net)
    requires Inv(outbox, cfg, n)
    requires forall slot :: slot in outbox ==> slot in outbox' && outbox'[slot] == outbox[slot]
    ensures Inv(outbox', cfg, n)
  {
    forall p, i | p in n.log && 0 <= i < |n.log[p]|
      ensures RecordOk(outbox', n.log[p], i)
    {
      assert RecordOk(outbox, n.log[p], i);
    }
    forall r | r in n.workers
      ensures WorkerOk(outbox', cfg, n, n.workers[r])
    {
      assert WorkerOk(outbox, cfg, n, n.workers[r]);
    }
  }

  // ---------- every step keeps it ----------

  lemma HeadPreceded(outbox: map<Slot, OutboxRow>, published: set<Slot>, slot: Slot)
    requires OutboxOk(outbox) && IsHead(outbox, published, slot)
    ensures Preceded(published, slot)
  {
    forall m | 1 <= m < slot.number
      ensures Slot(slot.room, m) in published
    {
      EarlierRows(outbox, slot, m);
    }
  }

  lemma {:induction false} EarlierRows(outbox: map<Slot, OutboxRow>, slot: Slot, m: int)
    requires OutboxOk(outbox) && slot in outbox && 1 <= m <= slot.number
    ensures Slot(slot.room, m) in outbox
    decreases slot.number - m
  {
    if m < slot.number {
      EarlierRows(outbox, Slot(slot.room, slot.number - 1), m);
    } else {
      assert Slot(slot.room, m) == slot;
    }
  }

  /** Other workers keep their standing when rows are published and records
      are appended. */
  lemma WorkerKept(outbox: map<Slot, OutboxRow>, cfg: Config, n: Net, n': Net, w: Worker)
    requires WorkerOk(outbox, cfg, n, w) && n.published <= n'.published
    requires forall p :: LogAt(n, p) <= LogAt(n', p)
    ensures WorkerOk(outbox, cfg, n', w)
  {
    if !w.Idle? {
      forall i | 0 <= i < |w.batch|
        ensures EntryOk(outbox, n'.published, w.batch[i])
      {
        assert EntryOk(outbox, n.published, w.batch[i]);
      }
    }
  }

  /** Only workers change: the worker r becomes w. */
  lemma WorkerInv(outbox: map<Slot, OutboxRow>, cfg: Config, n: Net, r: RelayId, w: Worker)
    requires Inv(outbox, cfg, n) && WorkerOk(outbox, cfg, n, w)
    ensures Inv(outbox, cfg, n.(workers := n.workers[r := w]))
  {
    var n' := n.(workers := n.workers[r := w]);
    forall o | o in n'.workers
      ensures WorkerOk(outbox, cfg, n', n'.workers[o])
    {
      WorkerKept(outbox, cfg, n, n', n'.workers[o]);
    }
  }

  /** Appending the record of an entry whose predecessors are published. */
  lemma AppendInv(outbox: map<Slot, OutboxRow>, cfg: Config, n: Net, e: Entry)
    requires OutboxOk(outbox) && Inv(outbox, cfg, n) && EntryOk(outbox, n.published, e)
    ensures Inv(outbox, cfg, n.(log := Append(n, cfg.place(e.room), RecordOf(e))))
  {
    var p := cfg.place(e.room);
    var n' := n.(log := Append(n, p, RecordOf(e)));
    forall q ensures LogAt(n, q) <= LogAt(n', q) {
    }
    AppendLog(outbox, cfg, n, e);
    forall o | o in n'.workers
      ensures WorkerOk(outbox, cfg, n', n'.workers[o])
    {
      WorkerKept(outbox, cfg, n, n', n'.workers[o]);
    }
    forall slot | slot in n'.published
      ensures RecordOf(EntryOf(slot, outbox[slot])) in LogAt(n', cfg.place(slot.room))
    {
      assert RecordOf(EntryOf(slot, outbox[slot])) in LogAt(n, cfg.place(slot.room));
    }
  }

  lemma AppendLog(outbox: map<Slot, OutboxRow>, cfg: Config, n: Net, e: Entry)
    requires OutboxOk(outbox) && PublishedOk(outbox, cfg, n) && LogOk(outbox, cfg, n)
    requires EntryOk(outbox, n.published, e)
    ensures LogOk(outbox, cfg, n.(log := Append(n, cfg.place(e.room), RecordOf(e))))
  {
    var p := cfg.place(e.room);
    var n' := n.(log := Append(n, p, RecordOf(e)));
    AppendedRecord(outbox, cfg, n, e);
    forall q, i | q in n'.log && 0 <= i < |n'.log[q]|
      ensures RecordOk(outbox, n'.log[q], i) && cfg.place(n'.log[q][i].key) == q
    {
      if i < |LogAt(n, q)| {
        assert RecordOk(outbox, n.log[q], i) && cfg.place(n.log[q][i].key) == q;
        assert n'.log[q][..i] == n.log[q][..i];
      } else {
        assert q == p;
      }
    }
  }

  lemma AppendedRecord(outbox: map<Slot, OutboxRow>, cfg: Config, n: Net, e: Entry)
    requires OutboxOk(outbox) && PublishedOk(outbox, cfg, n) && EntryOk(outbox, n.published, e)
    ensures var log := LogAt(n, cfg.place(e.room)); RecordOk(outbox, log + [RecordOf(e)], |log|)
  {
    var log := LogAt(n, cfg.place(e.room));
    assert (log + [RecordOf(e)])[..|log|] == log;
    if e.number > 1 {
      var prev := Slot(e.room, e.number - 1);
      assert prev in n.published;
    }
  }

  /** Marking an acknowledged entry publishes its slot and no other. */
  lemma MarkOne(outbox: map<Slot, OutboxRow>, published: set<Slot>, e: Entry)
    requires OutboxOk(outbox) && EntryOk(outbox, published, e)
    ensures published + Marked(outbox, published, e.messageID) == published + {SlotOf(e)}
  {
  }

  lemma MarkInv(outbox: map<Slot, OutboxRow>, cfg: Config, n: Net, e: Entry)
    requires Inv(outbox, cfg, n) && EntryOk(outbox, n.published, e)
    requires RecordOf(e) in LogAt(n, cfg.place(e.room))
    ensures Inv(outbox, cfg, n.(published := n.published + {SlotOf(e)}))
  {
    var n' := n.(published := n.published + {SlotOf(e)});
    forall o | o in n'.workers
      ensures WorkerOk(outbox, cfg, n', n'.workers[o])
    {
      WorkerKept(outbox, cfg, n, n', n'.workers[o]);
    }
  }

  lemma FetchOk(outbox: map<Slot, OutboxRow>, cfg: Config, n: Net, batch: seq<Entry>)
    requires OutboxOk(outbox) && IsBatch(outbox, n.published, cfg.batchSize, batch)
    ensures WorkerOk(outbox, cfg, n, Publishing(batch, 0, 0))
  {
    forall i | 0 <= i < |batch|
      ensures EntryOk(outbox, n.published, batch[i])
    {
      HeadPreceded(outbox, n.published, SlotOf(batch[i]));
    }
  }

  /** Every step of every relay keeps the invariant. */
  lemma StepInv(outbox: map<Slot, OutboxRow>, cfg: Config, n: Net, step: Step)
    requires OutboxOk(outbox) && Inv(outbox, cfg, n) && Enabled(outbox, cfg, n, step)
    ensures Inv(outbox, cfg, Apply(outbox, cfg, n, step))
  {
    hide PublishedOk, LogOk, ValidateEntry, EntryOk, IsBatch, OutboxOk;
    var w := WorkerOf(n, step.r);
    assert WorkerOk(outbox, cfg, n, w);
    match step {
      case Fetch(r, batch) =>
        FetchOk(outbox, cfg, n, batch);
        WorkerInv(outbox, cfg, n, r, Publishing(batch, 0, 0));
      case Publish(r, appended, acked) =>
        PublishInv(outbox, cfg, n, step);
      case Skip(r) =>
        WorkerInv(outbox, cfg, n, r, Publishing(w.batch, w.at + 1, 0));
      case Mark(r) =>
        var e := w.batch[w.at];
        MarkOne(outbox, n.published, e);
        MarkInv(outbox, cfg, n, e);
        var n1 := n.(published := n.published + {SlotOf(e)});
        WorkerKept(outbox, cfg, n, n1, w);
        WorkerInv(outbox, cfg, n1, r, Publishing(w.batch, w.at + 1, 0));
      case Restart(r) =>
        WorkerInv(outbox, cfg, n, r, Idle);
    }
  }

  lemma PublishInv(outbox: map<Slot, OutboxRow>, cfg: Config, n: Net, step: Step)
    requires OutboxOk(outbox) && Inv(outbox, cfg, n) && Enabled(outbox, cfg, n, step) && step.Publish?
    ensures Inv(outbox, cfg, Apply(outbox, cfg, n, step))
  {
    hide PublishedOk, LogOk, ValidateEntry, EntryOk, OutboxOk;
    var w := WorkerOf(n, step.r);
    assert WorkerOk(outbox, cfg, n, w);
    var e := w.batch[w.at];
    var n1 := n;
    if step.appended {
      AppendInv(outbox, cfg, n, e);
      n1 := n.(log := Append(n, cfg.place(e.room), RecordOf(e)));
      WorkerKept(outbox, cfg, n, n1, w);
    }
    var w' := if step.acked then Acked(w.batch, w.at) else Publishing(w.batch, w.at, w.attempts + 1);
    WorkerInv(outbox, cfg, n1, step.r, w');
  }

  // ---------- runs over a fixed outbox ----------

  ghost predicate Legal(outbox: map<Slot, OutboxRow>, cfg: Config, n: Net, steps: seq<Step>)
    decreases |steps|
  {
    steps == [] || (Enabled(outbox, cfg, n, steps[0])
                    && Legal(outbox, cfg, Apply(outbox, cfg, n, steps[0]), steps[1..]))
  }

  function After(outbox: map<Slot, OutboxRow>, cfg: Config, n: Net, steps: seq<Step>): Net
    requires Legal(outbox, cfg, n, steps)
    decreases |steps|
  {
    if steps == [] then n else After(outbox, cfg, Apply(outbox, cfg, n, steps[0]), steps[1..])
  }

  lemma {:induction false} RunInv(outbox: map<Slot, OutboxRow>, cfg: Config, n: Net, steps: seq<Step>)
    requires OutboxOk(outbox) && Inv(outbox, cfg, n) && Legal(outbox, cfg, n, steps)
    ensures Inv(outbox, cfg, After(outbox, cfg, n, steps))
    decreases |steps|
  {
    hide Inv, OutboxOk, IsBatch, ValidateEntry;
    if steps != [] {
      StepInv(outbox, cfg, n, steps[0]);
      RunInv(outbox, cfg, Apply(outbox, cfg, n, steps[0]), steps[1..]);
    }
  }

  lemma {:induction false} RunAppend(outbox: map<Slot, OutboxRow>, cfg: Config, n: Net, a: seq<Step>, b: seq<Step>)
    requires Legal(outbox, cfg, n, a) && Legal(outbox, cfg, After(outbox, cfg, n, a), b)
    ensures Legal(outbox, cfg, n, a + b)
    ensures After(outbox, cfg, n, a + b) == After(outbox, cfg, After(outbox, cfg, n, a), b)
    decreases |a|
  {
    hide IsBatch, ValidateEntry;
    if a == [] {
      assert a + b == b;
    } else {
      assert (a + b)[0] == a[0] && (a + b)[1..] == a[1..] + b;
      RunAppend(outbox, cfg, Apply(outbox, cfg, n, a[0]), a[1..], b);
    }
  }

  lemma {:induction false} LegalAppend(outbox: map<Slot, OutboxRow>, cfg: Config, n: Net,
                                       steps: seq<Step>, step: Step)
    requires Legal(outbox, cfg, n, steps) && Enabled(outbox, cfg, After(outbox, cfg, n, steps), step)
    ensures Legal(outbox, cfg, n, steps + [step])
    ensures After(outbox, cfg, n, steps + [step])
            == Apply(outbox, cfg, After(outbox, cfg, n, steps), step)
    decreases |steps|
  {
    hide IsBatch, ValidateEntry;
    if steps == [] {
      var rest := [step][1..];
      assert rest == [] && steps + [step] == [step];
      assert After(outbox, cfg, Apply(outbox, cfg, n, step), rest) == Apply(outbox, cfg, n, step);
    } else {
      assert (steps + [step])[0] == steps[0] && (steps + [step])[1..] == steps[1..] + [step];
      LegalAppend(outbox, cfg, Apply(outbox, cfg, n, steps[0]), steps[1..], step);
    }
  }

  // ---------- what it means for a room ----------

  /** The highest published number of a room among 1..bound. */
  function PublishedUpTo(published: set<Slot>, room: string, bound: int): int
    requires bound >= 0
  {
    if bound == 0 || Slot(room, bound) in published then bound
    else PublishedUpTo(published, room, bound - 1)
  }

  lemma {:induction false} ClosedIsPrefix(published: set<Slot>, room: string, bound: int)
    requires bound >= 0
    requires forall m :: Slot(room, m) in published ==> 1 <= m <= bound && Preceded(published, Slot(room, m))
    ensures forall m :: Slot(room, m) in published <==> 1 <= m <= PublishedUpTo(published, room, bound)
    decreases bound
  {
    if bound > 0 {
      if Slot(room, bound) in published {
        assert Preceded(published, Slot(room, bound));
      } else {
        ClosedIsPrefix(published, room, bound - 1);
      }
    }
  }

  /** The published rows of a room are exactly the numbers 1..p. */
  lemma PublishedIsPrefix(tb: Tables, cfg: Config, n: Net, room: string)
    requires TablesOk(tb) && Inv(tb.outbox, cfg, n)
    ensures Last(tb, room) >= 0
    ensures var p := PublishedUpTo(n.published, room, Last(tb, room));
            forall m :: Slot(room, m) in n.published <==> 1 <= m <= p
  {
    hide LogOk, WorkerOk, RowsAgree, KeysUnique, IdsUnique;
    forall m | Slot(room, m) in n.published
      ensures 1 <= m <= Last(tb, room) && Preceded(n.published, Slot(room, m))
    {
      assert Slot(room, m) in tb.outbox.Keys;
      assert Slot(room, m) in tb.messages;
    }
    ClosedIsPrefix(n.published, room, Last(tb, room));
  }
}
