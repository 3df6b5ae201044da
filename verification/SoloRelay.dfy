/** With a single relay process, restarted as often as it likes, a room's part
    of the topic climbs from 1 in steps of 0 or 1: duplicates may appear, gaps
    and regressions may not.  created_at plays no part in it. */
module SoloRelay {
  import opened Contract
  import opened AcceptProtocol
  import opened RelayProtocol

  /** The numbers of one room in the order they lie in a partition. */
  function RoomNumbers(log: seq<Record>, room: string): seq<int>
  {
    if log == [] then []
    else
      var record := log[|log| - 1];
      RoomNumbers(log[..|log| - 1], room)
      + if record.key == room && record.value.Encoded? then [record.value.event.roomSeq] else []
  }

  function Top(numbers: seq<int>): int
  {
    if numbers == [] then 0 else numbers[|numbers| - 1]
  }

  /** Starts at 1 and rises by 0 or 1 at every step. */
  ghost predicate Climbs(numbers: seq<int>)
  {
    && (numbers != [] ==> numbers[0] == 1)
    && forall i :: 0 <= i < |numbers| - 1 ==> numbers[i] <= numbers[i + 1] <= numbers[i] + 1
  }

  function RoomLog(cfg: Config, n: Net, room: string): seq<int>
  {
    RoomNumbers(LogAt(n, cfg.place(room)), room)
  }

  /** The top of a room's log is its highest published number or the one after. */
  ghost predicate RoomOk(cfg: Config, n: Net, room: string)
  {
    NumbersOk(RoomLog(cfg, n, room), n.published, room)
  }

  ghost predicate NumbersOk(numbers: seq<int>, published: set<Slot>, room: string)
  {
    && Climbs(numbers) && Top(numbers) >= 0
    && (forall m :: Slot(room, m) in published ==> m <= Top(numbers))
    && (forall m :: 1 <= m < Top(numbers) ==> Slot(room, m) in published)
  }

  /** What is still to be done in the relay's batch is pending, one entry per room. */
  ghost predicate SoloWorker(cfg: Config, n: Net, w: Worker)
  {
    && (!w.Idle? ==>
          && (forall i :: w.at <= i < |w.batch| ==> SlotOf(w.batch[i]) !in n.published)
          && (forall i, j :: 0 <= i < j < |w.batch| ==> w.batch[i].room != w.batch[j].room))
    && (w.Acked? ==> AtEntry(w) && w.batch[w.at].number <= Top(RoomLog(cfg, n, w.batch[w.at].room)))
  }

  ghost predicate Solo(cfg: Config, n: Net, r: RelayId)
  {
    && n.workers.Keys <= {r}
    && SoloWorker(cfg, n, WorkerOf(n, r))
    && (forall room :: RoomOk(cfg, n, room))
  }

  lemma InitSolo(cfg: Config, n: Net, r: RelayId)
    requires RelayProtocol.Init(n)
    ensures Solo(cfg, n, r)
  {
  }

  lemma HeadsInDistinctRooms(outbox: map<Slot, OutboxRow>, published: set<Slot>, limit: nat, batch: seq<Entry>)
    requires IsBatch(outbox, published, limit, batch)
    ensures forall i, j :: 0 <= i < j < |batch| ==> batch[i].room != batch[j].room
  {
    forall i, j | 0 <= i < j < |batch|
      ensures batch[i].room != batch[j].room
    {
      assert IsHead(outbox, published, SlotOf(batch[i])) && IsHead(outbox, published, SlotOf(batch[j]));
    }
  }

  /** A pending number whose predecessors are published is the top or the next. */
  lemma ClimbsOn(numbers: seq<int>, published: set<Slot>, room: string, m: int)
    requires NumbersOk(numbers, published, room) && m >= 1
    requires Slot(room, m) !in published && Preceded(published, Slot(room, m))
    ensures NumbersOk(numbers + [m], published, room) && Top(numbers + [m]) == m
  {
    assert m > 1 ==> Slot(room, m - 1) in published;
    assert Top(numbers) <= m <= Top(numbers) + 1;
  }

  lemma RoomLogAppend(outbox: map<Slot, OutboxRow>, cfg: Config, n: Net, e: Entry, room: string)
    requires OutboxOk(outbox) && EntryOk(outbox, n.published, e)
    ensures RoomLog(cfg, n.(log := Append(n, cfg.place(e.room), RecordOf(e))), room)
            == RoomLog(cfg, n, room) + if room == e.room then [e.number] else []
  {
    var p := cfg.place(e.room);
    var n' := n.(log := Append(n, p, RecordOf(e)));
    if cfg.place(room) == p {
      var log := LogAt(n', p);
      assert log[..|log| - 1] == LogAt(n, p) && log[|log| - 1] == RecordOf(e);
    }
  }

  /** Appending a pending entry whose predecessors are published. */
  lemma AppendRoom(outbox: map<Slot, OutboxRow>, cfg: Config, n: Net, e: Entry, room: string)
    requires OutboxOk(outbox) && EntryOk(outbox, n.published, e) && SlotOf(e) !in n.published
    requires RoomOk(cfg, n, room)
    ensures RoomOk(cfg, n.(log := Append(n, cfg.place(e.room), RecordOf(e))), room)
    ensures room == e.room ==>
              Top(RoomLog(cfg, n.(log := Append(n, cfg.place(e.room), RecordOf(e))), room)) == e.number
  {
    RoomLogAppend(outbox, cfg, n, e, room);
    hide RoomLog, NumbersOk, Top, Append;
    if room == e.room {
      ClimbsOn(RoomLog(cfg, n, room), n.published, room, e.number);
    }
  }

  lemma SoloFetch(outbox: map<Slot, OutboxRow>, cfg: Config, n: Net, step: RelayProtocol.Step)
    requires Solo(cfg, n, step.r) && step.Fetch? && RelayProtocol.Enabled(outbox, cfg, n, step)
    ensures Solo(cfg, RelayProtocol.Apply(outbox, cfg, n, step), step.r)
  {
    HeadsInDistinctRooms(outbox, n.published, cfg.batchSize, step.batch);
    var n' := RelayProtocol.Apply(outbox, cfg, n, step);
    SameRooms(cfg, n, n');
  }

  /** Rooms are judged by the log and the published rows alone. */
  lemma SameRooms(cfg: Config, n: Net, n': Net)
    requires n'.log == n.log && n'.published == n.published && forall room :: RoomOk(cfg, n, room)
    ensures forall room :: RoomOk(cfg, n', room)
  {
    forall room ensures RoomOk(cfg, n', room) {
      assert RoomOk(cfg, n, room);
    }
  }

  lemma SoloPublish(outbox: map<Slot, OutboxRow>, cfg: Config, n: Net, step: RelayProtocol.Step)
    requires OutboxOk(outbox) && RelayProtocol.Inv(outbox, cfg, n) && Solo(cfg, n, step.r)
    requires step.Publish? && RelayProtocol.Enabled(outbox, cfg, n, step)
    ensures Solo(cfg, RelayProtocol.Apply(outbox, cfg, n, step), step.r)
  {
    hide ValidateEntry, RelayProtocol.PublishedOk, RelayProtocol.LogOk, RoomNumbers, NumbersOk, Climbs, Top, EntryOk, OutboxOk;
    var w := WorkerOf(n, step.r);
    var n' := RelayProtocol.Apply(outbox, cfg, n, step);
    var e := w.batch[w.at];
    assert WorkerOk(outbox, cfg, n, w) && EntryOk(outbox, n.published, e);
    if step.appended {
      var n1 := n.(log := Append(n, cfg.place(e.room), RecordOf(e)));
      forall room
        ensures RoomOk(cfg, n1, room) && (room == e.room ==> Top(RoomLog(cfg, n1, room)) == e.number)
      {
        AppendRoom(outbox, cfg, n, e, room);
      }
      SameRooms(cfg, n1, n');
      assert RoomLog(cfg, n', e.room) == RoomLog(cfg, n1, e.room);
    } else {
      SameRooms(cfg, n, n');
    }
  }

  lemma SoloMark(outbox: map<Slot, OutboxRow>, cfg: Config, n: Net, step: RelayProtocol.Step)
    requires OutboxOk(outbox) && RelayProtocol.Inv(outbox, cfg, n) && Solo(cfg, n, step.r)
    requires step.Mark? && RelayProtocol.Enabled(outbox, cfg, n, step)
    ensures Solo(cfg, RelayProtocol.Apply(outbox, cfg, n, step), step.r)
  {
    hide RelayProtocol.PublishedOk, RelayProtocol.LogOk, RoomNumbers, Climbs;
    var w := WorkerOf(n, step.r);
    var n' := RelayProtocol.Apply(outbox, cfg, n, step);
    var e := w.batch[w.at];
    assert WorkerOk(outbox, cfg, n, w) && EntryOk(outbox, n.published, e);
    MarkOne(outbox, n.published, e);
    forall room ensures RoomOk(cfg, n', room) {
      assert RoomOk(cfg, n, room) && RoomLog(cfg, n', room) == RoomLog(cfg, n, room);
    }
  }

  /** Every step of the only relay keeps it. */
  lemma StepSolo(outbox: map<Slot, OutboxRow>, cfg: Config, n: Net, step: RelayProtocol.Step)
    requires OutboxOk(outbox) && RelayProtocol.Inv(outbox, cfg, n) && Solo(cfg, n, step.r)
    requires RelayProtocol.Enabled(outbox, cfg, n, step)
    ensures Solo(cfg, RelayProtocol.Apply(outbox, cfg, n, step), step.r)
  {
    hide RoomNumbers, NumbersOk, Climbs, Top, OutboxOk, ValidateEntry, IsBatch;
    match step {
      case Fetch(_, _) => SoloFetch(outbox, cfg, n, step);
      case Publish(_, _, _) => SoloPublish(outbox, cfg, n, step);
      case Mark(_) => SoloMark(outbox, cfg, n, step);
      case _ => SameRooms(cfg, n, RelayProtocol.Apply(outbox, cfg, n, step));
    }
  }

  // ---------- read off the log itself ----------

  predicate IsOf(record: Record, room: string)
  {
    record.key == room && record.value.Encoded?
  }

  lemma {:induction false} NumbersPrefix(log: seq<Record>, n: nat, room: string)
    requires n <= |log|
    ensures RoomNumbers(log[..n], room) <= RoomNumbers(log, room)
    decreases |log|
  {
    if n == |log| {
      assert log[..n] == log;
    } else {
      var init := log[..|log| - 1];
      assert init[..n] == log[..n];
      NumbersPrefix(init, n, room);
    }
  }

  lemma NumbersNext(log: seq<Record>, n: nat, room: string)
    requires n < |log|
    ensures RoomNumbers(log[..n + 1], room)
            == RoomNumbers(log[..n], room) + if IsOf(log[n], room) then [log[n].value.event.roomSeq] else []
  {
    assert log[..n + 1][..n] == log[..n] && log[..n + 1][n] == log[n];
  }

  lemma {:induction false} NumbersSkip(log: seq<Record>, a: nat, b: nat, room: string)
    requires a <= b <= |log| && forall k :: a <= k < b ==> !IsOf(log[k], room)
    ensures RoomNumbers(log[..b], room) == RoomNumbers(log[..a], room)
    decreases b
  {
    if a < b {
      NumbersSkip(log, a, b - 1, room);
      NumbersNext(log, b - 1, room);
    }
  }

  /** In the partition itself: the first record of a room is number 1, and from
      one record of the room to its next one the number stays or rises by one. */
  ghost predicate LogClimbs(log: seq<Record>, room: string)
  {
    && (forall i :: 0 <= i < |log| && IsOf(log[i], room) && (forall k :: 0 <= k < i ==> !IsOf(log[k], room)) ==>
          log[i].value.event.roomSeq == 1)
    && (forall i, j :: 0 <= i < j < |log| && IsOf(log[i], room) && IsOf(log[j], room)
                       && (forall k :: i < k < j ==> !IsOf(log[k], room)) ==>
          log[i].value.event.roomSeq <= log[j].value.event.roomSeq <= log[i].value.event.roomSeq + 1)
  }

  lemma FirstInLog(log: seq<Record>, room: string, i: nat)
    requires Climbs(RoomNumbers(log, room)) && i < |log| && IsOf(log[i], room)
    requires forall k :: 0 <= k < i ==> !IsOf(log[k], room)
    ensures log[i].value.event.roomSeq == 1
  {
    NumbersSkip(log, 0, i, room);
    NumbersNext(log, i, room);
    NumbersPrefix(log, i + 1, room);
    assert log[..0] == [] && RoomNumbers([], room) == [];
    hide RoomNumbers;
    assert [] + [log[i].value.event.roomSeq] == [log[i].value.event.roomSeq] <= RoomNumbers(log, room);
    assert RoomNumbers(log, room)[0] == log[i].value.event.roomSeq;
  }

  lemma NextInLog(log: seq<Record>, room: string, i: nat, j: nat)
    requires Climbs(RoomNumbers(log, room)) && i < j < |log| && IsOf(log[i], room) && IsOf(log[j], room)
    requires forall k :: i < k < j ==> !IsOf(log[k], room)
    ensures log[i].value.event.roomSeq <= log[j].value.event.roomSeq <= log[i].value.event.roomSeq + 1
  {
    hide RoomNumbers;
    NumbersNext(log, i, room);
    NumbersSkip(log, i + 1, j, room);
    NumbersNext(log, j, room);
    NumbersPrefix(log, j + 1, room);
    var numbers, before := RoomNumbers(log, room), RoomNumbers(log[..i], room);
    Neighbours(before, log[i].value.event.roomSeq, log[j].value.event.roomSeq, numbers);
    assert numbers[|before|] <= numbers[|before| + 1] <= numbers[|before|] + 1;
  }

  lemma Neighbours(a: seq<int>, x: int, y: int, whole: seq<int>)
    requires a + [x] + [y] <= whole
    ensures |whole| > |a| + 1 && whole[|a|] == x && whole[|a| + 1] == y
  {
    assert (a + [x] + [y])[|a|] == x && (a + [x] + [y])[|a| + 1] == y;
  }

  lemma ClimbsInLog(log: seq<Record>, room: string)
    requires Climbs(RoomNumbers(log, room))
    ensures LogClimbs(log, room)
  {
    hide Climbs, RoomNumbers;
    forall i | 0 <= i < |log| && IsOf(log[i], room) && (forall k :: 0 <= k < i ==> !IsOf(log[k], room))
      ensures log[i].value.event.roomSeq == 1
    {
      FirstInLog(log, room, i);
    }
    forall i, j | 0 <= i < j < |log| && IsOf(log[i], room) && IsOf(log[j], room)
                  && (forall k :: i < k < j ==> !IsOf(log[k], room))
      ensures log[i].value.event.roomSeq <= log[j].value.event.roomSeq <= log[i].value.event.roomSeq + 1
    {
      NextInLog(log, room, i, j);
    }
  }
}
