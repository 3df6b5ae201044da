/** Store.Accept as a protocol: any number of sessions, on any number of
    message-service instances, running the statements of one acceptance each
    against the same PostgreSQL tables.

    The database runs at READ COMMITTED.  What a transaction has written but
    not committed is kept in its session; the tables hold committed rows only.
    A counter row is locked from the statement that allocates a number to the
    end of the transaction, and an uncommitted row of `messages` holds its
    unique-index entries for as long.  A session that would need an entry held
    by another one waits, which here means that its step is not enabled.

    Any statement may fail, any process may die, and a commit may take effect
    although the client is told that it failed. */
module AcceptProtocol {
  import opened Contract
  import opened MessageId

  type SessionId = nat

  /** A value of a uuid column, as the text PostgreSQL prints for it.  Module
      MessageId shows that printing and parsing are inverse to each other on
      canonical texts. */
  type IdText = string

  /** A position in a room: the columns (room_id, room_seq). */
  datatype Slot = Slot(room: string, number: int)

  /** The columns (client_id, client_message_id). */
  datatype ClientKey = ClientKey(client: string, message: string)

  datatype MessageRow = MessageRow(id: IdText, key: ClientKey, createdAt: int, payload: RawJson)

  datatype OutboxRow = OutboxRow(id: IdText, event: Event, createdAt: int)

  /** Where a session stands between two statements of Accept. */
  datatype Phase =
    | Looking                                // before the first lookup
    | Opening                                // no row; before BEGIN
    | LookingAgain                           // inside the transaction, before the second lookup
    | Rereading(found: Event)                // found inside the transaction; before its COMMIT
    | Allocating                             // before the counter upsert
    | Allocated(number: int)                 // the counter row is locked
    | Inserted(id: IdText, event: Event)       // the message row is written
    | Enqueued(id: IdText, event: Event)       // the outbox row is written
    | Conflicted                             // rolled back after losing the idempotency race
    | Accepted(event: Event)                 // Accept returned the event
    | Failed                                 // Accept returned an error

  datatype Session = Session(client: string, request: SendRequest, phase: Phase)

  /** An accepted frame placed in a client's queue. */
  datatype SentAck = SentAck(client: string, ack: AcceptedAck)

  /** The committed contents of the three tables. */
  datatype Tables = Tables(
    counters: map<string, int>,
    messages: map<Slot, MessageRow>,
    outbox: map<Slot, OutboxRow>)

  datatype Db = Db(tables: Tables, sessions: map<SessionId, Session>, acks: set<SentAck>)

  datatype Step =
    | Begin(t: SessionId, client: string, request: SendRequest)
    | FindHit(t: SessionId, slot: Slot)
    | FindMiss(t: SessionId)
    | OpenTx(t: SessionId)
    | CloseRead(t: SessionId)
    | Allocate(t: SessionId)
    | Insert(t: SessionId, id: IdText, now: int)
    | InsertConflict(t: SessionId)
    | Enqueue(t: SessionId)
    | Commit(t: SessionId, told: bool)
    | Fail(t: SessionId)
    | Crash(t: SessionId)
    | Reply(t: SessionId, enqueued: bool)

  // ---------- reading the state ----------

  function KeyOf(s: Session): ClientKey
  {
    ClientKey(s.client, s.request.clientMessageID)
  }

  function Last(tb: Tables, room: string): int
  {
    if room in tb.counters then tb.counters[room] else 0
  }

  predicate HoldsRoom(s: Session)
  {
    s.phase.Allocated? || s.phase.Inserted? || s.phase.Enqueued?
  }

  /** The session has an uncommitted row of `messages`. */
  predicate HoldsRow(s: Session)
  {
    s.phase.Inserted? || s.phase.Enqueued?
  }

  function NumberOf(s: Session): int
    requires HoldsRoom(s)
  {
    if s.phase.Allocated? then s.phase.number else s.phase.event.roomSeq
  }

  predicate KeyTaken(tb: Tables, key: ClientKey)
  {
    exists slot :: slot in tb.messages && tb.messages[slot].key == key
  }

  predicate IdTaken(tb: Tables, id: IdText)
  {
    exists slot :: slot in tb.messages && tb.messages[slot].id == id
  }

  /** The event Accept builds for a fresh message. */
  function EventFor(s: Session, number: int, id: IdText, now: int): Event
  {
    Event(VERSION, id, s.request.clientMessageID, s.request.roomID, number, now, s.request.payload)
  }

  /** A timestamptz column keeps microseconds. */
  function Micros(nanos: int): int
  {
    nanos - nanos % 1000
  }

  /** findEvent: the event read back from the history row at `slot`. */
  function ReadBack(tb: Tables, slot: Slot): Event
    requires slot in tb.messages
  {
    var row := tb.messages[slot];
    Event(VERSION, row.id, row.key.message, slot.room, slot.number, row.createdAt, row.payload)
  }

  // ---------- steps ----------

  predicate MayFind(p: Phase)
  {
    p.Looking? || p.LookingAgain? || p.Conflicted?
  }

  /** No other transaction holds the counter row of the room. */
  predicate RoomFree(d: Db, t: SessionId, room: string)
  {
    forall o :: o in d.sessions && o != t && HoldsRoom(d.sessions[o]) ==> d.sessions[o].request.roomID != room
  }

  /** No other transaction holds these two index entries of `messages`. */
  predicate RowFree(d: Db, t: SessionId, key: ClientKey, id: IdText)
  {
    forall o :: o in d.sessions && o != t && HoldsRow(d.sessions[o]) ==>
      KeyOf(d.sessions[o]) != key && d.sessions[o].phase.id != id
  }

  predicate SessionEnabled(d: Db, s: Session, step: Step)
  {
    match step
    case Begin(t, client, request) => false
    case FindHit(t, slot) => MayFind(s.phase) && slot in d.tables.messages && d.tables.messages[slot].key == KeyOf(s)
    case FindMiss(t) => MayFind(s.phase) && !KeyTaken(d.tables, KeyOf(s))
    case OpenTx(t) => s.phase.Opening?
    case CloseRead(t) => s.phase.Rereading?
    case Allocate(t) => s.phase.Allocating? && RoomFree(d, t, s.request.roomID)
    case Insert(t, id, now) =>
      && s.phase.Allocated?
      && Canonical(id)
      && ValidateEvent(EventFor(s, s.phase.number, id, now)).Valid?
      && RowFree(d, t, KeyOf(s), id)
      && !KeyTaken(d.tables, KeyOf(s)) && !IdTaken(d.tables, id)
      && Slot(s.request.roomID, s.phase.number) !in d.tables.messages
    case InsertConflict(t) => s.phase.Allocated? && KeyTaken(d.tables, KeyOf(s))
    case Enqueue(t) => s.phase.Inserted? && Slot(s.request.roomID, s.phase.event.roomSeq) !in d.tables.outbox
    case Commit(t, told) => s.phase.Enqueued?
    case Fail(t) => !s.phase.Accepted? && !s.phase.Failed?
    case Crash(t) => true
    case Reply(t, enqueued) => s.phase.Accepted? || s.phase.Failed?
  }

  predicate Enabled(d: Db, step: Step)
  {
    if step.Begin? then
      step.t !in d.sessions
    else
      step.t in d.sessions && SessionEnabled(d, d.sessions[step.t], step)
  }

  function Enter(d: Db, t: SessionId, p: Phase): Db
    requires t in d.sessions
  {
    d.(sessions := d.sessions[t := d.sessions[t].(phase := p)])
  }

  function Leave(d: Db, t: SessionId): Db
  {
    d.(sessions := d.sessions - {t})
  }

  /** A blank client or an invalid request is refused before any statement. */
  predicate RequestOk(client: string, request: SendRequest)
  {
    !Blank(client) && ValidateSend(request).Valid?
  }

  /** The tables once session s, which has written both its rows, commits. */
  function Committed(tb: Tables, s: Session): Tables
    requires s.phase.Enqueued?
  {
    var e := s.phase.event;
    var slot := Slot(s.request.roomID, e.roomSeq);
    Tables(
      tb.counters[slot.room := slot.number],
      tb.messages[slot := MessageRow(s.phase.id, KeyOf(s), Micros(e.createdAt), e.payload)],
      tb.outbox[slot := OutboxRow(s.phase.id, e, Micros(e.createdAt))])
  }

  function Apply(d: Db, step: Step): Db
    requires Enabled(d, step)
  {
    match step
    case Begin(t, client, request) =>
      d.(sessions := d.sessions[t := Session(client, request, if RequestOk(client, request) then Looking else Failed)])
    case FindHit(t, slot) =>
      var e := ReadBack(d.tables, slot);
      Enter(d, t, if d.sessions[t].phase.LookingAgain? then Rereading(e) else Accepted(e))
    case FindMiss(t) =>
      Enter(d, t, match d.sessions[t].phase
        case Looking => Opening
        case LookingAgain => Allocating
        case _ => Failed)
    case OpenTx(t) => Enter(d, t, LookingAgain)
    case CloseRead(t) => Enter(d, t, Accepted(d.sessions[t].phase.found))
    case Allocate(t) => Enter(d, t, Allocated(Last(d.tables, d.sessions[t].request.roomID) + 1))
    case Insert(t, id, now) =>
      var s := d.sessions[t];
      Enter(d, t, Inserted(id, EventFor(s, s.phase.number, id, now)))
    case InsertConflict(t) => Enter(d, t, Conflicted)
    case Enqueue(t) => Enter(d, t, Enqueued(d.sessions[t].phase.id, d.sessions[t].phase.event))
    case Commit(t, told) =>
      var s := d.sessions[t];
      Enter(d.(tables := Committed(d.tables, s)), t, if told then Accepted(s.phase.event) else Failed)
    case Fail(t) => Enter(d, t, Failed)
    case Crash(t) => Leave(d, t)
    case Reply(t, enqueued) =>
      var s := d.sessions[t];
      if s.phase.Accepted? && enqueued && ValidateAccepted(AckFor(s.phase.event)).Valid? then
        Leave(d, t).(acks := d.acks + {SentAck(s.client, AckFor(s.phase.event))})
      else
        Leave(d, t)
  }

  predicate Init(d: Db)
  {
    d == Db(Tables(map[], map[], map[]), map[], {})
  }

  // ---------- the invariant ----------

  /** Both tables hold exactly the numbers 1..last_seq of every room. */
  ghost predicate TablesDense(tb: Tables)
  {
    && tb.outbox.Keys == tb.messages.Keys
    && (forall room :: room in tb.counters ==> tb.counters[room] >= 1)
    && (forall slot :: slot in tb.messages <==> 1 <= slot.number <= Last(tb, slot.room))
  }

  /** The outbox row is the event of the message row. */
  predicate RowsMatch(slot: Slot, m: MessageRow, o: OutboxRow)
  {
    && m.id == o.id && Canonical(m.id)
    && o.event == Event(VERSION, m.id, m.key.message, slot.room, slot.number, o.event.createdAt, m.payload)
    && m.createdAt == o.createdAt == Micros(o.event.createdAt)
    && ValidateEvent(o.event).Valid?
  }

  ghost predicate RowsAgree(tb: Tables)
  {
    forall slot :: slot in tb.messages && slot in tb.outbox ==> RowsMatch(slot, tb.messages[slot], tb.outbox[slot])
  }

  ghost predicate KeysUnique(tb: Tables)
  {
    forall a, b :: (a in tb.messages && b in tb.messages && tb.messages[a].key == tb.messages[b].key) ==> a == b
  }

  ghost predicate IdsUnique(tb: Tables)
  {
    forall a, b :: (a in tb.messages && b in tb.messages && tb.messages[a].id == tb.messages[b].id) ==> a == b
  }

  ghost predicate TablesOk(tb: Tables)
  {
    TablesDense(tb) && RowsAgree(tb) && KeysUnique(tb) && IdsUnique(tb)
  }

  /** A frame or event with these fields repeats the committed row of `key`. */
  ghost predicate Backed(tb: Tables, key: ClientKey, messageID: string, slot: Slot)
  {
    slot in tb.messages && tb.messages[slot].key == key && tb.messages[slot].id == messageID
  }

  ghost predicate AckBacked(tb: Tables, a: SentAck)
  {
    Backed(tb, ClientKey(a.client, a.ack.clientMessageID), a.ack.messageID, Slot(a.ack.roomID, a.ack.roomSeq))
  }

  ghost predicate EventBacked(tb: Tables, s: Session, e: Event)
  {
    && e.clientMessageID == s.request.clientMessageID
    && Backed(tb, KeyOf(s), e.messageID, Slot(e.roomID, e.roomSeq))
  }

  /** What a session may rely on about the tables.  The counter of a room it
      has locked stays put, so the number it took is still the next one; its
      uncommitted row clashes with no committed row; the row it lost the race to
      is there; an event it found or committed is backed by a row. */
  ghost predicate SessionOk(tb: Tables, s: Session)
  {
    && (s.phase.Failed? || RequestOk(s.client, s.request))
    && (HoldsRoom(s) ==> NumberOf(s) == Last(tb, s.request.roomID) + 1)
    && (HoldsRow(s) ==>
          && s.phase.event == EventFor(s, s.phase.event.roomSeq, s.phase.id, s.phase.event.createdAt)
          && Canonical(s.phase.id) && ValidateEvent(s.phase.event).Valid?
          && !KeyTaken(tb, KeyOf(s)) && !IdTaken(tb, s.phase.id))
    && (s.phase.Conflicted? ==> KeyTaken(tb, KeyOf(s)))
    && (s.phase.Rereading? ==> EventBacked(tb, s, s.phase.found))
    && (s.phase.Accepted? ==> EventBacked(tb, s, s.phase.event))
  }

  /** Two sessions never hold the same counter row or the same index entry. */
  predicate Compatible(s: Session, o: Session)
  {
    && (HoldsRoom(s) && HoldsRoom(o) ==> s.request.roomID != o.request.roomID)
    && (HoldsRow(s) && HoldsRow(o) ==> KeyOf(s) != KeyOf(o) && s.phase.id != o.phase.id)
  }

  ghost predicate Inv(d: Db)
  {
    && TablesOk(d.tables)
    && (forall a :: a in d.acks ==> AckBacked(d.tables, a))
    && (forall t :: t in d.sessions ==> SessionOk(d.tables, d.sessions[t]))
    && (forall t, o :: t in d.sessions && o in d.sessions && t != o ==> Compatible(d.sessions[t], d.sessions[o]))
  }

  lemma InitInv(d: Db)
    requires Init(d)
    ensures Inv(d)
  {
  }

  /** The slot a session is about to commit is the next one of its room. */
  lemma CommitDense(tb: Tables, s: Session)
    requires TablesDense(tb) && s.phase.Enqueued? && NumberOf(s) == Last(tb, s.request.roomID) + 1
    ensures TablesDense(Committed(tb, s))
    ensures Slot(s.request.roomID, s.phase.event.roomSeq) !in tb.messages
  {
    var tb' := Committed(tb, s);
    var slot := Slot(s.request.roomID, s.phase.event.roomSeq);
    assert tb'.messages.Keys == tb.messages.Keys + {slot} == tb'.outbox.Keys;
    forall x
      ensures x in tb'.messages <==> 1 <= x.number <= Last(tb', x.room)
    {
      assert x != slot ==> (x in tb'.messages <==> x in tb.messages);
    }
  }

  lemma CommitRows(tb: Tables, s: Session)
    requires TablesOk(tb) && s.phase.Enqueued? && SessionOk(tb, s)
    ensures RowsAgree(Committed(tb, s))
  {
    hide ValidateEvent, Canonical, RequestOk;
    var tb' := Committed(tb, s);
    var slot := Slot(s.request.roomID, s.phase.event.roomSeq);
    assert RowsMatch(slot, tb'.messages[slot], tb'.outbox[slot]);
  }

  lemma CommitUnique(tb: Tables, s: Session)
    requires KeysUnique(tb) && IdsUnique(tb) && s.phase.Enqueued?
    requires !KeyTaken(tb, KeyOf(s)) && !IdTaken(tb, s.phase.id)
    ensures KeysUnique(Committed(tb, s)) && IdsUnique(Committed(tb, s))
  {
  }

  /** A committing session disturbs no session compatible with it. */
  lemma CommitSession(tb: Tables, s: Session, o: Session)
    requires TablesDense(tb) && s.phase.Enqueued? && SessionOk(tb, s)
    requires SessionOk(tb, o) && Compatible(s, o)
    ensures SessionOk(Committed(tb, s), o)
  {
    hide ValidateEvent, Canonical, RequestOk, Micros;
    CommitDense(tb, s);
  }

  lemma CommitAck(tb: Tables, s: Session, a: SentAck)
    requires TablesDense(tb) && s.phase.Enqueued? && NumberOf(s) == Last(tb, s.request.roomID) + 1
    requires AckBacked(tb, a)
    ensures AckBacked(Committed(tb, s), a)
  {
    CommitDense(tb, s);
  }

  lemma CommitSelf(tb: Tables, s: Session)
    requires s.phase.Enqueued? && SessionOk(tb, s)
    ensures SessionOk(Committed(tb, s), s.(phase := Accepted(s.phase.event)))
    ensures SessionOk(Committed(tb, s), s.(phase := Failed))
  {
    hide ValidateEvent, Canonical, RequestOk, KeyTaken, IdTaken, Last;
  }

  lemma FindHitSession(tb: Tables, s: Session, slot: Slot)
    requires SessionOk(tb, s) && MayFind(s.phase) && slot in tb.messages && tb.messages[slot].key == KeyOf(s)
    ensures SessionOk(tb, s.(phase := Rereading(ReadBack(tb, slot))))
    ensures SessionOk(tb, s.(phase := Accepted(ReadBack(tb, slot))))
  {
    hide ValidateEvent, Canonical, RequestOk, KeyTaken, IdTaken, Last;
  }

  /** The session left behind by a step is in order. */
  lemma StepSession(d: Db, step: Step)
    requires Inv(d) && Enabled(d, step) && step.t in Apply(d, step).sessions
    ensures SessionOk(Apply(d, step).tables, Apply(d, step).sessions[step.t])
  {
    hide ValidateEvent, Canonical, RequestOk, KeyTaken, IdTaken, Last, TablesOk, AckBacked, Compatible, Committed, ReadBack;
    if !step.Begin? {
      var s := d.sessions[step.t];
      assert SessionOk(d.tables, s);
      if step.Commit? {
        CommitSelf(d.tables, s);
      } else if step.FindHit? {
        FindHitSession(d.tables, s, step.slot);
      }
    }
  }

  lemma StepCompatible(d: Db, step: Step, o: SessionId)
    requires Enabled(d, step) && step.t in Apply(d, step).sessions
    requires o in d.sessions && o != step.t
    requires step.t in d.sessions ==> Compatible(d.sessions[step.t], d.sessions[o])
    ensures Compatible(Apply(d, step).sessions[step.t], d.sessions[o])
  {
    hide ValidateEvent, Canonical, RequestOk;
  }

  lemma CommitInv(d: Db, t: SessionId, told: bool)
    requires Inv(d) && Enabled(d, Commit(t, told))
    ensures Inv(Apply(d, Commit(t, told)))
  {
    hide ValidateEvent, Canonical, RequestOk;
    var s, tb, d' := d.sessions[t], d.tables, Apply(d, Commit(t, told));
    CommitDense(tb, s);
    CommitRows(tb, s);
    CommitUnique(tb, s);
    forall o | o in d.sessions && o != t ensures SessionOk(d'.tables, d.sessions[o]) {
      CommitSession(tb, s, d.sessions[o]);
    }
    forall a | a in d.acks ensures AckBacked(d'.tables, a) {
      CommitAck(tb, s, a);
    }
    StepSession(d, Commit(t, told));
  }

  lemma ReplaceInv(d: Db, t: SessionId, s: Session)
    requires Inv(d) && SessionOk(d.tables, s)
    requires forall o :: o in d.sessions && o != t ==> Compatible(s, d.sessions[o])
    ensures Inv(d.(sessions := d.sessions[t := s]))
  {
  }

  lemma LeaveInv(d: Db, t: SessionId)
    requires Inv(d)
    ensures Inv(Leave(d, t))
  {
  }

  lemma ReplyInv(d: Db, t: SessionId, enqueued: bool)
    requires Inv(d) && Enabled(d, Reply(t, enqueued))
    ensures Inv(Apply(d, Reply(t, enqueued)))
  {
    LeaveInv(d, t);
    assert SessionOk(d.tables, d.sessions[t]);
  }

  /** Every step of every session keeps the invariant. */
  lemma StepInv(d: Db, step: Step)
    requires Inv(d) && Enabled(d, step)
    ensures Inv(Apply(d, step))
  {
    var d' := Apply(d, step);
    if step.Commit? {
      CommitInv(d, step.t, step.told);
    } else if step.Reply? {
      ReplyInv(d, step.t, step.enqueued);
    } else if step.Crash? {
      LeaveInv(d, step.t);
    } else {
      StepSession(d, step);
      StepCompatibleAll(d, step);
      ReplaceInv(d, step.t, d'.sessions[step.t]);
    }
  }

  lemma StepCompatibleAll(d: Db, step: Step)
    requires Inv(d) && Enabled(d, step) && step.t in Apply(d, step).sessions
    ensures forall o :: o in d.sessions && o != step.t ==> Compatible(Apply(d, step).sessions[step.t], d.sessions[o])
  {
    forall o | o in d.sessions && o != step.t
      ensures Compatible(Apply(d, step).sessions[step.t], d.sessions[o])
    {
      StepCompatible(d, step, o);
    }
  }

  // ---------- runs ----------

  /** The steps can be taken one after the other, starting in d. */
  predicate Legal(d: Db, steps: seq<Step>)
    decreases |steps|
  {
    steps == [] || (Enabled(d, steps[0]) && Legal(Apply(d, steps[0]), steps[1..]))
  }

  function After(d: Db, steps: seq<Step>): Db
    requires Legal(d, steps)
    decreases |steps|
  {
    if steps == [] then d else After(Apply(d, steps[0]), steps[1..])
  }

  lemma OneStep(d: Db, step: Step)
    requires Enabled(d, step)
    ensures Legal(d, [step]) && After(d, [step]) == Apply(d, step)
  {
    hide Enabled, Apply;
    var rest := [step][1..];
    assert rest == [] && Legal(Apply(d, step), rest) && After(Apply(d, step), rest) == Apply(d, step);
  }

  lemma {:induction false} RunAppend(d: Db, a: seq<Step>, b: seq<Step>)
    requires Legal(d, a) && Legal(After(d, a), b)
    ensures Legal(d, a + b) && After(d, a + b) == After(After(d, a), b)
    decreases |a|
  {
    if a == [] {
      assert a + b == b;
    } else {
      assert (a + b)[0] == a[0] && (a + b)[1..] == a[1..] + b;
      RunAppend(Apply(d, a[0]), a[1..], b);
    }
  }

  lemma {:induction false} RunSplit(d: Db, steps: seq<Step>, n: nat)
    requires Legal(d, steps) && n <= |steps|
    ensures Legal(d, steps[..n]) && Legal(After(d, steps[..n]), steps[n..])
    ensures After(After(d, steps[..n]), steps[n..]) == After(d, steps)
    decreases |steps|
  {
    if n == 0 {
      assert steps[..0] == [] && steps[0..] == steps;
    } else {
      RunSplit(Apply(d, steps[0]), steps[1..], n - 1);
      assert steps[..n][1..] == steps[1..][..n - 1] && steps[1..][n - 1..] == steps[n..];
    }
  }

  lemma {:induction false} RunInv(d: Db, steps: seq<Step>)
    requires Inv(d) && Legal(d, steps)
    ensures Inv(After(d, steps))
    decreases |steps|
  {
    if steps != [] {
      StepInv(d, steps[0]);
      RunInv(Apply(d, steps[0]), steps[1..]);
    }
  }

  /** Committed rows never change and never go away. */
  predicate Grows(a: Tables, b: Tables)
  {
    && (forall slot :: slot in a.messages ==> slot in b.messages && b.messages[slot] == a.messages[slot])
    && (forall slot :: slot in a.outbox ==> slot in b.outbox && b.outbox[slot] == a.outbox[slot])
  }

  /** b shows the next number of one room in both tables, and nothing else is new. */
  ghost predicate ShowsNext(a: Tables, b: Tables, room: string)
  {
    var next := Slot(room, Last(a, room) + 1);
    && next !in a.messages
    && b.messages.Keys == a.messages.Keys + {next}
    && b.outbox.Keys == a.outbox.Keys + {next}
    && b.counters == a.counters[room := next.number]
  }

  lemma CommitShowsNext(tb: Tables, s: Session)
    requires TablesDense(tb) && s.phase.Enqueued? && NumberOf(s) == Last(tb, s.request.roomID) + 1
    ensures Grows(tb, Committed(tb, s)) && ShowsNext(tb, Committed(tb, s), s.request.roomID)
  {
    CommitDense(tb, s);
    var next := Slot(s.request.roomID, s.phase.event.roomSeq);
    assert Committed(tb, s).messages.Keys == tb.messages.Keys + {next};
    assert Committed(tb, s).outbox.Keys == tb.outbox.Keys + {next};
    assert next !in tb.outbox.Keys;
  }

  /** Whatever a step makes visible is the next number of one room, in both
      tables at once; committed rows stay as they are. */
  lemma VisibleInOrder(d: Db, step: Step)
    requires Inv(d) && Enabled(d, step)
    ensures Grows(d.tables, Apply(d, step).tables)
    ensures Apply(d, step).tables == d.tables
            || exists room :: ShowsNext(d.tables, Apply(d, step).tables, room)
  {
    hide ValidateEvent, Canonical, RequestOk, Grows, ShowsNext;
    if step.Commit? {
      var s := d.sessions[step.t];
      assert SessionOk(d.tables, s);
      CommitShowsNext(d.tables, s);
    } else {
      GrowsReflexive(d.tables);
    }
  }

  lemma GrowsReflexive(tb: Tables)
    ensures Grows(tb, tb)
  {
  }

  lemma GrowsTransitive(a: Tables, b: Tables, c: Tables)
    requires Grows(a, b) && Grows(b, c)
    ensures Grows(a, c)
  {
  }

  lemma {:induction false} RunGrows(d: Db, steps: seq<Step>)
    requires Inv(d) && Legal(d, steps)
    ensures Grows(d.tables, After(d, steps).tables)
    decreases |steps|
  {
    if steps != [] {
      VisibleInOrder(d, steps[0]);
      StepInv(d, steps[0]);
      RunGrows(Apply(d, steps[0]), steps[1..]);
      GrowsTransitive(d.tables, Apply(d, steps[0]).tables, After(d, steps).tables);
    }
  }

  /** In every state of every run, whatever sessions raced, rolled back,
      crashed or were told the wrong outcome: a room's committed numbers are
      exactly 1..last_seq in both tables, and the two rows of a slot carry the
      same message. */
  lemma GapFree(d: Db, steps: seq<Step>, slot: Slot)
    requires Init(d) && Legal(d, steps)
    ensures var tb := After(d, steps).tables;
            && (slot in tb.messages <==> 1 <= slot.number <= Last(tb, slot.room))
            && (slot in tb.outbox <==> slot in tb.messages)
            && (slot in tb.messages ==>
                  && tb.outbox[slot].id == tb.messages[slot].id == tb.outbox[slot].event.messageID
                  && tb.outbox[slot].event.roomID == slot.room
                  && tb.outbox[slot].event.roomSeq == slot.number
                  && tb.outbox[slot].event.clientMessageID == tb.messages[slot].key.message)
  {
    RunInv(d, steps);
    var tb := After(d, steps).tables;
    assert slot in tb.outbox.Keys <==> slot in tb.messages.Keys;
    if slot in tb.messages {
      assert RowsMatch(slot, tb.messages[slot], tb.outbox[slot]);
    }
  }

  predicate AckOf(a: SentAck, key: ClientKey)
  {
    a.client == key.client && a.ack.clientMessageID == key.message
  }

  /** Idempotency.  A client key has at most one row; every accepted frame
      ever enqueued for it repeats that row, which is committed by then; so
      all accepted frames of one key agree. */
  lemma OneRowPerKey(d: Db, steps: seq<Step>, key: ClientKey)
    requires Init(d) && Legal(d, steps)
    ensures var e := After(d, steps);
            && (forall a, b :: (a in e.tables.messages && b in e.tables.messages
                  && e.tables.messages[a].key == key == e.tables.messages[b].key) ==> a == b)
            && (forall a :: a in e.acks && AckOf(a, key) ==>
                  Backed(e.tables, key, a.ack.messageID, Slot(a.ack.roomID, a.ack.roomSeq)))
            && (forall a, b :: a in e.acks && b in e.acks && AckOf(a, key) && AckOf(b, key) ==>
                  && a.ack.messageID == b.ack.messageID
                  && a.ack.roomID == b.ack.roomID && a.ack.roomSeq == b.ack.roomSeq)
  {
    RunInv(d, steps);
    var e := After(d, steps);
    forall a | a in e.acks && AckOf(a, key)
      ensures Backed(e.tables, key, a.ack.messageID, Slot(a.ack.roomID, a.ack.roomSeq))
    {
      assert AckBacked(e.tables, a);
    }
  }

  /** A retry reads the event back from the history row.  It is the published
      event again exactly when the server clock gave whole microseconds. */
  lemma ReadBackEcho(tb: Tables, slot: Slot)
    requires TablesOk(tb) && slot in tb.messages
    ensures slot in tb.outbox
    ensures ReadBack(tb, slot) == tb.outbox[slot].event <==> tb.outbox[slot].event.createdAt % 1000 == 0
    ensures ReadBack(tb, slot).(createdAt := tb.outbox[slot].event.createdAt) == tb.outbox[slot].event
  {
    assert slot in tb.outbox.Keys;
    assert RowsMatch(slot, tb.messages[slot], tb.outbox[slot]);
  }

  // ---------- no deadlock ----------

  /** Session a cannot move because of session b: it needs the counter row b
      has locked, or an index entry b has taken.  `want` is the identifier
      each session is about to insert. */
  predicate WaitsFor(d: Db, want: SessionId -> IdText, a: SessionId, b: SessionId)
  {
    && a in d.sessions && b in d.sessions && a != b
    && var s, o := d.sessions[a], d.sessions[b];
       || (s.phase.Allocating? && HoldsRoom(o) && s.request.roomID == o.request.roomID)
       || (s.phase.Allocated? && HoldsRow(o) && (KeyOf(s) == KeyOf(o) || want(a) == o.phase.id))
  }

  /** The order in which locks are taken: counter row, then index entries. */
  function Rank(s: Session): int
  {
    if HoldsRow(s) then 2 else if HoldsRoom(s) then 1 else 0
  }

  ghost predicate WaitPath(d: Db, want: SessionId -> IdText, path: seq<SessionId>)
  {
    forall i :: 0 <= i < |path| - 1 ==> WaitsFor(d, want, path[i], path[i + 1])
  }

  lemma {:induction false} RankClimbs(d: Db, want: SessionId -> IdText, path: seq<SessionId>)
    requires WaitPath(d, want, path) && |path| >= 2
    ensures path[0] in d.sessions && path[|path| - 1] in d.sessions
    ensures Rank(d.sessions[path[0]]) + |path| - 1 <= Rank(d.sessions[path[|path| - 1]])
  {
    var n := |path|;
    assert WaitsFor(d, want, path[n - 2], path[n - 1]);
    if n > 2 {
      RankClimbs(d, want, path[..n - 1]);
    }
  }

  /** No chain of waiting sessions closes, and none is longer than three. */
  lemma NoWaitCycle(d: Db, want: SessionId -> IdText, path: seq<SessionId>)
    requires WaitPath(d, want, path) && |path| >= 2
    ensures path[0] != path[|path| - 1] && |path| <= 3
  {
    RankClimbs(d, want, path);
  }

  /** A step that moves session t on, other than an error or a crash. */
  predicate Moves(d: Db, t: SessionId, step: Step)
  {
    step.t == t && !step.Fail? && !step.Crash? && Enabled(d, step)
  }

  /** A session either waits for another one or can move.  In particular the
      unique constraints on (room_id, room_seq) never stop it. */
  lemma MovesUnlessWaiting(d: Db, want: SessionId -> IdText, now: int, t: SessionId)
    requires Inv(d) && t in d.sessions && now != 0
    requires Canonical(want(t)) && !IdTaken(d.tables, want(t))
    ensures (exists o :: WaitsFor(d, want, t, o)) || (exists step :: Moves(d, t, step))
  {
    var s, tb := d.sessions[t], d.tables;
    assert SessionOk(tb, s);
    if s.phase.Allocated? {
      AllocatedMoves(d, want, now, t);
    } else {
      OthersMove(d, want, t);
    }
  }

  lemma AllocatedMoves(d: Db, want: SessionId -> IdText, now: int, t: SessionId)
    requires Inv(d) && t in d.sessions && now != 0 && d.sessions[t].phase.Allocated?
    requires Canonical(want(t)) && !IdTaken(d.tables, want(t))
    ensures (exists o :: WaitsFor(d, want, t, o)) || (exists step :: Moves(d, t, step))
  {
    hide IsSpace, Compatible, AckBacked, RowsAgree, KeysUnique, IdsUnique, Blank, Canonical;
    var s, tb := d.sessions[t], d.tables;
    assert SessionOk(tb, s);
    if KeyTaken(tb, KeyOf(s)) {
      assert Moves(d, t, InsertConflict(t));
    } else if RowFree(d, t, KeyOf(s), want(t)) {
      assert Slot(s.request.roomID, s.phase.number) !in tb.messages;
      assert !Blank(want(t)) by { CanonicalNotBlank(want(t)); }
      assert Last(tb, s.request.roomID) >= 0;
      assert Moves(d, t, Insert(t, want(t), now));
    } else {
      var o :| o in d.sessions && o != t && HoldsRow(d.sessions[o])
               && (KeyOf(d.sessions[o]) == KeyOf(s) || d.sessions[o].phase.id == want(t));
      assert WaitsFor(d, want, t, o);
    }
  }

  lemma FindMoves(d: Db, t: SessionId)
    requires t in d.sessions && MayFind(d.sessions[t].phase)
    ensures exists step :: Moves(d, t, step)
  {
    var s, tb := d.sessions[t], d.tables;
    if slot :| slot in tb.messages && tb.messages[slot].key == KeyOf(s) {
      assert Moves(d, t, FindHit(t, slot));
    } else {
      assert Moves(d, t, FindMiss(t));
    }
  }

  lemma AllocatingMoves(d: Db, want: SessionId -> IdText, t: SessionId)
    requires t in d.sessions && d.sessions[t].phase.Allocating?
    ensures (exists o :: WaitsFor(d, want, t, o)) || (exists step :: Moves(d, t, step))
  {
    var s := d.sessions[t];
    if o :| o in d.sessions && o != t && HoldsRoom(d.sessions[o]) && d.sessions[o].request.roomID == s.request.roomID {
      assert WaitsFor(d, want, t, o);
    } else {
      assert Moves(d, t, Allocate(t));
    }
  }

  lemma OthersMove(d: Db, want: SessionId -> IdText, t: SessionId)
    requires TablesDense(d.tables) && t in d.sessions && SessionOk(d.tables, d.sessions[t])
    requires !d.sessions[t].phase.Allocated?
    ensures (exists o :: WaitsFor(d, want, t, o)) || (exists step :: Moves(d, t, step))
  {
    hide ValidateEvent, Canonical, RequestOk;
    var s := d.sessions[t];
    match s.phase {
      case Opening => assert Moves(d, t, OpenTx(t));
      case Rereading(_) => assert Moves(d, t, CloseRead(t));
      case Allocating => AllocatingMoves(d, want, t);
      case Inserted(_, _) =>
        assert Slot(s.request.roomID, s.phase.event.roomSeq) !in d.tables.outbox.Keys;
        assert Moves(d, t, Enqueue(t));
      case Enqueued(_, _) => assert Moves(d, t, Commit(t, true));
      case Accepted(_) => assert Moves(d, t, Reply(t, true));
      case Failed => assert Moves(d, t, Reply(t, true));
      case _ => FindMoves(d, t);
    }
  }

  /** As long as a session is in flight, some session can move. */
  lemma SomeSessionMoves(d: Db, want: SessionId -> IdText, now: int)
    requires Inv(d) && d.sessions.Keys != {} && now != 0
    requires forall t :: t in d.sessions ==> Canonical(want(t)) && !IdTaken(d.tables, want(t))
    ensures exists t, step :: t in d.sessions && Moves(d, t, step)
  {
    var top :| top in d.sessions;
    if t :| t in d.sessions && HoldsRow(d.sessions[t]) {
      top := t;
    } else if t :| t in d.sessions && HoldsRoom(d.sessions[t]) {
      top := t;
    }
    MovesUnlessWaiting(d, want, now, top);
  }

  /** In every state of every run the wait-for graph has no cycle, and with
      fresh identifiers at hand some session in flight can move. */
  lemma NeverDeadlocked(d: Db, steps: seq<Step>, want: SessionId -> IdText, now: int, path: seq<SessionId>)
    requires Init(d) && Legal(d, steps)
    ensures var e := After(d, steps);
            && (WaitPath(e, want, path) && |path| >= 2 ==> path[0] != path[|path| - 1])
            && (e.sessions.Keys != {} && now != 0
                && (forall t :: t in e.sessions ==> Canonical(want(t)) && !IdTaken(e.tables, want(t))) ==>
                  exists t, step :: t in e.sessions && Moves(e, t, step))
  {
    hide Inv, Enabled, WaitPath, Canonical, IdTaken, Apply;
    assert Inv(d) by { InitInv(d); }
    RunInv(d, steps);
    var e := After(d, steps);
    if WaitPath(e, want, path) && |path| >= 2 {
      NoWaitCycle(e, want, path);
    }
    if e.sessions.Keys != {} && now != 0
       && (forall t :: t in e.sessions ==> Canonical(want(t)) && !IdTaken(e.tables, want(t))) {
      SomeSessionMoves(e, want, now);
    }
  }
}
