/** Store.Accept as the source writes it, one statement after the other, with
    the other sessions free to run between any two statements.  Every effect
    it has is a step of the protocol. */
module Store {
  import opened Contract
  import opened MessageId
  import opened AcceptProtocol

  datatype Result = Ok(event: Event) | Error

  /** Everything the code does not decide: what the other sessions do at each
      pause, which statements fail, the clock, the fresh identifier, whether
      the outcome of the commit arrives, and how often a blocked statement is
      looked at again before the context is cancelled. */
  datatype Outside = Outside(
    others: (nat, Db) -> seq<Step>,
    fails: nat -> bool,
    now: int,
    newId: IdText,
    told: bool,
    patience: nat)

  /** The others take protocol steps, and none in the name of `me`. */
  ghost predicate Foreign(out: Outside, me: SessionId)
  {
    forall k, d :: Legal(d, out.others(k, d)) && NotMine(out.others(k, d), me)
  }

  ghost predicate NotMine(steps: seq<Step>, me: SessionId)
  {
    forall i :: 0 <= i < |steps| ==> steps[i].t != me
  }

  lemma {:induction false} OthersKeepMine(d: Db, steps: seq<Step>, me: SessionId)
    requires Legal(d, steps) && NotMine(steps, me)
    ensures me in After(d, steps).sessions <==> me in d.sessions
    ensures me in d.sessions ==> After(d, steps).sessions[me] == d.sessions[me]
    decreases |steps|
  {
    if steps != [] {
      hide IsSpace, Blank, Canonical, ValidateEvent;
      OthersKeepMine(Apply(d, steps[0]), steps[1..], me);
    }
  }

  /** Nothing fails, and the others stand still. */
  ghost predicate Calm(out: Outside)
  {
    (forall k, d :: out.others(k, d) == []) && (forall k :: !out.fails(k)) && out.told
  }

  /** No other session holds a lock. */
  predicate Idle(d: Db, me: SessionId)
  {
    forall o :: o in d.sessions && o != me ==> !HoldsRoom(d.sessions[o])
  }

  /** Only the phase of session `me` differs. */
  predicate Moved(d: Db, e: Db, me: SessionId, p: Phase)
  {
    me in d.sessions && e == Enter(d, me, p)
  }

  class Store {
    var db: Db
    ghost var start: Db
    ghost var trace: seq<Step>

    ghost predicate Valid()
      reads this
    {
      Inv(start) && Inv(db) && Legal(start, trace) && After(start, trace) == db
    }

    /** The history so far is kept and extended. */
    twostate predicate Extends()
      reads this
    {
      start == old(start) && old(trace) <= trace
    }

    constructor (d: Db)
      requires Inv(d)
      ensures Valid() && db == d && start == d && trace == []
    {
      db, start, trace := d, d, [];
    }

    method Do(step: Step)
      requires Valid() && Enabled(db, step)
      modifies this
      ensures Valid() && Extends()
      ensures db == Apply(old(db), step)
    {
      StepInv(db, step);
      OneStep(db, step);
      hide Inv, Legal, After, Apply, Enabled;
      RunAppend(start, trace, [step]);
      db := Apply(db, step);
      trace := trace + [step];
    }

    /** One round trip to the server: the others run, then the statement is
        answered or fails. */
    method Statement(me: SessionId, out: Outside, k: nat) returns (ok: bool)
      requires Valid() && Foreign(out, me)
      requires me in db.sessions && !db.sessions[me].phase.Accepted? && !db.sessions[me].phase.Failed?
      modifies this
      ensures Valid() && Extends()
      ensures me in db.sessions && db.sessions[me] == old(db).sessions[me].(phase :=
                if ok then old(db).sessions[me].phase else Failed)
      ensures ok <==> !out.fails(k)
      ensures Calm(out) ==> ok && db == old(db)
    {
      hide Inv, Legal, After, Apply;
      var steps := out.others(k, db);
      assert Calm(out) ==> After(db, steps) == db by {
        if Calm(out) {
          NoSteps(db);
        }
      }
      RunInv(db, steps);
      OthersKeepMine(db, steps, me);
      RunAppend(start, trace, steps);
      db := After(db, steps);
      trace := trace + steps;
      ok := !out.fails(k);
      if !ok {
        ghost var before := db;
        Do(Fail(me));
        FailEffect(before, me);
      }
    }

    /** findEvent at one of the three places Accept looks. */
    method FindEvent(me: SessionId) returns (found: Option<Event>)
      requires Valid() && me in db.sessions && MayFind(db.sessions[me].phase)
      modifies this
      ensures Valid() && Extends() && db.tables == old(db).tables
      ensures found.Some? <==> KeyTaken(db.tables, KeyOf(old(db).sessions[me]))
      ensures me in db.sessions && db.sessions[me].client == old(db).sessions[me].client
              && db.sessions[me].request == old(db).sessions[me].request
      ensures found.Some? ==> EventBacked(db.tables, db.sessions[me], found.value)
      ensures db.sessions[me].phase ==
                (match old(db).sessions[me].phase
                 case Looking => if found.Some? then Accepted(found.value) else Opening
                 case LookingAgain => if found.Some? then Rereading(found.value) else Allocating
                 case _ => if found.Some? then Accepted(found.value) else Failed)
      ensures Moved(old(db), db, me, db.sessions[me].phase)
      ensures found.Some? ==> Echo(db.tables, KeyOf(old(db).sessions[me]), found.value)
    {
      hide Inv, Legal, After, Canonical, ValidateEvent, RequestOk, Committed, RowFree, RoomFree;
      var key := KeyOf(db.sessions[me]);
      if KeyTaken(db.tables, key) {
        var slot :| slot in db.tables.messages && db.tables.messages[slot].key == key;
        found := Some(ReadBack(db.tables, slot));
        Do(FindHit(me, slot));
      } else {
        found := None;
        Do(FindMiss(me));
      }
    }

    /** The counter upsert: waits while another transaction holds the row. */
    method AllocateNumber(me: SessionId, out: Outside) returns (ok: bool)
      requires Valid() && Foreign(out, me) && me in db.sessions && db.sessions[me].phase.Allocating?
      modifies this
      ensures Valid() && Extends()
      ensures me in db.sessions && db.sessions[me].client == old(db).sessions[me].client
              && db.sessions[me].request == old(db).sessions[me].request
      ensures if ok then db.sessions[me].phase.Allocated? else db.sessions[me].phase.Failed?
      ensures Calm(out) && Idle(old(db), me) ==>
                ok && Moved(old(db), db, me, Allocated(Last(old(db).tables, old(db).sessions[me].request.roomID) + 1))
    {
      hide Inv, Legal, After, Calm, Foreign;
      ok := Statement(me, out, 4);
      var waits := 0;
      while ok && waits < out.patience && !RoomFree(db, me, db.sessions[me].request.roomID)
        invariant Valid() && Extends()
        invariant me in db.sessions && db.sessions[me].client == old(db).sessions[me].client
                  && db.sessions[me].request == old(db).sessions[me].request
        invariant db.sessions[me].phase == if ok then Allocating else Failed
        invariant Calm(out) ==> ok && db == old(db)
        decreases out.patience - waits, ok
      {
        ok := Statement(me, out, 5 + waits);
        waits := waits + 1;
      }
      if !ok {
        return;
      }
      ok := RoomFree(db, me, db.sessions[me].request.roomID);
      if ok {
        Do(Allocate(me));
      } else {
        Do(Fail(me));
      }
    }

    /** The insert into the message history: the row is that of the request. */
    method InsertMessage(me: SessionId, out: Outside) returns (ok: bool)
      requires Valid() && Foreign(out, me) && me in db.sessions && db.sessions[me].phase.Allocated?
      requires Canonical(out.newId)
      modifies this
      ensures Valid() && Extends()
      ensures me in db.sessions && db.sessions[me].client == old(db).sessions[me].client
              && db.sessions[me].request == old(db).sessions[me].request
      ensures ok ==>
                var request := old(db).sessions[me].request;
                db.sessions[me].phase == Inserted(out.newId,
                  Event(1, out.newId, request.clientMessageID, request.roomID, old(db).sessions[me].phase.number,
                        out.now, request.payload))
      ensures !ok ==> db.sessions[me].phase.Failed? || db.sessions[me].phase.Conflicted?
      ensures Calm(out) && Idle(old(db), me) && out.now != 0 && !IdTaken(old(db).tables, out.newId)
              && !KeyTaken(old(db).tables, KeyOf(old(db).sessions[me])) ==>
                ok && Moved(old(db), db, me, db.sessions[me].phase)
    {
      NextIsFree(db, me, out.newId, out.now);
      CanFail(db, me);
      hide Inv, Legal, After, Calm, Foreign, Canonical, ValidateEvent, KeyTaken, IdTaken, RowFree, EventFor, Apply,
           SessionEnabled, Idle, Moved, RequestOk;
      var s := db.sessions[me];
      if !ValidateEvent(EventFor(s, s.phase.number, out.newId, out.now)).Valid? {
        Do(Fail(me));
        return false;
      }
      ok := AwaitRow(me, out);
      if ok {
        ok := WriteRow(me, out);
      }
    }

    /** Waits while another transaction holds the same index entries. */
    method AwaitRow(me: SessionId, out: Outside) returns (ok: bool)
      requires Valid() && Foreign(out, me) && me in db.sessions && db.sessions[me].phase.Allocated?
      modifies this
      ensures Valid() && Extends()
      ensures me in db.sessions && db.sessions[me] == old(db).sessions[me].(
                phase := if ok then old(db).sessions[me].phase else Failed)
      ensures Calm(out) ==> ok && db == old(db)
    {
      hide Inv, Legal, After, Calm, Foreign, RowFree;
      var key := KeyOf(db.sessions[me]);
      ok := Statement(me, out, 6 + out.patience);
      var waits := 0;
      while ok && waits < out.patience && !RowFree(db, me, key, out.newId)
        invariant Valid() && Extends()
        invariant me in db.sessions && db.sessions[me] == old(db).sessions[me].(
                    phase := if ok then old(db).sessions[me].phase else Failed)
        invariant Calm(out) ==> ok && db == old(db)
        decreases out.patience - waits, ok
      {
        ok := Statement(me, out, 7 + out.patience + waits);
        waits := waits + 1;
      }
    }

    /** The answer to the INSERT. */
    method WriteRow(me: SessionId, out: Outside) returns (ok: bool)
      requires Valid() && me in db.sessions && db.sessions[me].phase.Allocated? && Canonical(out.newId)
      requires ValidateEvent(EventFor(db.sessions[me], db.sessions[me].phase.number, out.newId, out.now)).Valid?
      modifies this
      ensures Valid() && Extends()
      ensures me in db.sessions && db.sessions[me].client == old(db).sessions[me].client
              && db.sessions[me].request == old(db).sessions[me].request
      ensures ok ==>
                var request := old(db).sessions[me].request;
                db.sessions[me].phase == Inserted(out.newId,
                  Event(1, out.newId, request.clientMessageID, request.roomID, old(db).sessions[me].phase.number,
                        out.now, request.payload))
      ensures !ok ==> db.sessions[me].phase.Failed? || db.sessions[me].phase.Conflicted?
      ensures Idle(old(db), me) && !IdTaken(old(db).tables, out.newId)
              && !KeyTaken(old(db).tables, KeyOf(old(db).sessions[me])) ==>
                ok && Moved(old(db), db, me, db.sessions[me].phase)
    {
      ghost var d := db;
      NextIsFree(d, me, out.newId, out.now);
      if Idle(d, me) {
        IdleRowFree(d, me, KeyOf(d.sessions[me]), out.newId);
      }
      InsertAnswers(d, me, out.newId, out.now);
      hide *;
      var taken := KeyTaken(db.tables, KeyOf(db.sessions[me]));
      ok := !taken && !IdTaken(db.tables, out.newId) && RowFree(db, me, KeyOf(db.sessions[me]), out.newId);
      if taken {
        Do(InsertConflict(me));
      } else if ok {
        Do(Insert(me, out.newId, out.now));
      } else {
        Do(Fail(me));
      }
    }

    /** An event is returned only when its row is committed, and a client key
        that was already accepted gets its first row again, whatever room and
        payload the retry names.  Undisturbed, a fresh key gets the next number
        of its room, and the rows and the event carry what the request says. */
    method Accept(me: SessionId, client: string, request: SendRequest, out: Outside) returns (r: Result)
      requires Valid() && Foreign(out, me) && me !in db.sessions && Canonical(out.newId)
      modifies this
      ensures Valid() && Extends() && Grows(old(db).tables, db.tables)
      ensures me in db.sessions && db.sessions[me].client == client && db.sessions[me].request == request
      ensures db.sessions[me].phase == match r case Ok(e) => Accepted(e) case Error => Failed
      ensures !RequestOk(client, request) ==> r == Error && db.tables == old(db).tables
      ensures r.Ok? ==> EventBacked(db.tables, db.sessions[me], r.event)
      ensures r.Ok? && KeyTaken(old(db).tables, ClientKey(client, request.clientMessageID)) ==>
                Backed(old(db).tables, ClientKey(client, request.clientMessageID), r.event.messageID,
                       Slot(r.event.roomID, r.event.roomSeq))
      ensures Calm(out) && Idle(old(db), me) && RequestOk(client, request) && Unused(old(db).tables, out) ==>
                r.Ok? && Outcome(old(db).tables, db.tables, client, request, out, r.event)
    {
      ghost var d0, trace0 := db, trace;
      r := Run(me, client, request, out);
      hide Inv, Legal, After, Calm, Idle, RequestOk, KeyTaken, Foreign, Canonical, EventBacked;
      LaterGrows(start, trace0, trace);
      if r.Ok? {
        SameRow(d0.tables, db.tables, ClientKey(client, request.clientMessageID), r.event.messageID,
                Slot(r.event.roomID, r.event.roomSeq));
      }
    }

    /** The statements of Accept in the order of the source. */
    method Run(me: SessionId, client: string, request: SendRequest, out: Outside) returns (r: Result)
      requires Valid() && Foreign(out, me) && me !in db.sessions && Canonical(out.newId)
      modifies this
      ensures Valid() && Extends()
      ensures me in db.sessions && db.sessions[me].client == client && db.sessions[me].request == request
      ensures db.sessions[me].phase == match r case Ok(e) => Accepted(e) case Error => Failed
      ensures !RequestOk(client, request) ==> r == Error && db.tables == old(db).tables
      ensures r.Ok? ==> EventBacked(db.tables, db.sessions[me], r.event)
      ensures Calm(out) && Idle(old(db), me) && RequestOk(client, request) && Unused(old(db).tables, out) ==>
                r.Ok? && Outcome(old(db).tables, db.tables, client, request, out, r.event)
    {
      hide Inv, Legal, After, EventBacked, RequestOk, Canonical, ValidateEvent, KeyTaken, Calm, Foreign;
      Do(Begin(me, client, request));
      if !RequestOk(client, request) {
        return Error;
      }
      var ok := Statement(me, out, 0);
      if !ok { return Error; }
      var found := FindEvent(me);
      if found.Some? {
        return Ok(found.value);
      }
      r := Transaction(me, out);
    }

    /** From BEGIN to COMMIT or ROLLBACK. */
    method Transaction(me: SessionId, out: Outside) returns (r: Result)
      requires Valid() && Foreign(out, me) && me in db.sessions && db.sessions[me].phase.Opening?
      requires Canonical(out.newId)
      modifies this
      ensures Valid() && Extends()
      ensures me in db.sessions && db.sessions[me].client == old(db).sessions[me].client
              && db.sessions[me].request == old(db).sessions[me].request
      ensures db.sessions[me].phase == match r case Ok(e) => Accepted(e) case Error => Failed
      ensures r.Ok? ==> EventBacked(db.tables, db.sessions[me], r.event)
      ensures Calm(out) && Idle(old(db), me) && Unused(old(db).tables, out)
              && !KeyTaken(old(db).tables, KeyOf(old(db).sessions[me])) ==>
                r.Ok? && Outcome(old(db).tables, db.tables, old(db).sessions[me].client, old(db).sessions[me].request, out, r.event)
    {
      hide Inv, Legal, After, EventBacked, RequestOk, Canonical, ValidateEvent, KeyTaken, Calm, Foreign;
      var ok := Begun(me, out);
      if !ok { return Error; }
      var found := FindEvent(me);
      if found.Some? {
        ok := Statement(me, out, 3);
        if !ok { return Error; }
        Do(CloseRead(me));
        AcceptedIsBacked(db, me);
        return Ok(found.value);
      }
      r := WriteMessage(me, out);
    }

    /** The writing half: number, message row, outbox row and commit. */
    method WriteMessage(me: SessionId, out: Outside) returns (r: Result)
      requires Valid() && Foreign(out, me) && me in db.sessions && db.sessions[me].phase.Allocating?
      requires Canonical(out.newId)
      modifies this
      ensures Valid() && Extends()
      ensures me in db.sessions && db.sessions[me].client == old(db).sessions[me].client
              && db.sessions[me].request == old(db).sessions[me].request
      ensures db.sessions[me].phase == match r case Ok(e) => Accepted(e) case Error => Failed
      ensures r.Ok? ==> EventBacked(db.tables, db.sessions[me], r.event)
      ensures Calm(out) && Idle(old(db), me) && Unused(old(db).tables, out)
              && !KeyTaken(old(db).tables, KeyOf(old(db).sessions[me])) ==>
                r.Ok? && Outcome(old(db).tables, db.tables, old(db).sessions[me].client, old(db).sessions[me].request, out, r.event)
    {
      hide Inv, Legal, After, EventBacked, RequestOk, Canonical, ValidateEvent, KeyTaken, Calm, Foreign;
      var ok := AllocateNumber(me, out);
      if !ok { return Error; }
      ok := InsertMessage(me, out);
      if ok {
        r := Finish(me, out);
      } else if db.sessions[me].phase.Conflicted? {
        r := AfterConflict(me, out);
      } else {
        r := Error;
      }
    }

    /** BEGIN, then the second lookup is due. */
    method Begun(me: SessionId, out: Outside) returns (ok: bool)
      requires Valid() && Foreign(out, me) && me in db.sessions && db.sessions[me].phase.Opening?
      modifies this
      ensures Valid() && Extends()
      ensures me in db.sessions && db.sessions[me] ==
                old(db).sessions[me].(phase := if ok then LookingAgain else Failed)
      ensures Calm(out) ==> ok && Moved(old(db), db, me, LookingAgain)
    {
      hide Inv, Legal, After, Calm, Foreign;
      ok := Statement(me, out, 1);
      if !ok { return; }
      Do(OpenTx(me));
      ok := Statement(me, out, 2);
    }

    /** The lookup after losing the idempotency race: unless the statement fails
        it finds the winner's row. */
    method AfterConflict(me: SessionId, out: Outside) returns (r: Result)
      requires Valid() && Foreign(out, me) && me in db.sessions && db.sessions[me].phase.Conflicted?
      modifies this
      ensures Valid() && Extends()
      ensures me in db.sessions && db.sessions[me].client == old(db).sessions[me].client
              && db.sessions[me].request == old(db).sessions[me].request
      ensures db.sessions[me].phase == match r case Ok(e) => Accepted(e) case Error => Failed
      ensures r.Ok? ==> EventBacked(db.tables, db.sessions[me], r.event)
      ensures r.Ok? <==> !out.fails(8 + 2 * out.patience)
    {
      hide Inv, Legal, After, Foreign, EventBacked, KeyTaken;
      var ok := Statement(me, out, 8 + 2 * out.patience);
      if !ok { return Error; }
      WinnerIsThere(db, me);
      var found := FindEvent(me);
      r := if found.Some? then Ok(found.value) else Error;
    }

    /** The outbox insert and the commit. */
    method Finish(me: SessionId, out: Outside) returns (r: Result)
      requires Valid() && Foreign(out, me) && me in db.sessions && db.sessions[me].phase.Inserted?
      modifies this
      ensures Valid() && Extends()
      ensures me in db.sessions && db.sessions[me].client == old(db).sessions[me].client
              && db.sessions[me].request == old(db).sessions[me].request
      ensures db.sessions[me].phase == match r case Ok(e) => Accepted(e) case Error => Failed
      ensures r.Ok? ==> EventBacked(db.tables, db.sessions[me], r.event)
      ensures r.Ok? ==> r.event == old(db).sessions[me].phase.event
      ensures Calm(out) ==>
                r.Ok? && db.tables == Committed(old(db).tables, old(db).sessions[me].(
                  phase := Enqueued(old(db).sessions[me].phase.id, r.event)))
    {
      hide Inv, Legal, After, EventBacked, RequestOk, ValidateEvent, Foreign, Calm;
      var ok := WriteOutbox(me, out);
      if !ok { return Error; }
      r := CommitTx(me, out);
    }

    /** The insert into the outbox, which never meets its constraints. */
    method WriteOutbox(me: SessionId, out: Outside) returns (ok: bool)
      requires Valid() && Foreign(out, me) && me in db.sessions && db.sessions[me].phase.Inserted?
      modifies this
      ensures Valid() && Extends()
      ensures me in db.sessions && db.sessions[me] == old(db).sessions[me].(phase :=
                if ok then Enqueued(old(db).sessions[me].phase.id, old(db).sessions[me].phase.event) else Failed)
      ensures Calm(out) ==> ok && db.tables == old(db).tables
    {
      hide Inv, Legal, After, RequestOk, ValidateEvent, Foreign, Calm;
      ok := Statement(me, out, 9 + 2 * out.patience);
      if !ok { return; }
      OutboxSlotFree(db, me);
      Do(Enqueue(me));
    }

    method CommitTx(me: SessionId, out: Outside) returns (r: Result)
      requires Valid() && Foreign(out, me) && me in db.sessions && db.sessions[me].phase.Enqueued?
      modifies this
      ensures Valid() && Extends()
      ensures me in db.sessions && db.sessions[me].client == old(db).sessions[me].client
              && db.sessions[me].request == old(db).sessions[me].request
      ensures db.sessions[me].phase == match r case Ok(e) => Accepted(e) case Error => Failed
      ensures r.Ok? ==> EventBacked(db.tables, db.sessions[me], r.event)
      ensures r.Ok? ==> r.event == old(db).sessions[me].phase.event
      ensures Calm(out) ==> r.Ok? && db.tables == Committed(old(db).tables, old(db).sessions[me])
    {
      hide Inv, Legal, After, EventBacked, RequestOk, ValidateEvent, Foreign;
      var event := db.sessions[me].phase.event;
      var ok := Statement(me, out, 10 + 2 * out.patience);
      if !ok { return Error; }
      Do(Commit(me, out.told));
      if out.told {
        AcceptedIsBacked(db, me);
      }
      r := if out.told then Ok(event) else Error;
    }
  }

  /** The identifier is fresh and the clock is set. */
  predicate Unused(tb: Tables, out: Outside)
  {
    out.now != 0 && !IdTaken(tb, out.newId)
  }

  /** The event read back from the row of `key`. */
  predicate Echo(tb: Tables, key: ClientKey, e: Event)
  {
    exists slot :: slot in tb.messages && EchoOf(slot, tb.messages[slot], key, e)
  }

  predicate EchoOf(slot: Slot, row: MessageRow, key: ClientKey, e: Event)
  {
    row.key == key && e == Event(1, row.id, key.message, slot.room, slot.number, row.createdAt, row.payload)
  }

  /** What an undisturbed Accept leaves behind: nothing new for a key already
      taken, whose row is read back; and otherwise, under the next number of the
      room, one message row and one outbox row with what the request says. */
  predicate Outcome(a: Tables, b: Tables, client: string, request: SendRequest, out: Outside, e: Event)
  {
    var key := ClientKey(client, request.clientMessageID);
    var number := Last(a, request.roomID) + 1;
    var slot := Slot(request.roomID, number);
    if KeyTaken(a, key) then b == a && Echo(a, key, e)
    else
      && e == Event(1, out.newId, request.clientMessageID, request.roomID, number, out.now, request.payload)
      && b.counters == a.counters[request.roomID := number]
      && b.messages == a.messages[slot := MessageRow(out.newId, key, out.now - out.now % 1000, request.payload)]
      && b.outbox == a.outbox[slot := OutboxRow(out.newId, e, out.now - out.now % 1000)]
  }

  lemma NoSteps(d: Db)
    ensures Legal(d, []) && After(d, []) == d
  {
  }

  /** The number a session holds is the next one, so its row clashes with
      nothing, and the event it builds is valid. */
  lemma NextIsFree(d: Db, t: SessionId, id: IdText, now: int)
    requires Inv(d) && t in d.sessions && d.sessions[t].phase.Allocated? && Canonical(id)
    ensures Slot(d.sessions[t].request.roomID, d.sessions[t].phase.number) !in d.tables.messages
    ensures now != 0 ==> ValidateEvent(EventFor(d.sessions[t], d.sessions[t].phase.number, id, now)).Valid?
  {
    assert SessionOk(d.tables, d.sessions[t]);
    CanonicalNotBlank(id);
    hide Canonical, Blank;
  }

  lemma IdleRowFree(d: Db, me: SessionId, key: ClientKey, id: IdText)
    requires Idle(d, me)
    ensures RowFree(d, me, key, id)
  {
  }

  lemma CanFail(d: Db, t: SessionId)
    requires t in d.sessions && !d.sessions[t].phase.Accepted? && !d.sessions[t].phase.Failed?
    ensures Enabled(d, Fail(t)) && t in Apply(d, Fail(t)).sessions
    ensures Apply(d, Fail(t)).sessions[t] == d.sessions[t].(phase := Failed)
  {
  }

  /** The three answers the INSERT can get. */
  lemma InsertAnswers(d: Db, t: SessionId, id: IdText, now: int)
    requires Inv(d) && t in d.sessions && d.sessions[t].phase.Allocated? && Canonical(id)
    requires ValidateEvent(EventFor(d.sessions[t], d.sessions[t].phase.number, id, now)).Valid?
    ensures Enabled(d, Fail(t)) && Moved(d, Apply(d, Fail(t)), t, Failed)
    ensures KeyTaken(d.tables, KeyOf(d.sessions[t])) ==>
              Enabled(d, InsertConflict(t)) && Moved(d, Apply(d, InsertConflict(t)), t, Conflicted)
    ensures !KeyTaken(d.tables, KeyOf(d.sessions[t])) && !IdTaken(d.tables, id) && RowFree(d, t, KeyOf(d.sessions[t]), id) ==>
              && Enabled(d, Insert(t, id, now))
              && Moved(d, Apply(d, Insert(t, id, now)), t,
                       var request := d.sessions[t].request;
                       Inserted(id, Event(1, id, request.clientMessageID, request.roomID, d.sessions[t].phase.number,
                                          now, request.payload)))
  {
    NextIsFree(d, t, id, now);
    hide Inv, Canonical, ValidateEvent, KeyTaken, IdTaken, RowFree;
  }

  lemma OutboxSlotFree(d: Db, t: SessionId)
    requires Inv(d) && t in d.sessions && d.sessions[t].phase.Inserted?
    ensures Slot(d.sessions[t].request.roomID, d.sessions[t].phase.event.roomSeq) !in d.tables.outbox
  {
    assert SessionOk(d.tables, d.sessions[t]);
    hide Canonical, Blank, ValidateEvent;
  }

  lemma FailEffect(d: Db, t: SessionId)
    requires Enabled(d, Fail(t))
    ensures Apply(d, Fail(t)) == Enter(d, t, Failed)
  {
  }

  lemma WinnerIsThere(d: Db, t: SessionId)
    requires Inv(d) && t in d.sessions && d.sessions[t].phase.Conflicted?
    ensures KeyTaken(d.tables, KeyOf(d.sessions[t]))
  {
    assert SessionOk(d.tables, d.sessions[t]);
  }

  lemma AcceptedIsBacked(d: Db, t: SessionId)
    requires Inv(d) && t in d.sessions && d.sessions[t].phase.Accepted?
    ensures EventBacked(d.tables, d.sessions[t], d.sessions[t].phase.event)
  {
    assert SessionOk(d.tables, d.sessions[t]);
  }

  lemma LaterGrows(start: Db, a: seq<Step>, b: seq<Step>)
    requires Inv(start) && Legal(start, a) && Legal(start, b) && a <= b
    ensures Grows(After(start, a).tables, After(start, b).tables)
  {
    RunSplit(start, b, |a|);
    assert b[..|a|] == a;
    RunInv(start, a);
    RunGrows(After(start, a), b[|a|..]);
  }

  lemma SameRow(a: Tables, b: Tables, key: ClientKey, messageID: string, slot: Slot)
    requires Grows(a, b) && KeysUnique(b) && Backed(b, key, messageID, slot)
    ensures KeyTaken(a, key) ==> Backed(a, key, messageID, slot)
  {
  }
}
