/** What a client is told about a frame it sent: handleMessage with the store
    behind it. */
module Socket {
  import opened Contract
  import opened AcceptProtocol
  import opened MessageId
  import opened S = Store

  datatype Frame = AcceptedFrame(ack: AcceptedAck) | RejectedFrame(rejection: RejectedAck)

  /** A frame the contract allows, on the wire. */
  predicate IsSend(r: SendRequest)
  {
    && r.frameType == "send" && r.version == 1
    && TrimSpace(r.clientMessageID) != "" && TrimSpace(r.roomID) != "" && r.payload.Document?
  }

  function Rejection(clientMessageID: string, errorCode: string): Frame
  {
    RejectedFrame(RejectedAck("rejected", 1, clientMessageID, errorCode))
  }

  /** The accepted frame for a message under this slot. */
  function Acceptance(r: SendRequest, id: IdText, slot: Slot, createdAt: int): Frame
  {
    AcceptedFrame(AcceptedAck("accepted", 1, id, r.clientMessageID, slot.room, slot.number, createdAt))
  }

  /** The frame repeats the committed row at `slot`, which is the client's own. */
  predicate Repeats(tables: Tables, key: ClientKey, ack: AcceptedAck)
  {
    && Slot(ack.roomID, ack.roomSeq) in tables.messages
    && var row := tables.messages[Slot(ack.roomID, ack.roomSeq)];
    && row.key == key && row.id == ack.messageID && ack.clientMessageID == key.message
  }

  /** What the client is told about a frame. */
  predicate Answers(client: string, data: Option<SendRequest>, tables: Tables, frame: Frame)
  {
    if data.None? then frame == Rejection("", "invalid_request")
    else if !IsSend(data.value) then frame == Rejection(data.value.clientMessageID, "invalid_request")
    else
      || frame == Rejection(data.value.clientMessageID, "not_accepted")
      || (&& frame.AcceptedFrame? && TrimSpace(client) != ""
          && frame.ack.frameType == "accepted" && frame.ack.version == 1
          && Repeats(tables, ClientKey(client, data.value.clientMessageID), frame.ack))
  }

  /** What an undisturbed request is told: a fresh key is accepted under the
      next number of its room; a taken one is told its row, unless the time kept
      for that row is the zero time. */
  predicate Told(client: string, r: SendRequest, tables: Tables, out: Outside, frame: Frame)
  {
    var key := ClientKey(client, r.clientMessageID);
    if TrimSpace(client) == "" then frame == Rejection(r.clientMessageID, "not_accepted")
    else if !KeyTaken(tables, key) then
      frame == Acceptance(r, out.newId, Slot(r.roomID, Last(tables, r.roomID) + 1), out.now)
    else
      exists slot ::
        && slot in tables.messages && tables.messages[slot].key == key
        && frame == if tables.messages[slot].createdAt != 0
                    then Acceptance(r, tables.messages[slot].id, slot, tables.messages[slot].createdAt)
                    else Rejection(r.clientMessageID, "not_accepted")
  }

  class Socket {
    const client: string
    const store: Store
    var queue: seq<Frame>

    constructor (client: string, store: Store)
      ensures this.client == client && this.store == store && queue == []
    {
      this.client, this.store := client, store;
      queue := [];
    }

    /** Sends to the client's channel, unless the connection ends first. */
    method Put(frame: Frame, sent: bool) returns (ok: bool)
      modifies this`queue
      ensures ok == sent && queue == if sent then old(queue) + [frame] else old(queue)
    {
      if sent {
        queue := queue + [frame];
      }
      ok := sent;
    }

    method EnqueueRejected(clientMessageID: string, errorCode: string, sent: bool) returns (ok: bool)
      modifies this`queue
      ensures Blank(errorCode) ==> !ok && queue == old(queue)
      ensures !Blank(errorCode) ==>
                ok == sent && queue == if sent then old(queue) + [Rejection(clientMessageID, errorCode)] else old(queue)
    {
      hide Blank;
      var rejection := RejectedAck(REJECTED_FRAME_TYPE, VERSION, clientMessageID, errorCode);
      if !ValidateRejected(rejection).Valid? {
        return false;
      }
      ok := Put(RejectedFrame(rejection), sent);
    }

    /** Every frame read is answered by exactly one frame while the connection
        lasts.  What is not a send frame is turned down without touching the
        store.  An accepted frame repeats the committed row of the client's own
        key, is recorded as sent, and for a key already taken names the row that
        was there before.  Undisturbed, the answer is exact. */
    method HandleMessage(me: SessionId, data: Option<SendRequest>, out: Outside, sent: bool) returns (ok: bool)
      requires store.Valid() && Foreign(out, me) && me !in store.db.sessions && Canonical(out.newId)
      modifies this`queue, store
      ensures store.Valid() && Grows(old(store.db).tables, store.db.tables)
      ensures ok == sent && (!sent ==> queue == old(queue))
      ensures sent ==> |queue| == |old(queue)| + 1 && queue[..|old(queue)|] == old(queue)
      ensures sent ==> Answers(client, data, store.db.tables, queue[|old(queue)|])
      ensures data.None? || !IsSend(data.value) ==> store.db == old(store.db)
      ensures TrimSpace(client) == "" ==> store.db.tables == old(store.db).tables
      ensures sent && queue[|old(queue)|].AcceptedFrame? ==> SentAck(client, queue[|old(queue)|].ack) in store.db.acks
      ensures sent && queue[|old(queue)|].AcceptedFrame?
              && KeyTaken(old(store.db).tables, ClientKey(client, data.value.clientMessageID)) ==>
                Repeats(old(store.db).tables, ClientKey(client, data.value.clientMessageID), queue[|old(queue)|].ack)
      ensures sent && data.Some? && IsSend(data.value) && Calm(out) && Idle(old(store.db), me)
              && Unused(old(store.db).tables, out) ==>
                Told(client, data.value, old(store.db).tables, out, queue[|old(queue)|])
    {
      CodesNotBlank();
      GrowsReflexive(store.db.tables);
      if data.None? {
        ok := EnqueueRejected("", INVALID_REQUEST, sent);
        return;
      }
      var request := data.value;
      SendIs(request);
      hide Inv, Legal, After, Blank, KeyTaken, Canonical, ValidateSend, TrimSpace, IsSend, Foreign, Calm, Idle, Unused,
           Grows, Told, Repeats;
      if !ValidateSend(request).Valid? {
        ok := EnqueueRejected(request.clientMessageID, INVALID_REQUEST, sent);
        return;
      }
      ok := Submit(me, request, out, sent);
    }

    /** A send frame goes to the store, and its outcome to the client. */
    method Submit(me: SessionId, request: SendRequest, out: Outside, sent: bool) returns (ok: bool)
      requires store.Valid() && Foreign(out, me) && me !in store.db.sessions && Canonical(out.newId) && IsSend(request)
      modifies this`queue, store
      ensures store.Valid() && Grows(old(store.db).tables, store.db.tables)
      ensures ok == sent && (!sent ==> queue == old(queue))
      ensures sent ==> |queue| == |old(queue)| + 1 && queue[..|old(queue)|] == old(queue)
      ensures sent ==> Answers(client, Some(request), store.db.tables, queue[|old(queue)|])
      ensures TrimSpace(client) == "" ==> store.db.tables == old(store.db).tables
      ensures sent && queue[|old(queue)|].AcceptedFrame? ==> SentAck(client, queue[|old(queue)|].ack) in store.db.acks
      ensures sent && queue[|old(queue)|].AcceptedFrame?
              && KeyTaken(old(store.db).tables, ClientKey(client, request.clientMessageID)) ==>
                Repeats(old(store.db).tables, ClientKey(client, request.clientMessageID), queue[|old(queue)|].ack)
      ensures sent && Calm(out) && Idle(old(store.db), me) && Unused(old(store.db).tables, out) ==>
                Told(client, request, old(store.db).tables, out, queue[|old(queue)|])
    {
      CodesNotBlank();
      TrimSpaceEmpty(client);
      assert TrimSpace(client) == "" ==> !RequestOk(client, request);
      hide Inv, Legal, After, Blank, KeyTaken, Canonical, ValidateSend, TrimSpace, IsSend, Foreign, Calm, Idle, Unused,
           ValidateAccepted, Grows, Told, Outcome, RequestOk, EventBacked, Backed, Repeats, Apply, SessionEnabled, Answers;
      ghost var before := store.db;
      var r := store.Accept(me, client, request, out);
      Spoken(before, store.db.tables, store.db.sessions[me], client, request, out, r,
             Calm(out) && Idle(before, me) && Unused(before.tables, out));
      if r.Error? || !ValidateAccepted(AckFor(r.event)).Valid? {
        ok := EnqueueRejected(request.clientMessageID, NOT_ACCEPTED, sent);
        return;
      }
      ReplyEffect(store.db, me, sent);
      store.Do(Reply(me, sent));
      ok := Put(AcceptedFrame(AckFor(r.event)), sent);
    }
  }

  lemma SendIs(r: SendRequest)
    ensures ValidateSend(r).Valid? <==> IsSend(r)
  {
    SendPasses(r);
  }

  lemma ReplyEffect(d: Db, t: SessionId, enqueued: bool)
    requires t in d.sessions && d.sessions[t].phase.Accepted?
    ensures Enabled(d, Reply(t, enqueued)) && Apply(d, Reply(t, enqueued)).tables == d.tables
    ensures enqueued && ValidateAccepted(AckFor(d.sessions[t].phase.event)).Valid? ==>
              SentAck(d.sessions[t].client, AckFor(d.sessions[t].phase.event)) in Apply(d, Reply(t, enqueued)).acks
  {
  }

  /** The frame handleMessage builds from what Accept returned. */
  function FrameFor(request: SendRequest, r: Result): Frame
  {
    if r.Error? || !ValidateAccepted(AckFor(r.event)).Valid? then Rejection(request.clientMessageID, NOT_ACCEPTED)
    else AcceptedFrame(AckFor(r.event))
  }

  /** `smooth` says that Accept ran undisturbed. */
  lemma Spoken(before: Db, tables: Tables, s: Session, client: string, request: SendRequest, out: Outside, r: Result, smooth: bool)
    requires Inv(before) && IsSend(request) && s.client == client && s.request == request && Canonical(out.newId)
    requires r.Ok? ==> RequestOk(client, request) && EventBacked(tables, s, r.event)
    requires r.Ok? && KeyTaken(before.tables, KeyOf(s)) ==>
               Backed(before.tables, KeyOf(s), r.event.messageID, Slot(r.event.roomID, r.event.roomSeq))
    requires smooth ==> Unused(before.tables, out)
    requires smooth && RequestOk(client, request) ==>
               r.Ok? && Outcome(before.tables, tables, client, request, out, r.event)
    ensures Answers(client, Some(request), tables, FrameFor(request, r))
    ensures FrameFor(request, r).AcceptedFrame? && KeyTaken(before.tables, KeyOf(s)) ==>
              Repeats(before.tables, KeyOf(s), FrameFor(request, r).ack)
    ensures smooth ==> Told(client, request, before.tables, out, FrameFor(request, r))
  {
    TrimSpaceEmpty(client);
    SendIs(request);
    hide Inv, TrimSpace, Blank, ValidateSend, Canonical, IsSend;
    if smooth && r.Ok? {
      SmoothTold(before, tables, client, request, out, r.event);
    }
  }

  lemma SmoothTold(before: Db, tables: Tables, client: string, request: SendRequest, out: Outside, e: Event)
    requires Inv(before) && IsSend(request) && RequestOk(client, request) && Canonical(out.newId)
    requires Unused(before.tables, out) && Outcome(before.tables, tables, client, request, out, e)
    ensures Told(client, request, before.tables, out, FrameFor(request, Ok(e)))
  {
    TrimSpaceEmpty(client);
    var key := ClientKey(client, request.clientMessageID);
    if KeyTaken(before.tables, key) {
      var slot :| slot in before.tables.messages && EchoOf(slot, before.tables.messages[slot], key, e);
      EchoPasses(before, slot, key, e);
    } else {
      FreshPasses(before, request, out, e);
    }
  }

  lemma FreshPasses(d: Db, r: SendRequest, out: Outside, e: Event)
    requires Inv(d) && IsSend(r) && Canonical(out.newId) && out.now != 0
    requires e == Event(1, out.newId, r.clientMessageID, r.roomID, Last(d.tables, r.roomID) + 1, out.now, r.payload)
    ensures ValidateAccepted(AckFor(e)).Valid?
  {
    CanonicalNotBlank(out.newId);
    SendIs(r);
    assert TablesDense(d.tables);
    hide Canonical, Blank, TrimSpace;
  }

  /** A row read back is acknowledged unless the time kept for it is zero. */
  lemma EchoPasses(d: Db, slot: Slot, key: ClientKey, e: Event)
    requires Inv(d) && slot in d.tables.messages && EchoOf(slot, d.tables.messages[slot], key, e)
    ensures ValidateAccepted(AckFor(e)).Valid? <==> d.tables.messages[slot].createdAt != 0
  {
    assert slot in d.tables.outbox.Keys;
    assert RowsMatch(slot, d.tables.messages[slot], d.tables.outbox[slot]);
    hide Canonical, Blank;
  }

  lemma CodesNotBlank()
    ensures !Blank(INVALID_REQUEST) && !Blank(NOT_ACCEPTED)
  {
    assert !IsSpace(INVALID_REQUEST[0]) && !IsSpace(NOT_ACCEPTED[0]);
  }
}
