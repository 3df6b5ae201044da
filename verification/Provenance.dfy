/** Where committed rows come from: every one repeats what some client sent in
    some request of the run, under an identifier and a time that some insert of
    the run brought along. */
module Provenance {
  import opened Contract
  import opened AcceptProtocol

  /** The two rows of a slot are those of this request, identifier and time. */
  predicate RowsOf(slot: Slot, m: MessageRow, o: OutboxRow, client: string, request: SendRequest, id: IdText, now: int)
  {
    && slot.room == request.roomID
    && m == MessageRow(id, ClientKey(client, request.clientMessageID), now - now % 1000, request.payload)
    && o == OutboxRow(
         id,
         Event(1, id, request.clientMessageID, request.roomID, slot.number, now, request.payload),
         now - now % 1000)
  }

  /** One session of the run began with this request and inserted under this
      identifier at this time. */
  predicate Ran(steps: seq<Step>, t: SessionId, client: string, request: SendRequest, id: IdText, now: int)
  {
    Begin(t, client, request) in steps && Insert(t, id, now) in steps
  }

  ghost predicate RowTraced(steps: seq<Step>, slot: Slot, m: MessageRow, o: OutboxRow)
  {
    exists t, client, request, id, now ::
      Ran(steps, t, client, request, id, now) && RowsOf(slot, m, o, client, request, id, now)
  }

  ghost predicate SessionTraced(steps: seq<Step>, t: SessionId, s: Session)
  {
    && Begin(t, s.client, s.request) in steps
    && (HoldsRow(s) ==>
          && Insert(t, s.phase.id, s.phase.event.createdAt) in steps
          && s.phase.event == Event(1, s.phase.id, s.request.clientMessageID, s.request.roomID,
                                    s.phase.event.roomSeq, s.phase.event.createdAt, s.request.payload))
  }

  ghost predicate TablesTraced(steps: seq<Step>, tb: Tables)
  {
    forall slot :: slot in tb.messages ==>
      slot in tb.outbox && RowTraced(steps, slot, tb.messages[slot], tb.outbox[slot])
  }

  ghost predicate Traced(steps: seq<Step>, d: Db)
  {
    && (forall t :: t in d.sessions ==> SessionTraced(steps, t, d.sessions[t]))
    && TablesTraced(steps, d.tables)
  }

  lemma TablesLater(steps: seq<Step>, step: Step, tb: Tables)
    requires TablesTraced(steps, tb)
    ensures TablesTraced(steps + [step], tb)
  {
    forall slot | slot in tb.messages
      ensures RowTraced(steps + [step], slot, tb.messages[slot], tb.outbox[slot])
    {
      var t, client, request, id, now :|
        Ran(steps, t, client, request, id, now)
        && RowsOf(slot, tb.messages[slot], tb.outbox[slot], client, request, id, now);
      assert Ran(steps + [step], t, client, request, id, now);
    }
  }

  lemma CommitTraced(steps: seq<Step>, tb: Tables, t: SessionId, s: Session)
    requires TablesTraced(steps, tb) && s.phase.Enqueued? && SessionTraced(steps, t, s)
    ensures TablesTraced(steps, Committed(tb, s))
  {
    var tb' := Committed(tb, s);
    var own := Slot(s.request.roomID, s.phase.event.roomSeq);
    assert Ran(steps, t, s.client, s.request, s.phase.id, s.phase.event.createdAt);
    assert RowsOf(own, tb'.messages[own], tb'.outbox[own], s.client, s.request, s.phase.id, s.phase.event.createdAt);
  }

  lemma SessionsStep(steps: seq<Step>, d: Db, step: Step, t: SessionId)
    requires Enabled(d, step) && t in Apply(d, step).sessions
    requires t in d.sessions ==> SessionTraced(steps, t, d.sessions[t])
    ensures SessionTraced(steps + [step], t, Apply(d, step).sessions[t])
  {
    hide RequestOk, ValidateEvent, KeyTaken, RowFree, RoomFree;
    assert step in steps + [step];
  }

  lemma StepTraced(steps: seq<Step>, d: Db, step: Step)
    requires Traced(steps, d) && Enabled(d, step)
    ensures Traced(steps + [step], Apply(d, step))
  {
    var d' := Apply(d, step);
    forall t | t in d'.sessions
      ensures SessionTraced(steps + [step], t, d'.sessions[t])
    {
      SessionsStep(steps, d, step, t);
    }
    hide SessionTraced, TablesTraced, Committed;
    TablesLater(steps, step, d.tables);
    if step.Commit? {
      CommitTraced(steps, d.tables, step.t, d.sessions[step.t]);
      TablesLater(steps, step, Committed(d.tables, d.sessions[step.t]));
    }
  }

  lemma {:induction false} RunTraced(d: Db, steps: seq<Step>)
    requires Init(d) && Legal(d, steps)
    ensures Traced(steps, After(d, steps))
    decreases |steps|
  {
    if steps != [] {
      var n := |steps| - 1;
      RunSplit(d, steps, n);
      assert steps[n..] == [steps[n]];
      LastStep(After(d, steps[..n]), steps[n]);
      RunTraced(d, steps[..n]);
      hide Traced, Apply, Enabled;
      StepTraced(steps[..n], After(d, steps[..n]), steps[n]);
      assert steps[..n] + [steps[n]] == steps;
    }
  }

  lemma LastStep(d: Db, step: Step)
    requires Legal(d, [step])
    ensures Enabled(d, step) && After(d, [step]) == Apply(d, step)
  {
    assert [step][0] == step;
    OneStep(d, step);
  }

  /** In every state of every run, each committed slot holds what one client
      asked for in one request: its client and client message id, its room and
      its payload, in both tables. */
  lemma RowsComeFromRequests(d: Db, steps: seq<Step>, slot: Slot)
    requires Init(d) && Legal(d, steps) && slot in After(d, steps).tables.messages
    ensures var tb := After(d, steps).tables;
            && slot in tb.outbox && RowTraced(steps, slot, tb.messages[slot], tb.outbox[slot])
            && exists t, client, request ::
                 && Begin(t, client, request) in steps
                 && slot.room == request.roomID == tb.outbox[slot].event.roomID
                 && tb.messages[slot].key == ClientKey(client, request.clientMessageID)
                 && tb.outbox[slot].event.clientMessageID == request.clientMessageID
                 && tb.messages[slot].payload == request.payload == tb.outbox[slot].event.payload
  {
    RunTraced(d, steps);
    var tb := After(d, steps).tables;
    hide Legal, After, Traced, TablesTraced;
    assert slot in tb.outbox && RowTraced(steps, slot, tb.messages[slot], tb.outbox[slot]) by {
      SlotTraced(steps, After(d, steps), slot);
    }
    var t, client, request, id, now :|
      Ran(steps, t, client, request, id, now)
      && RowsOf(slot, tb.messages[slot], tb.outbox[slot], client, request, id, now);
    assert Begin(t, client, request) in steps;
  }

  lemma SlotTraced(steps: seq<Step>, d: Db, slot: Slot)
    requires Traced(steps, d) && slot in d.tables.messages
    ensures slot in d.tables.outbox && RowTraced(steps, slot, d.tables.messages[slot], d.tables.outbox[slot])
  {
  }
}
