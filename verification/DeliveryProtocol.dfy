/** The delivery service as a protocol: consumer-group claims read partitions
    of the topic, hand every record to MessageService.Handle, and mark its
    offset only after that succeeded.  Handling publishes the record to the
    Redis channel of every message-service instance that presence listed.

    Claims open at the committed offset and may end at any point.  Several
    claims on one partition may overlap, as happens around a rebalance. */
module DeliveryProtocol {
  import opened Contract
  import opened AcceptProtocol
  import opened RelayProtocol

  type ClaimId = nat

  /** app.Message as it is published to Redis; headers and timestamp are not modelled. */
  datatype Envelope = Envelope(key: string, value: Doc)

  /** The next offset to handle and the next offset to commit. */
  datatype Claim = Claim(partition: nat, position: nat, marked: nat)

  /** One successful Handle: where the record lay and whom presence listed. */
  datatype Handled = Handled(partition: nat, offset: nat, targets: seq<string>)

  datatype Delivery = Delivery(
    claims: map<ClaimId, Claim>,
    committed: map<nat, nat>,
    handled: seq<Handled>,
    channels: map<string, seq<Envelope>>)

  datatype Step =
    | Open(c: ClaimId, partition: nat)
    | Handle(c: ClaimId, targets: seq<string>)          // Handle returned nil
    | HandleFail(c: ClaimId, reached: seq<string>)      // Handle returned an error: the claim ends
    | MarkOffset(c: ClaimId)
    | CommitOffset(c: ClaimId)
    | Close(c: ClaimId)

  // ---------- MessageService.Handle ----------

  function EnvelopeOf(record: Record): Envelope
  {
    Envelope(record.key, record.value)
  }

  /** The checks before the presence lookup. */
  function Admit(m: Envelope): Checked
  {
    match Decode(m.value)
    case None => Invalid("decode v1 message event")
    case Some(event) =>
      var checked := ValidateEvent(event);
      if !checked.Valid? then checked
      else if m.key != event.roomID then Invalid("Kafka room key does not match event room")
      else Valid
  }

  /** A record is admitted exactly when it is a valid event under its room's key. */
  lemma AdmitPasses(m: Envelope)
    ensures Admit(m).Valid? <==> m.value.Encoded? && ValidateEvent(m.value.event).Valid? && m.key == m.value.event.roomID
  {
  }

  function ChannelAt(channels: map<string, seq<Envelope>>, name: string): seq<Envelope>
  {
    if name in channels then channels[name] else []
  }

  /** PublishMessage: one publish per listed instance, in list order. */
  function PublishAll(channels: map<string, seq<Envelope>>, targets: seq<string>, m: Envelope): map<string, seq<Envelope>>
    decreases |targets|
  {
    if targets == [] then channels
    else PublishAll(channels[targets[0] := ChannelAt(channels, targets[0]) + [m]], targets[1..], m)
  }

  // ---------- steps ----------

  function CommittedAt(d: Delivery, p: nat): nat
  {
    if p in d.committed then d.committed[p] else 0
  }

  predicate HasRecord(n: Net, d: Delivery, c: ClaimId)
  {
    c in d.claims && d.claims[c].position < |LogAt(n, d.claims[c].partition)|
  }

  function NextRecord(n: Net, d: Delivery, c: ClaimId): Envelope
    requires HasRecord(n, d, c)
  {
    EnvelopeOf(LogAt(n, d.claims[c].partition)[d.claims[c].position])
  }

  predicate Enabled(n: Net, d: Delivery, step: Step)
  {
    match step
    case Open(c, p) => c !in d.claims
    case Handle(c, targets) => HasRecord(n, d, c) && Admit(NextRecord(n, d, c)).Valid?
    case HandleFail(c, reached) => HasRecord(n, d, c) && (reached != [] ==> Admit(NextRecord(n, d, c)).Valid?)
    case MarkOffset(c) => c in d.claims
    case CommitOffset(c) => c in d.claims
    case Close(c) => c in d.claims
  }

  function Apply(n: Net, d: Delivery, step: Step): Delivery
    requires Enabled(n, d, step)
  {
    match step
    case Open(c, p) => d.(claims := d.claims[c := Claim(p, CommittedAt(d, p), CommittedAt(d, p))])
    case Handle(c, targets) =>
      var claim := d.claims[c];
      d.(claims := d.claims[c := claim.(position := claim.position + 1)],
         handled := d.handled + [Handled(claim.partition, claim.position, targets)],
         channels := PublishAll(d.channels, targets, NextRecord(n, d, c)))
    case HandleFail(c, reached) =>
      d.(claims := d.claims - {c}, channels := PublishAll(d.channels, reached, NextRecord(n, d, c)))
    case MarkOffset(c) => d.(claims := d.claims[c := d.claims[c].(marked := d.claims[c].position)])
    case CommitOffset(c) => d.(committed := d.committed[d.claims[c].partition := d.claims[c].marked])
    case Close(c) => d.(claims := d.claims - {c})
  }

  predicate Init(d: Delivery)
  {
    d == Delivery(map[], map[], [], map[])
  }

  // ---------- the invariant ----------

  /** Among the first k successes there is one for offset m of partition p. */
  ghost predicate DoneBefore(handled: seq<Handled>, p: nat, m: nat, k: nat)
  {
    exists j :: 0 <= j < k && j < |handled| && handled[j].partition == p && handled[j].offset == m
  }

  ghost predicate AllDone(handled: seq<Handled>, p: nat, upTo: nat, k: nat)
  {
    forall m: nat :: m < upTo ==> DoneBefore(handled, p, m, k)
  }

  ghost predicate ClaimOk(d: Delivery, claim: Claim)
  {
    claim.marked <= claim.position && AllDone(d.handled, claim.partition, claim.position, |d.handled|)
  }

  /** A success: the offset exists, all smaller offsets were handled before,
      and every listed instance was sent the record. */
  ghost predicate HandledOk(n: Net, d: Delivery, i: nat)
    requires i < |d.handled|
  {
    var h := d.handled[i];
    && h.offset < |LogAt(n, h.partition)|
    && AllDone(d.handled, h.partition, h.offset, i)
    && forall name :: name in h.targets ==>
         EnvelopeOf(LogAt(n, h.partition)[h.offset]) in ChannelAt(d.channels, name)
  }

  predicate EnvelopeOk(outbox: map<Slot, OutboxRow>, m: Envelope)
  {
    m.value.Encoded? && CommittedEvent(outbox, m.value.event) && m.key == m.value.event.roomID
  }

  ghost predicate ChannelsOk(outbox: map<Slot, OutboxRow>, channels: map<string, seq<Envelope>>)
  {
    forall name, k :: name in channels && 0 <= k < |channels[name]| ==> EnvelopeOk(outbox, channels[name][k])
  }

  ghost predicate Inv(outbox: map<Slot, OutboxRow>, n: Net, d: Delivery)
  {
    && (forall c :: c in d.claims ==> ClaimOk(d, d.claims[c]))
    && (forall p :: p in d.committed ==> AllDone(d.handled, p, d.committed[p], |d.handled|))
    && (forall i :: 0 <= i < |d.handled| ==> HandledOk(n, d, i))
    && ChannelsOk(outbox, d.channels)
  }

  /** The environment of the delivery service only adds. */
  lemma EnvironmentGrows(outbox: map<Slot, OutboxRow>, outbox': map<Slot, OutboxRow>, n: Net, n': Net, d: Delivery)
    requires Inv(outbox, n, d)
    requires forall slot :: slot in outbox ==> slot in outbox' && outbox'[slot] == outbox[slot]
    requires forall p :: LogAt(n, p) <= LogAt(n', p)
    ensures Inv(outbox', n', d)
  {
    forall i | 0 <= i < |d.handled|
      ensures HandledOk(n', d, i)
    {
      assert HandledOk(n, d, i);
      assert LogAt(n, d.handled[i].partition) <= LogAt(n', d.handled[i].partition);
    }
  }

  // ---------- every step keeps it ----------

  lemma {:induction false} PublishAllChannels(
    outbox: map<Slot, OutboxRow>, channels: map<string, seq<Envelope>>, targets: seq<string>, m: Envelope)
    requires ChannelsOk(outbox, channels) && (targets != [] ==> EnvelopeOk(outbox, m))
    ensures ChannelsOk(outbox, PublishAll(channels, targets, m))
    decreases |targets|
  {
    if targets != [] {
      PublishAllChannels(outbox, channels[targets[0] := ChannelAt(channels, targets[0]) + [m]], targets[1..], m);
    }
  }

  /** Every listed channel gets the record, and no channel loses anything. */
  lemma {:induction false} PublishAllReaches(
    channels: map<string, seq<Envelope>>, targets: seq<string>, m: Envelope, name: string)
    ensures ChannelAt(channels, name) <= ChannelAt(PublishAll(channels, targets, m), name)
    ensures name in targets ==> m in ChannelAt(PublishAll(channels, targets, m), name)
    decreases |targets|
  {
    if targets != [] {
      var channels' := channels[targets[0] := ChannelAt(channels, targets[0]) + [m]];
      PublishAllReaches(channels', targets[1..], m, name);
      assert name == targets[0] ==> m == ChannelAt(channels', name)[|ChannelAt(channels', name)| - 1];
    }
  }

  /** Exactly one copy per mention, at the end. */
  lemma {:induction false} PublishAllExact(
    channels: map<string, seq<Envelope>>, targets: seq<string>, m: Envelope, name: string)
    requires forall i, j :: 0 <= i < j < |targets| ==> targets[i] != targets[j]
    ensures ChannelAt(PublishAll(channels, targets, m), name)
            == ChannelAt(channels, name) + if name in targets then [m] else []
    decreases |targets|
  {
    if targets != [] {
      var channels' := channels[targets[0] := ChannelAt(channels, targets[0]) + [m]];
      PublishAllExact(channels', targets[1..], m, name);
      assert targets[0] !in targets[1..];
      assert name in targets <==> name == targets[0] || name in targets[1..];
    }
  }

  lemma DoneGrows(handled: seq<Handled>, h: Handled, p: nat, upTo: nat, k: nat, k': nat)
    requires AllDone(handled, p, upTo, k) && k <= k'
    ensures AllDone(handled + [h], p, upTo, k')
  {
    forall m: nat | m < upTo
      ensures DoneBefore(handled + [h], p, m, k')
    {
      assert DoneBefore(handled, p, m, k);
      var j :| 0 <= j < k && j < |handled| && handled[j].partition == p && handled[j].offset == m;
      assert (handled + [h])[j] == handled[j];
    }
  }

  /** One more success extends what is done by its own offset. */
  lemma DoneNext(handled: seq<Handled>, h: Handled)
    requires AllDone(handled, h.partition, h.offset, |handled|)
    ensures AllDone(handled + [h], h.partition, h.offset + 1, |handled| + 1)
  {
    DoneGrows(handled, h, h.partition, h.offset, |handled|, |handled| + 1);
    assert (handled + [h])[|handled|] == h;
    assert DoneBefore(handled + [h], h.partition, h.offset, |handled| + 1);
  }

  lemma RecordEnvelope(outbox: map<Slot, OutboxRow>, cfg: Config, n: Net, p: nat, i: nat)
    requires LogOk(outbox, cfg, n) && i < |LogAt(n, p)|
    ensures EnvelopeOk(outbox, EnvelopeOf(LogAt(n, p)[i]))
  {
    assert RecordOk(outbox, n.log[p], i);
  }

  lemma HandledKept(n: Net, d: Delivery, d': Delivery, i: nat, targets: seq<string>, m: Envelope)
    requires i < |d.handled| && HandledOk(n, d, i)
    requires d.handled <= d'.handled && |d'.handled| <= |d.handled| + 1
    requires d'.channels == PublishAll(d.channels, targets, m)
    ensures HandledOk(n, d', i)
  {
    var h := d.handled[i];
    assert d'.handled[i] == h;
    if d'.handled != d.handled {
      assert d'.handled == d.handled + [d'.handled[|d.handled|]];
      DoneGrows(d.handled, d'.handled[|d.handled|], h.partition, h.offset, i, i);
    }
    forall name | name in h.targets
      ensures EnvelopeOf(LogAt(n, h.partition)[h.offset]) in ChannelAt(d'.channels, name)
    {
      PublishAllReaches(d.channels, targets, m, name);
    }
  }

  lemma HandleInv(outbox: map<Slot, OutboxRow>, cfg: Config, n: Net, d: Delivery, step: Step)
    requires LogOk(outbox, cfg, n) && Inv(outbox, n, d) && step.Handle? && Enabled(n, d, step)
    ensures Inv(outbox, n, Apply(n, d, step))
  {
    hide ValidateEvent, Admit;
    var claim := d.claims[step.c];
    var m, d' := NextRecord(n, d, step.c), Apply(n, d, step);
    var h := Handled(claim.partition, claim.position, step.targets);
    assert ClaimOk(d, claim);
    RecordEnvelope(outbox, cfg, n, claim.partition, claim.position);
    PublishAllChannels(outbox, d.channels, step.targets, m);
    DoneNext(d.handled, h);
    forall c | c in d'.claims
      ensures ClaimOk(d', d'.claims[c])
    {
      if c != step.c {
        assert ClaimOk(d, d.claims[c]);
        DoneGrows(d.handled, h, d.claims[c].partition, d.claims[c].position, |d.handled|, |d.handled| + 1);
      }
    }
    forall p | p in d'.committed
      ensures AllDone(d'.handled, p, d'.committed[p], |d'.handled|)
    {
      DoneGrows(d.handled, h, p, d.committed[p], |d.handled|, |d.handled| + 1);
    }
    HandleHistory(n, d, step);
  }

  lemma HandleHistory(n: Net, d: Delivery, step: Step)
    requires step.Handle? && Enabled(n, d, step) && ClaimOk(d, d.claims[step.c])
    requires forall i :: 0 <= i < |d.handled| ==> HandledOk(n, d, i)
    ensures forall i :: 0 <= i < |Apply(n, d, step).handled| ==> HandledOk(n, Apply(n, d, step), i)
  {
    hide Admit;
    var claim := d.claims[step.c];
    var m, d' := NextRecord(n, d, step.c), Apply(n, d, step);
    var h := Handled(claim.partition, claim.position, step.targets);
    forall i | 0 <= i < |d'.handled|
      ensures HandledOk(n, d', i)
    {
      if i < |d.handled| {
        HandledKept(n, d, d', i, step.targets, m);
      } else {
        assert d'.handled[i] == h;
        DoneGrows(d.handled, h, claim.partition, claim.position, |d.handled|, |d.handled|);
        forall name | name in step.targets
          ensures m in ChannelAt(d'.channels, name)
        {
          PublishAllReaches(d.channels, step.targets, m, name);
        }
      }
    }
  }

  /** Every step of every claim keeps the invariant. */
  lemma StepInv(outbox: map<Slot, OutboxRow>, cfg: Config, n: Net, d: Delivery, step: Step)
    requires LogOk(outbox, cfg, n) && Inv(outbox, n, d) && Enabled(n, d, step)
    ensures Inv(outbox, n, Apply(n, d, step))
  {
    hide ValidateEvent, Admit, LogOk;
    var d' := Apply(n, d, step);
    if step.Handle? {
      HandleInv(outbox, cfg, n, d, step);
    } else if step.HandleFail? {
      var claim := d.claims[step.c];
      var m := NextRecord(n, d, step.c);
      RecordEnvelope(outbox, cfg, n, claim.partition, claim.position);
      PublishAllChannels(outbox, d.channels, step.reached, m);
      forall i | 0 <= i < |d.handled|
        ensures HandledOk(n, d', i)
      {
        HandledKept(n, d, d', i, step.reached, m);
      }
      ClaimsKept(d, d');
    } else {
      assert step.c in d.claims ==> ClaimOk(d, d.claims[step.c]);
      forall i | 0 <= i < |d.handled|
        ensures HandledOk(n, d', i)
      {
        assert HandledOk(n, d, i);
      }
      PlainClaims(n, d, step);
    }
  }

  lemma ClaimsKept(d: Delivery, d': Delivery)
    requires d'.handled == d.handled && d'.claims.Keys <= d.claims.Keys
    requires forall c :: c in d.claims ==> ClaimOk(d, d.claims[c])
    requires forall c :: c in d'.claims ==> d'.claims[c] == d.claims[c]
    ensures forall c :: c in d'.claims ==> ClaimOk(d', d'.claims[c])
  {
    forall c | c in d'.claims
      ensures ClaimOk(d', d'.claims[c])
    {
      assert c in d.claims && ClaimOk(d, d.claims[c]);
    }
  }

  lemma PlainClaims(n: Net, d: Delivery, step: Step)
    requires Enabled(n, d, step) && !step.Handle? && !step.HandleFail?
    requires forall c :: c in d.claims ==> ClaimOk(d, d.claims[c])
    requires forall p :: p in d.committed ==> AllDone(d.handled, p, d.committed[p], |d.handled|)
    ensures var d' := Apply(n, d, step);
            && (forall c :: c in d'.claims ==> ClaimOk(d', d'.claims[c]))
            && (forall p :: p in d'.committed ==> AllDone(d'.handled, p, d'.committed[p], |d'.handled|))
  {
    var d' := Apply(n, d, step);
    assert step.c in d.claims ==> ClaimOk(d, d.claims[step.c]);
    forall c | c in d'.claims
      ensures ClaimOk(d', d'.claims[c])
    {
      if c != step.c {
        assert ClaimOk(d, d.claims[c]);
      }
    }
  }

  // ---------- runs over a fixed topic ----------

  predicate Legal(n: Net, d: Delivery, steps: seq<Step>)
    decreases |steps|
  {
    steps == [] || (Enabled(n, d, steps[0]) && Legal(n, Apply(n, d, steps[0]), steps[1..]))
  }

  function After(n: Net, d: Delivery, steps: seq<Step>): Delivery
    requires Legal(n, d, steps)
    decreases |steps|
  {
    if steps == [] then d else After(n, Apply(n, d, steps[0]), steps[1..])
  }

  lemma {:induction false} LegalAppend(n: Net, d: Delivery, steps: seq<Step>, step: Step)
    requires Legal(n, d, steps) && Enabled(n, After(n, d, steps), step)
    ensures Legal(n, d, steps + [step])
    ensures After(n, d, steps + [step]) == Apply(n, After(n, d, steps), step)
    decreases |steps|
  {
    hide Enabled, Apply;
    if steps == [] {
      var rest := [step][1..];
      assert rest == [] && steps + [step] == [step];
      assert Legal(n, Apply(n, d, step), rest) && After(n, Apply(n, d, step), rest) == Apply(n, d, step);
    } else {
      assert (steps + [step])[0] == steps[0] && (steps + [step])[1..] == steps[1..] + [step];
      LegalAppend(n, Apply(n, d, steps[0]), steps[1..], step);
    }
  }

  /** A claim's way through one record: it opens at the committed offset; a
      success moves it on and reaches the targets; marking and committing then
      put the committed offset behind the record, so that the next claim on the
      partition starts there. */
  lemma ClaimAdvances(n: Net, d: Delivery, c: ClaimId, p: nat, targets: seq<string>)
    requires c !in d.claims && CommittedAt(d, p) < |LogAt(n, p)|
    requires Admit(EnvelopeOf(LogAt(n, p)[CommittedAt(d, p)])).Valid?
    ensures var offset := CommittedAt(d, p);
            var steps := [Open(c, p), Handle(c, targets), MarkOffset(c), CommitOffset(c)];
            && Legal(n, d, steps)
            && var d' := After(n, d, steps);
            && CommittedAt(d', p) == offset + 1 && c in d'.claims && d'.claims[c] == Claim(p, offset + 1, offset + 1)
            && d'.handled == d.handled + [Handled(p, offset, targets)]
            && d'.channels == PublishAll(d.channels, targets, EnvelopeOf(LogAt(n, p)[offset]))
            && (forall q :: q != p ==> CommittedAt(d', q) == CommittedAt(d, q))
  {
    hide Admit, PublishAll, Legal, After;
    assert Legal(n, d, []) && After(n, d, []) == d by { NoSteps(n, d); }
    var open, handle, mark, commit := Open(c, p), Handle(c, targets), MarkOffset(c), CommitOffset(c);
    LegalAppend(n, d, [], open);
    assert [] + [open] == [open];
    LegalAppend(n, d, [open], handle);
    assert [open] + [handle] == [open, handle];
    LegalAppend(n, d, [open, handle], mark);
    assert [open, handle] + [mark] == [open, handle, mark];
    LegalAppend(n, d, [open, handle, mark], commit);
    assert [open, handle, mark] + [commit] == [open, handle, mark, commit];
  }

  lemma NoSteps(n: Net, d: Delivery)
    ensures Legal(n, d, []) && After(n, d, []) == d
  {
  }

  // ---------- what it means ----------

  /** The event handled by the i-th success. */
  function HandledEvent(n: Net, d: Delivery, i: nat): Option<Event>
    requires i < |d.handled|
  {
    var h := d.handled[i];
    if h.offset < |LogAt(n, h.partition)| then Decode(LogAt(n, h.partition)[h.offset].value) else None
  }

  /** No room's number k is handled before k - 1 was. */
  lemma HandledInOrder(outbox: map<Slot, OutboxRow>, cfg: Config, n: Net, d: Delivery, i: nat)
    requires OutboxOk(outbox) && LogOk(outbox, cfg, n) && Inv(outbox, n, d) && i < |d.handled|
    ensures HandledEvent(n, d, i).Some?
    ensures var e := HandledEvent(n, d, i).value;
            e.roomSeq > 1 ==>
              exists j :: 0 <= j < i && HandledEvent(n, d, j).Some?
                && HandledEvent(n, d, j).value.roomID == e.roomID
                && HandledEvent(n, d, j).value.roomSeq == e.roomSeq - 1
  {
    var h := d.handled[i];
    assert HandledOk(n, d, i);
    var log := LogAt(n, h.partition);
    assert RecordOk(outbox, log, h.offset);
    var e := log[h.offset].value.event;
    if e.roomSeq > 1 {
      var prev := Slot(e.roomID, e.roomSeq - 1);
      var record := RecordOf(EntryOf(prev, outbox[prev]));
      var m :| 0 <= m < h.offset && log[..h.offset][m] == record;
      assert DoneBefore(d.handled, h.partition, m, i);
      var j :| 0 <= j < i && j < |d.handled| && d.handled[j].partition == h.partition && d.handled[j].offset == m;
      assert RecordOk(outbox, log, m);
      assert HandledEvent(n, d, j) == Some(outbox[prev].event);
    }
  }

  /** Every offset below the committed one was handled successfully: its
      record was sent to every instance presence listed then. */
  lemma NothingLost(outbox: map<Slot, OutboxRow>, n: Net, d: Delivery, p: nat, m: nat)
    requires Inv(outbox, n, d) && m < CommittedAt(d, p)
    ensures m < |LogAt(n, p)|
    ensures exists j :: 0 <= j < |d.handled| && d.handled[j].partition == p && d.handled[j].offset == m
              && forall name :: name in d.handled[j].targets ==>
                   EnvelopeOf(LogAt(n, p)[m]) in ChannelAt(d.channels, name)
  {
    assert DoneBefore(d.handled, p, m, |d.handled|);
    var j :| 0 <= j < |d.handled| && d.handled[j].partition == p && d.handled[j].offset == m;
    assert HandledOk(n, d, j);
  }
}
