/** ConsumeClaim, MessageService.Handle and PublishMessage as the source
    writes them.  Every effect is a step of the delivery protocol. */
module Delivery {
  import opened Contract
  import opened AcceptProtocol
  import opened RelayProtocol
  import opened DeliveryProtocol

  /** The answer of the presence service. */
  datatype Presence = Unavailable | Listed(names: seq<string>)

  /** What the Redis pipeline comes to: every publish, or an error after some
      of them. */
  datatype Pipe = AllSent | Broken(reached: seq<string>)

  /** Everything the code does not decide, per offset. */
  datatype Outside = Outside(presence: nat -> Presence, pipe: nat -> Pipe)

  /** One publish per name, queued in list order. */
  method PublishMessage(channels: map<string, seq<Envelope>>, m: Envelope, names: seq<string>)
    returns (after: map<string, seq<Envelope>>)
    ensures after == PublishAll(channels, names, m)
  {
    after := channels;
    assert names[0..] == names;
    for i := 0 to |names|
      invariant PublishAll(after, names[i..], m) == PublishAll(channels, names, m)
    {
      assert names[i..][0] == names[i] && names[i..][1..] == names[i + 1..];
      after := after[names[i] := ChannelAt(after, names[i]) + [m]];
    }
    assert names[|names|..] == [];
  }

  /** Whether Handle returns nil for the record at this offset. */
  predicate Succeeds(out: Outside, m: Envelope, offset: nat)
  {
    && m.value.Encoded? && ValidateEvent(m.value.event).Valid? && m.key == m.value.event.roomID
    && out.presence(offset).Listed?
    && (out.presence(offset).names == [] || out.pipe(offset).AllSent?)
  }

  /** Whom a failing Handle reached: nobody, unless the pipeline broke off. */
  function Reached(out: Outside, m: Envelope, offset: nat): seq<string>
  {
    if m.value.Encoded? && ValidateEvent(m.value.event).Valid? && m.key == m.value.event.roomID
       && out.presence(offset).Listed? && out.presence(offset).names != [] && out.pipe(offset).Broken?
    then out.pipe(offset).reached else []
  }

  /** Presence answers and no publish is lost. */
  ghost predicate Whole(out: Outside)
  {
    forall offset :: out.presence(offset).Listed? && (out.presence(offset).names == [] || out.pipe(offset).AllSent?)
  }

  /** Every committed event is valid, as commits make it. */
  ghost predicate AllValid(outbox: map<Slot, OutboxRow>)
  {
    forall slot :: slot in outbox ==> ValidateEvent(outbox[slot].event).Valid?
  }

  lemma NextSucceeds(outbox: map<Slot, OutboxRow>, cfg: Config, n: Net, d: DeliveryProtocol.Delivery, c: ClaimId, out: Outside)
    requires LogOk(outbox, cfg, n) && AllValid(outbox) && Whole(out) && HasRecord(n, d, c)
    ensures Succeeds(out, NextRecord(n, d, c), d.claims[c].position)
  {
    hide ValidateEvent;
    var claim := d.claims[c];
    assert RecordOk(outbox, LogAt(n, claim.partition), claim.position);
  }

  /** The successes from index `first` on are those of consecutive offsets,
      starting at `from`, each sent to the names presence gave for it. */
  ghost predicate Consecutive(n: Net, out: Outside, p: nat, from: nat, handled: seq<Handled>, first: nat)
  {
    forall k :: first <= k < |handled| ==>
      && handled[k].partition == p
      && handled[k].offset == from + (k - first) < |LogAt(n, p)|
      && Succeeds(out, EnvelopeOf(LogAt(n, p)[handled[k].offset]), handled[k].offset)
      && out.presence(handled[k].offset) == Listed(handled[k].targets)
  }

  class Consumer {
    const cfg: Config
    const outbox: map<Slot, OutboxRow>
    const net: Net
    var state: DeliveryProtocol.Delivery
    ghost var start: DeliveryProtocol.Delivery
    ghost var trace: seq<DeliveryProtocol.Step>

    ghost predicate Valid()
      reads this
    {
      && LogOk(outbox, cfg, net) && DeliveryProtocol.Inv(outbox, net, state)
      && DeliveryProtocol.Legal(net, start, trace) && DeliveryProtocol.After(net, start, trace) == state
    }

    /** The history so far is kept and extended. */
    twostate predicate Extends()
      reads this
    {
      start == old(start) && old(trace) <= trace
    }

    constructor (cfg: Config, outbox: map<Slot, OutboxRow>, net: Net, state: DeliveryProtocol.Delivery)
      requires LogOk(outbox, cfg, net) && DeliveryProtocol.Inv(outbox, net, state)
      ensures Valid() && this.cfg == cfg && this.outbox == outbox && this.net == net && this.state == state
      ensures start == state && trace == []
    {
      this.cfg, this.outbox, this.net, this.state := cfg, outbox, net, state;
      start, trace := state, [];
    }

    method Do(step: DeliveryProtocol.Step)
      requires Valid() && DeliveryProtocol.Enabled(net, state, step)
      modifies this
      ensures Valid() && Extends() && state == DeliveryProtocol.Apply(net, old(state), step)
    {
      hide DeliveryProtocol.Inv, LogOk;
      DeliveryProtocol.StepInv(outbox, cfg, net, state, step);
      DeliveryProtocol.LegalAppend(net, start, trace, step);
      trace := trace + [step];
      state := DeliveryProtocol.Apply(net, state, step);
    }

    /** MessageService.Handle on the next record m of claim c.  It succeeds
        exactly when m is a valid event under its room's key, presence answers,
        and there is nobody to send to or every publish goes out; then the claim
        moves on.  Otherwise the claim ends, possibly after some publishes. */
    method Handle(c: ClaimId, out: Outside) returns (ok: bool)
      requires Valid() && HasRecord(net, state, c)
      modifies this
      ensures Valid() && Extends() && state.committed == old(state).committed
      ensures var m, offset := NextRecord(net, old(state), c), old(state).claims[c].position;
              ok <==> && m.value.Encoded? && ValidateEvent(m.value.event).Valid? && m.key == m.value.event.roomID
                      && out.presence(offset).Listed?
                      && (out.presence(offset).names == [] || out.pipe(offset).AllSent?)
      ensures ok ==>
                var claim := old(state).claims[c];
                var names := out.presence(claim.position).names;
                && state.claims == old(state).claims[c := Claim(claim.partition, claim.position + 1, claim.marked)]
                && state.handled == old(state).handled + [Handled(claim.partition, claim.position, names)]
                && state.channels == PublishAll(old(state).channels, names, NextRecord(net, old(state), c))
                && (names == [] ==> state.channels == old(state).channels)
      ensures !ok ==>
                var m, offset := NextRecord(net, old(state), c), old(state).claims[c].position;
                && state.claims == old(state).claims - {c} && state.handled == old(state).handled
                && state.channels == PublishAll(old(state).channels, Reached(out, m, offset), m)
    {
      hide LogOk, DeliveryProtocol.Inv, DeliveryProtocol.Legal, DeliveryProtocol.After, ValidateEvent;
      var m, offset := NextRecord(net, state, c), state.claims[c].position;
      AdmitPasses(m);
      if !Admit(m).Valid? || out.presence(offset).Unavailable? {
        Do(HandleFail(c, []));
        return false;
      }
      var names := out.presence(offset).names;
      if names != [] && out.pipe(offset).Broken? {
        Do(HandleFail(c, out.pipe(offset).reached));
        return false;
      }
      Do(DeliveryProtocol.Handle(c, names));
      ok := true;
    }

    /** Handles records in offset order until one fails or `budget` records
        are done and the session ends.  An offset is marked only after its
        record was handled; a failing one is never marked.  Over committed
        records, with presence answering and nothing lost, it never fails. */
    method ConsumeClaim(c: ClaimId, out: Outside, budget: nat) returns (ok: bool)
      requires Valid() && c in state.claims && state.claims[c].marked == state.claims[c].position
      modifies this
      ensures Valid() && Extends()
      ensures var p, from := old(state).claims[c].partition, old(state).claims[c].position;
              var next := from + |state.handled| - |old(state).handled|;
              && old(state).handled <= state.handled
              && Consecutive(net, out, p, from, state.handled, |old(state).handled|)
              && (ok ==> c in state.claims && state.claims[c] == Claim(p, next, next))
              && (ok ==> next == from + budget || next >= |LogAt(net, p)|)
              && (!ok ==> c !in state.claims && next < |LogAt(net, p)|
                          && !Succeeds(out, EnvelopeOf(LogAt(net, p)[next]), next))
              && (AllValid(outbox) && Whole(out) ==> ok)
    {
      hide Admit, LogOk, DeliveryProtocol.Inv, DeliveryProtocol.Legal, DeliveryProtocol.After, PublishAll, AllValid, Whole, ValidateEvent;
      ghost var h0 := state.handled;
      ghost var claim := state.claims[c];
      var done := 0;
      while done < budget && HasRecord(net, state, c)
        invariant Valid() && Extends() && done <= budget
        invariant c in state.claims
                  && state.claims[c] == Claim(claim.partition, claim.position + done, claim.position + done)
        invariant h0 <= state.handled && |state.handled| == |h0| + done
        invariant Consecutive(net, out, claim.partition, claim.position, state.handled, |h0|)
      {
        if AllValid(outbox) && Whole(out) {
          NextSucceeds(outbox, cfg, net, state, c, out);
        }
        ok := Handle(c, out);
        if !ok {
          return;
        }
        Do(MarkOffset(c));
        done := done + 1;
      }
      ok := true;
    }
  }
}
