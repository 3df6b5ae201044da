/** One relay process as the source writes it: NextPending, the retry loop and
    the batch loop, with other relays free to act before every statement.
    Every effect it has is a step of the relay protocol. */
module Relay {
  import opened Contract
  import opened AcceptProtocol
  import opened RelayProtocol

  /** What one publish attempt comes to. */
  datatype Attempt = Lost | AppendedOnly | Acknowledged

  /** What one run of MarkPublished comes to. */
  datatype MarkAnswer = Applied | AppliedUntold | NotApplied

  /** Everything the code does not decide: what the other relays do before the
      k-th statement, whether the pending rows can be read, the answer to the
      k-th attempt for an entry, whether the context ends during the wait after
      it, the answer to the mark, and how many entries are begun before the
      context ends. */
  datatype Outside = Outside(
    others: (nat, Net) -> seq<RelayProtocol.Step>,
    fetched: bool,
    attempt: (nat, Entry) -> Attempt,
    cancelled: (nat, Entry) -> bool,
    mark: Entry -> MarkAnswer,
    stop: nat)

  ghost predicate NotMine(steps: seq<RelayProtocol.Step>, me: RelayId)
  {
    forall i :: 0 <= i < |steps| ==> steps[i].r != me
  }

  /** The others take protocol steps of their own. */
  ghost predicate Foreign(outbox: map<Slot, OutboxRow>, cfg: Config, out: Outside, me: RelayId)
  {
    forall k, n :: RelayProtocol.Legal(outbox, cfg, n, out.others(k, n)) && NotMine(out.others(k, n), me)
  }

  /** The others stand still. */
  ghost predicate Quiet(out: Outside)
  {
    forall k, n :: out.others(k, n) == []
  }

  lemma {:induction false} OthersRun(outbox: map<Slot, OutboxRow>, cfg: Config, n: Net,
                                     steps: seq<RelayProtocol.Step>, me: RelayId)
    requires RelayProtocol.Legal(outbox, cfg, n, steps) && NotMine(steps, me)
    ensures n.published <= RelayProtocol.After(outbox, cfg, n, steps).published
    ensures me in RelayProtocol.After(outbox, cfg, n, steps).workers <==> me in n.workers
    ensures me in n.workers ==> RelayProtocol.After(outbox, cfg, n, steps).workers[me] == n.workers[me]
    decreases |steps|
  {
    hide IsBatch, ValidateEntry;
    if steps != [] {
      OthersRun(outbox, cfg, RelayProtocol.Apply(outbox, cfg, n, steps[0]), steps[1..], me);
    }
  }

  lemma NoSteps(outbox: map<Slot, OutboxRow>, cfg: Config, n: Net)
    ensures RelayProtocol.Legal(outbox, cfg, n, []) && RelayProtocol.After(outbox, cfg, n, []) == n
  {
  }

  /** How many entries of a batch are begun. */
  function Begun(out: Outside, batch: seq<Entry>): nat
  {
    if out.stop < |batch| then out.stop else |batch|
  }

  /** Some attempt is acknowledged, and the context does not end in a wait
      before it. */
  predicate Served(cfg: Config, out: Outside, e: Entry)
  {
    exists k :: 0 <= k < cfg.maxRetries && out.attempt(k, e).Acknowledged? && forall j :: 0 <= j < k ==> !out.cancelled(j, e)
  }

  /** The entry is valid, gets through to Kafka, and its mark takes effect. */
  predicate GetsPublished(cfg: Config, out: Outside, e: Entry)
  {
    ValidateEntry(e).Valid? && Served(cfg, out, e) && !out.mark(e).NotApplied?
  }

  predicate KnownPublished(cfg: Config, out: Outside, e: Entry)
  {
    GetsPublished(cfg, out, e) && out.mark(e).Applied?
  }

  function PublishedBy(cfg: Config, out: Outside, batch: seq<Entry>): set<Slot>
  {
    set i | 0 <= i < |batch| && GetsPublished(cfg, out, batch[i]) :: SlotOf(batch[i])
  }

  lemma PublishedByNext(cfg: Config, out: Outside, batch: seq<Entry>, k: nat)
    requires k < |batch|
    ensures PublishedBy(cfg, out, batch[..k + 1])
            == PublishedBy(cfg, out, batch[..k])
               + if GetsPublished(cfg, out, batch[k]) then {SlotOf(batch[k])} else {}
  {
    hide GetsPublished;
    var a, b := batch[..k], batch[..k + 1];
    assert b == a + [batch[k]];
    forall i | 0 <= i < k ensures a[i] == b[i] {
    }
    forall slot | slot in PublishedBy(cfg, out, b)
      ensures slot in PublishedBy(cfg, out, a)
              || (GetsPublished(cfg, out, batch[k]) && slot == SlotOf(batch[k]))
    {
      var i :| 0 <= i < |b| && GetsPublished(cfg, out, b[i]) && SlotOf(b[i]) == slot;
      assert i < k ==> a[i] == b[i];
    }
    forall slot | slot in PublishedBy(cfg, out, a)
      ensures slot in PublishedBy(cfg, out, b)
    {
      var i :| 0 <= i < |a| && GetsPublished(cfg, out, a[i]) && SlotOf(a[i]) == slot;
      assert b[i] == a[i];
    }
    assert GetsPublished(cfg, out, batch[k]) ==> SlotOf(b[k]) in PublishedBy(cfg, out, b);
  }

  function Heads(outbox: map<Slot, OutboxRow>, published: set<Slot>): set<Slot>
  {
    set slot | slot in outbox && IsHead(outbox, published, slot)
  }

  /** Distinct heads in created_at order, none of them later than a head left out. */
  ghost predicate IsSelection(outbox: map<Slot, OutboxRow>, heads: set<Slot>, rows: seq<Slot>)
    requires forall s :: s in heads ==> s in outbox
  {
    && (forall i :: 0 <= i < |rows| ==> rows[i] in heads)
    && (forall i, j :: 0 <= i < j < |rows| ==>
          rows[i] != rows[j] && outbox[rows[i]].createdAt <= outbox[rows[j]].createdAt)
    && (forall i, s :: 0 <= i < |rows| && s in heads && s !in rows ==> outbox[rows[i]].createdAt <= outbox[s].createdAt)
  }

  lemma SelectionIsBatch(outbox: map<Slot, OutboxRow>, published: set<Slot>, limit: nat, rows: seq<Slot>, batch: seq<Entry>)
    requires IsSelection(outbox, Heads(outbox, published), rows) && |rows| <= limit
    requires |rows| < limit ==> forall s :: s in Heads(outbox, published) ==> s in rows
    requires |batch| == |rows| && forall i :: 0 <= i < |rows| ==> batch[i] == EntryOf(rows[i], outbox[rows[i]])
    ensures IsBatch(outbox, published, limit, batch)
  {
    forall i | 0 <= i < |batch|
      ensures SlotOf(batch[i]) == rows[i] && IsHead(outbox, published, rows[i])
    {
      assert rows[i] in Heads(outbox, published);
    }
    forall slot | IsHead(outbox, published, slot)
      ensures EntryOf(slot, outbox[slot]) in batch
              || (|batch| == limit
                  && forall i :: 0 <= i < |batch| ==> outbox[SlotOf(batch[i])].createdAt <= outbox[slot].createdAt)
    {
      assert slot in Heads(outbox, published);
      if slot in rows {
        var i :| 0 <= i < |rows| && rows[i] == slot;
        assert batch[i] == EntryOf(slot, outbox[slot]);
      }
    }
  }

  class Relay {
    const r: RelayId
    const cfg: Config
    var outbox: map<Slot, OutboxRow>
    var net: Net
    var tick: nat
    ghost var start: Net
    ghost var trace: seq<RelayProtocol.Step>

    ghost predicate Valid()
      reads this
    {
      && OutboxOk(outbox) && RelayProtocol.Inv(outbox, cfg, net)
      && RelayProtocol.Legal(outbox, cfg, start, trace) && RelayProtocol.After(outbox, cfg, start, trace) == net
    }

    constructor (r: RelayId, cfg: Config, outbox: map<Slot, OutboxRow>, net: Net)
      requires OutboxOk(outbox) && RelayProtocol.Inv(outbox, cfg, net)
      ensures Valid() && this.r == r && this.cfg == cfg && this.outbox == outbox && this.net == net
      ensures start == net && trace == []
    {
      this.r, this.cfg, this.outbox, this.net := r, cfg, outbox, net;
      start, trace, tick := net, [], 0;
    }

    /** The history so far is kept and extended, and no mark is taken back. */
    twostate predicate Extends()
      reads this
    {
      outbox == old(outbox) && start == old(start) && old(trace) <= trace && old(net).published <= net.published
    }

    /** The other relays act. */
    method Pause(out: Outside)
      requires Valid() && Foreign(outbox, cfg, out, r)
      modifies this`net, this`trace, this`tick
      ensures Valid() && Extends()
      ensures r in net.workers <==> r in old(net).workers
      ensures r in net.workers ==> net.workers[r] == old(net).workers[r]
      ensures Quiet(out) ==> net == old(net)
    {
      ghost var steps := out.others(tick, net);
      NoSteps(outbox, cfg, net);
      hide RelayProtocol.Inv, RelayProtocol.Legal, RelayProtocol.After, OutboxOk;
      OthersRun(outbox, cfg, net, steps, r);
      RelayProtocol.RunInv(outbox, cfg, net, steps);
      RelayProtocol.RunAppend(outbox, cfg, start, trace, steps);
      net := RelayProtocol.After(outbox, cfg, net, out.others(tick, net));
      trace := trace + steps;
      tick := tick + 1;
    }

    method Do(step: RelayProtocol.Step)
      requires Valid() && RelayProtocol.Enabled(outbox, cfg, net, step)
      modifies this`net, this`trace
      ensures Valid() && Extends()
      ensures net == RelayProtocol.Apply(outbox, cfg, old(net), step)
    {
      hide RelayProtocol.Inv, OutboxOk, RelayProtocol.Legal, RelayProtocol.After;
      RelayProtocol.StepInv(outbox, cfg, net, step);
      RelayProtocol.LegalAppend(outbox, cfg, start, trace, step);
      net := RelayProtocol.Apply(outbox, cfg, net, step);
      trace := trace + [step];
    }

    /** A slot of the set with the earliest created_at. */
    method Earliest(slots: set<Slot>) returns (first: Slot)
      requires slots != {} && forall s :: s in slots ==> s in outbox
      ensures first in slots
      ensures forall s :: s in slots ==> outbox[first].createdAt <= outbox[s].createdAt
    {
      first :| first in slots;
      var rest := slots - {first};
      while rest != {}
        invariant first in slots && rest <= slots
        invariant forall s :: s in slots && s !in rest ==> outbox[first].createdAt <= outbox[s].createdAt
        decreases rest
      {
        var s :| s in rest;
        if outbox[s].createdAt < outbox[first].createdAt {
          first := s;
        }
        rest := rest - {s};
      }
    }

    /** The rows the query of NextPending selects. */
    method SelectHeads(limit: nat) returns (rows: seq<Slot>)
      ensures IsSelection(outbox, Heads(outbox, net.published), rows)
      ensures |rows| <= limit
      ensures |rows| < limit ==> forall s :: s in Heads(outbox, net.published) ==> s in rows
    {
      hide IsHead;
      var heads := Heads(outbox, net.published);
      var rest := heads;
      rows := [];
      while rest != {} && |rows| < limit
        invariant |rows| <= limit && rest <= heads
        invariant IsSelection(outbox, heads, rows)
        invariant forall s :: s in heads ==> (s in rest <==> s !in rows)
        decreases rest
      {
        var s := Earliest(rest);
        rows := rows + [s];
        rest := rest - {s};
      }
    }

    /** The heads of the pending rooms, earliest first, up to the limit. */
    method NextPending(limit: nat) returns (entries: seq<Entry>)
      ensures IsBatch(outbox, net.published, limit, entries)
    {
      var rows := SelectHeads(limit);
      entries := [];
      for k := 0 to |rows|
        invariant |entries| == k
        invariant forall i :: 0 <= i < k ==> entries[i] == EntryOf(rows[i], outbox[rows[i]])
      {
        entries := entries + [EntryOf(rows[k], outbox[rows[k]])];
      }
      SelectionIsBatch(outbox, net.published, limit, rows, entries);
    }

    /** Tries until acknowledged, at most maxRetries times.  Whether it gets
        through is decided by the answers alone. */
    method PublishWithRetry(out: Outside) returns (ok: bool)
      requires Valid() && Foreign(outbox, cfg, out, r)
      requires r in net.workers && net.workers[r].Publishing? && AtEntry(net.workers[r])
      requires net.workers[r].attempts == 0 && ValidateEntry(net.workers[r].batch[net.workers[r].at]).Valid?
      modifies this`net, this`trace, this`tick
      ensures Valid() && Extends() && (Quiet(out) ==> net.published == old(net).published)
      ensures r in net.workers && !net.workers[r].Idle?
      ensures net.workers[r].batch == old(net).workers[r].batch && net.workers[r].at == old(net).workers[r].at
      ensures ok <==> net.workers[r].Acked?
      ensures var e := old(net).workers[r].batch[old(net).workers[r].at];
              ok <==> exists k :: 0 <= k < cfg.maxRetries && out.attempt(k, e).Acknowledged?
                                  && forall j :: 0 <= j < k ==> !out.cancelled(j, e)
    {
      hide RelayProtocol.Inv, OutboxOk, ValidateEntry, RelayProtocol.Legal, RelayProtocol.After, Foreign, Quiet;
      ghost var w := net.workers[r];
      var e := net.workers[r].batch[net.workers[r].at];
      var k := 0;
      ok := false;
      while k < cfg.maxRetries
        invariant k <= cfg.maxRetries && !ok
        invariant Valid() && Extends() && (Quiet(out) ==> net.published == old(net).published)
        invariant r in net.workers && net.workers[r] == Publishing(w.batch, w.at, k)
        invariant forall j :: 0 <= j < k ==> !out.attempt(j, e).Acknowledged? && (j + 1 < cfg.maxRetries ==> !out.cancelled(j, e))
      {
        Pause(out);
        var answer := out.attempt(k, e);
        Do(Publish(r, !answer.Lost?, answer.Acknowledged?));
        if answer.Acknowledged? {
          return true;
        }
        if k + 1 < cfg.maxRetries && out.cancelled(k, e) {
          return;
        }
        k := k + 1;
      }
    }

    /** MarkPublished: an error when the update did not run, when its outcome
        stays unknown, or when another relay had marked the row already. */
    method MarkPublished(out: Outside) returns (told: bool)
      requires Valid() && Foreign(outbox, cfg, out, r) && r in net.workers && net.workers[r].Acked? && AtEntry(net.workers[r])
      modifies this`net, this`trace, this`tick
      ensures Valid() && Extends()
      ensures var w := old(net).workers[r];
              var e := w.batch[w.at];
              && r in net.workers && net.workers[r] == Publishing(w.batch, w.at + 1, 0)
              && (!out.mark(e).NotApplied? ==> SlotOf(e) in net.published)
              && (told ==> out.mark(e).Applied?)
              && (Quiet(out) ==>
                    && net.published == old(net).published + (if out.mark(e).NotApplied? then {} else {SlotOf(e)})
                    && (told <==> out.mark(e).Applied? && SlotOf(e) !in old(net).published))
    {
      hide RelayProtocol.Inv, OutboxOk, RelayProtocol.Legal, RelayProtocol.After, Foreign, Quiet;
      var e := net.workers[r].batch[net.workers[r].at];
      Pause(out);
      var answer := out.mark(e);
      if answer.NotApplied? {
        Do(Skip(r));
        return false;
      }
      MarksOne(outbox, cfg, net, r);
      told := answer.Applied? && SlotOf(e) !in net.published;
      Do(Mark(r));
    }

    method ProcessEntry(out: Outside, batch: seq<Entry>, k: nat) returns (told: bool)
      requires Valid() && Foreign(outbox, cfg, out, r)
      requires k < |batch| && r in net.workers && net.workers[r] == Publishing(batch, k, 0)
      modifies this`net, this`trace, this`tick
      ensures Valid() && Extends()
      ensures r in net.workers && net.workers[r] == Publishing(batch, k + 1, 0)
      ensures GetsPublished(cfg, out, batch[k]) ==> SlotOf(batch[k]) in net.published
      ensures told ==> KnownPublished(cfg, out, batch[k])
      ensures Quiet(out) ==>
                && net.published == old(net).published
                                    + (if GetsPublished(cfg, out, batch[k]) then {SlotOf(batch[k])} else {})
                && (told <==> KnownPublished(cfg, out, batch[k]) && SlotOf(batch[k]) !in old(net).published)
    {
      hide RelayProtocol.Inv, OutboxOk, ValidateEntry, RelayProtocol.Legal, RelayProtocol.After, Foreign, Quiet;
      if !ValidateEntry(batch[k]).Valid? {
        Do(Skip(r));
        return false;
      }
      var ok := PublishWithRetry(out);
      if !ok {
        Do(Skip(r));
        return false;
      }
      told := MarkPublished(out);
    }

    /** One cycle; `at` is the state in which the batch was read.  What gets
        through is decided entry by entry: one room's failure never keeps
        another room's entry from its attempt.  No error is reported only when
        every entry of the batch is published; with no other relay at work the
        rows added and the error are exact. */
    method ProcessBatch(out: Outside) returns (batch: seq<Entry>, failed: bool, ghost at: Net)
      requires Valid() && Foreign(outbox, cfg, out, r) && WorkerOf(net, r).Idle?
      modifies this`net, this`trace, this`tick
      ensures Valid() && Extends() && WorkerOf(net, r).Idle?
      ensures old(net).published <= at.published && (Quiet(out) ==> at == old(net))
      ensures out.fetched ==> IsBatch(outbox, at.published, cfg.batchSize, batch)
      ensures !out.fetched ==> batch == [] && failed && net == at
      ensures at.published + PublishedBy(cfg, out, batch[..Begun(out, batch)]) <= net.published
      ensures forall i :: 0 <= i < |batch| && i < out.stop && GetsPublished(cfg, out, batch[i]) ==>
                SlotOf(batch[i]) in net.published
      ensures !failed ==> |batch| <= out.stop && forall i :: 0 <= i < |batch| ==> KnownPublished(cfg, out, batch[i])
      ensures Quiet(out) ==> net.published == at.published + PublishedBy(cfg, out, batch[..Begun(out, batch)])
      ensures Quiet(out) ==>
                (failed <==> !out.fetched || out.stop < |batch|
                             || exists i :: 0 <= i < |batch| && !KnownPublished(cfg, out, batch[i]))
    {
      hide RelayProtocol.Inv, OutboxOk, ValidateEntry, RelayProtocol.Legal, RelayProtocol.After, Served, Foreign, Quiet;
      batch := [];
      Pause(out);
      at := net;
      if !out.fetched {
        assert batch[..Begun(out, batch)] == [] && PublishedBy(cfg, out, []) == {};
        failed := true;
        return;
      }
      batch := NextPending(cfg.batchSize);
      Do(Fetch(r, batch));
      failed := ProcessEntries(out, batch, at.published);
      Do(Restart(r));
    }

    /** The loop over the entries. */
    method ProcessEntries(out: Outside, batch: seq<Entry>, ghost before: set<Slot>) returns (failed: bool)
      requires Valid() && Foreign(outbox, cfg, out, r) && r in net.workers && net.workers[r] == Publishing(batch, 0, 0)
      requires before == net.published && IsBatch(outbox, before, cfg.batchSize, batch)
      modifies this`net, this`trace, this`tick
      ensures Valid() && Extends()
      ensures before + PublishedBy(cfg, out, batch[..Begun(out, batch)]) <= net.published
      ensures forall i :: 0 <= i < |batch| && i < out.stop && GetsPublished(cfg, out, batch[i]) ==>
                SlotOf(batch[i]) in net.published
      ensures !failed ==> |batch| <= out.stop && forall i :: 0 <= i < |batch| ==> KnownPublished(cfg, out, batch[i])
      ensures Quiet(out) ==> net.published == before + PublishedBy(cfg, out, batch[..Begun(out, batch)])
      ensures Quiet(out) ==>
                (failed <==> out.stop < |batch| || exists i :: 0 <= i < |batch| && !KnownPublished(cfg, out, batch[i]))
    {
      hide RelayProtocol.Inv, OutboxOk, ValidateEntry, RelayProtocol.Legal, RelayProtocol.After, Served, Foreign, Quiet,
           GetsPublished, PublishedBy, IsBatch;
      failed := false;
      NonePublished(cfg, out);
      assert batch[..0] == [];
      for k := 0 to Begun(out, batch)
        invariant Valid() && Extends()
        invariant r in net.workers && net.workers[r] == Publishing(batch, k, 0)
        invariant before + PublishedBy(cfg, out, batch[..k]) <= net.published
        invariant forall i :: 0 <= i < k && GetsPublished(cfg, out, batch[i]) ==> SlotOf(batch[i]) in net.published
        invariant !failed ==> forall i :: 0 <= i < k ==> KnownPublished(cfg, out, batch[i])
        invariant Quiet(out) ==> net.published == before + PublishedBy(cfg, out, batch[..k])
        invariant Quiet(out) ==> (failed <==> exists i :: 0 <= i < k && !KnownPublished(cfg, out, batch[i]))
      {
        PublishedByNext(cfg, out, batch, k);
        StillPending(outbox, cfg, out, batch, before, k);
        var told := ProcessEntry(out, batch, k);
        failed := failed || !told;
      }
      failed := failed || out.stop < |batch|;
    }
  }

  lemma NonePublished(cfg: Config, out: Outside)
    ensures PublishedBy(cfg, out, []) == {}
  {
  }

  /** An entry's row is not among those published before it in the cycle. */
  lemma StillPending(outbox: map<Slot, OutboxRow>, cfg: Config, out: Outside, batch: seq<Entry>, before: set<Slot>, k: nat)
    requires IsBatch(outbox, before, cfg.batchSize, batch) && k < |batch|
    ensures SlotOf(batch[k]) !in before + PublishedBy(cfg, out, batch[..k])
  {
    hide GetsPublished;
    assert forall i :: 0 <= i < k ==> batch[..k][i] == batch[i] && SlotOf(batch[i]) != SlotOf(batch[k]);
    assert IsHead(outbox, before, SlotOf(batch[k]));
  }

  lemma MarksOne(outbox: map<Slot, OutboxRow>, cfg: Config, n: Net, r: RelayId)
    requires OutboxOk(outbox) && RelayProtocol.Inv(outbox, cfg, n) && r in n.workers && AtEntry(n.workers[r])
    ensures var e := n.workers[r].batch[n.workers[r].at];
            n.published + Marked(outbox, n.published, e.messageID) == n.published + {SlotOf(e)}
  {
    assert WorkerOk(outbox, cfg, n, n.workers[r]);
    MarkOne(outbox, n.published, n.workers[r].batch[n.workers[r].at]);
  }
}
