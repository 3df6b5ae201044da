/** DispatchBatch and drain as the source writes them, with the other relays
    and the writers free to act before every statement.  Every effect is a step
    of the outbox protocol. */
module NaiveRelay {
  import opened NaiveOutbox

  const BATCH_SIZE := 100

  datatype CommitAnswer = Committed | CommittedUntold | NotCommitted

  /** How one transaction goes: whether it begins and claims, how many
      hand-offs get through (none, if a payload does not decode), whether the
      UPDATE runs, and what becomes of the COMMIT. */
  datatype Fate = Fate(claimed: bool, handed: nat, stamped: bool, commit: CommitAnswer)

  /** Everything the code does not decide: what the others do before the p-th
      statement of the k-th transaction, and the fate of the k-th. */
  datatype Outside = Outside(others: (nat, nat, State) -> seq<Step>, fate: nat -> Fate)

  ghost predicate NotMine(steps: seq<Step>, me: RelayId)
  {
    forall i :: 0 <= i < |steps| && !steps[i].Insert? ==> steps[i].r != me
  }

  ghost predicate Foreign(out: Outside, me: RelayId)
  {
    forall k, p, s :: Legal(s, out.others(k, p, s)) && NotMine(out.others(k, p, s), me)
  }

  predicate Adds(steps: seq<Step>)
  {
    exists i :: 0 <= i < |steps| && steps[i].Insert?
  }

  /** Inserts have stopped. */
  ghost predicate NoInserts(out: Outside)
  {
    forall k, p, s :: !Adds(out.others(k, p, s))
  }

  /** The others stand still. */
  ghost predicate Quiet(out: Outside)
  {
    forall k, p, s :: out.others(k, p, s) == []
  }

  // ---------- what a run keeps ----------

  /** Rows are never deleted and stamps never taken back. */
  ghost predicate Grown(a: State, b: State)
  {
    a.rows.Keys <= b.rows.Keys && forall id :: Dispatched(a, id) ==> Dispatched(b, id)
  }

  lemma StepGrown(s: State, step: Step)
    requires Enabled(s, step)
    ensures Grown(s, Apply(s, step))
    ensures !step.Insert? ==> Apply(s, step).rows.Keys == s.rows.Keys
    ensures forall r :: (step.Insert? || r != step.r) ==>
              (r in Apply(s, step).txs <==> r in s.txs) && (r in s.txs ==> Apply(s, step).txs[r] == s.txs[r])
  {
  }

  lemma {:induction false} OthersRun(s: State, steps: seq<Step>, me: RelayId)
    requires Legal(s, steps) && NotMine(steps, me)
    ensures Grown(s, After(s, steps))
    ensures !Adds(steps) ==> After(s, steps).rows.Keys == s.rows.Keys
    ensures me in After(s, steps).txs <==> me in s.txs
    ensures me in s.txs ==> After(s, steps).txs[me] == s.txs[me]
    decreases |steps|
  {
    hide Apply, IsClaim;
    if steps != [] {
      StepGrown(s, steps[0]);
      assert !Adds(steps) ==> !steps[0].Insert? && !Adds(steps[1..]);
      OthersRun(Apply(s, steps[0]), steps[1..], me);
    }
  }

  lemma NoSteps(s: State)
    ensures Legal(s, []) && After(s, []) == s
  {
  }

  // ---------- the claim ----------

  function Undispatched(rows: map<int, bool>): set<int>
  {
    set id | id in rows && !rows[id]
  }

  function Stamped(rows: map<int, bool>, batch: seq<int>): map<int, bool>
  {
    map id | id in rows :: rows[id] || id in batch
  }

  function LockedRows(s: State): set<int>
  {
    set r, i | r in s.txs && 0 <= i < |s.txs[r].batch| :: s.txs[r].batch[i]
  }

  /** The first `limit` ids of a set, in order. */
  ghost predicate IsFirst(ids: set<int>, limit: nat, batch: seq<int>)
  {
    && |batch| <= limit && Ascending(batch)
    && (forall id :: id in batch ==> id in ids)
    && (forall id :: id in ids && id !in batch ==> |batch| == limit && forall i :: 0 <= i < |batch| ==> batch[i] < id)
  }

  /** The rows the SELECT picks are those the protocol lets a relay claim. */
  lemma FirstIsClaim(s: State, limit: nat, batch: seq<int>)
    ensures IsFirst(Undispatched(s.rows) - LockedRows(s), limit, batch) <==> IsClaim(s, limit, batch)
  {
    forall id ensures id in Undispatched(s.rows) - LockedRows(s) <==> Eligible(s, id) {
      if Locked(s, id) {
        var r :| r in s.txs && id in s.txs[r].batch;
        var i :| 0 <= i < |s.txs[r].batch| && s.txs[r].batch[i] == id;
        assert id in LockedRows(s);
      }
    }
  }

  method Least(ids: set<int>) returns (least: int)
    requires ids != {}
    ensures least in ids && forall id :: id in ids ==> least <= id
  {
    SomeElement(ids);
    least :| least in ids;
    var rest := ids - {least};
    while rest != {}
      invariant rest <= ids && least in ids
      invariant forall id :: id in ids && id !in rest ==> least <= id
      decreases rest
    {
      SomeElement(rest);
      var id :| id in rest;
      if id < least {
        least := id;
      }
      rest := rest - {id};
    }
  }

  /** The claiming SELECT. */
  method ClaimRows(s: State, limit: nat) returns (batch: seq<int>)
    ensures IsClaim(s, limit, batch)
  {
    var ids := Undispatched(s.rows) - LockedRows(s);
    var rest := ids;
    batch := [];
    while rest != {} && |batch| < limit
      invariant rest <= ids && |batch| <= limit && Ascending(batch)
      invariant forall id :: id in ids ==> (id in rest <==> id !in batch)
      invariant forall id :: id in batch ==> id in ids
      invariant forall i, id :: 0 <= i < |batch| && id in rest ==> batch[i] < id
      decreases rest
    {
      var id := Least(rest);
      batch := batch + [id];
      rest := rest - {id};
    }
    FirstIsClaim(s, limit, batch);
  }

  // ---------- outcomes ----------

  /** How many hand-offs of a batch are made. */
  function Made(fate: Fate, batch: seq<int>): nat
  {
    if fate.handed < |batch| then fate.handed else |batch|
  }

  /** The function passed to WithTx returns nil. */
  predicate Through(fate: Fate, batch: seq<int>)
  {
    fate.claimed && (batch == [] || (|batch| <= fate.handed && fate.stamped))
  }

  predicate TakesEffect(fate: Fate, batch: seq<int>)
  {
    Through(fate, batch) && !fate.commit.NotCommitted?
  }

  predicate Succeeds(fate: Fate, batch: seq<int>)
  {
    Through(fate, batch) && fate.commit.Committed?
  }

  class Relay {
    const me: RelayId
    var s: State
    var handedOver: seq<int>
    ghost var start: State
    ghost var trace: seq<Step>

    ghost predicate Valid()
      reads this
    {
      Inv(start) && Inv(s) && Legal(start, trace) && After(start, trace) == s
    }

    /** The history so far is kept and extended. */
    twostate predicate Extends()
      reads this
    {
      start == old(start) && old(trace) <= trace && Grown(old(s), s)
    }

    constructor (me: RelayId, s: State)
      requires Inv(s)
      ensures Valid() && this.me == me && this.s == s && start == s && trace == [] && handedOver == []
    {
      this.me, this.s, handedOver := me, s, [];
      start, trace := s, [];
    }

    method Do(step: Step)
      requires Valid() && Enabled(s, step)
      modifies this`s, this`trace
      ensures Valid() && Extends() && s == Apply(old(s), step)
      ensures !step.Insert? ==> s.rows.Keys == old(s).rows.Keys
    {
      StepInv(s, step);
      StepGrown(s, step);
      OneStep(s, step);
      hide Inv, Legal, After, Apply, Enabled, Grown;
      RunAppend(start, trace, [step]);
      s := Apply(s, step);
      trace := trace + [step];
    }

    /** The others act. */
    method Pause(out: Outside, k: nat, p: nat)
      requires Valid() && Foreign(out, me)
      modifies this`s, this`trace
      ensures Valid() && Extends()
      ensures me in s.txs <==> me in old(s).txs
      ensures me in s.txs ==> s.txs[me] == old(s).txs[me]
      ensures NoInserts(out) ==> s.rows.Keys == old(s).rows.Keys
      ensures Quiet(out) ==> s == old(s)
    {
      ghost var steps := out.others(k, p, s);
      NoSteps(s);
      OthersRun(s, steps, me);
      RunInv(s, steps);
      hide Inv, Legal, After, Grown;
      RunAppend(start, trace, steps);
      s := After(s, out.others(k, p, s));
      trace := trace + steps;
    }

    /** The hand-off loop, up to the one that fails. */
    method HandOver(out: Outside, k: nat, batch: seq<int>) returns (all: bool)
      requires Valid() && Foreign(out, me) && me in s.txs && s.txs[me] == Tx(batch, 0, false)
      modifies this`s, this`trace, this`handedOver
      ensures Valid() && Extends() && me in s.txs
      ensures all <==> |batch| <= out.fate(k).handed
      ensures s.txs[me] == Tx(batch, Made(out.fate(k), batch), false)
      ensures handedOver == old(handedOver) + batch[..Made(out.fate(k), batch)]
      ensures NoInserts(out) ==> s.rows.Keys == old(s).rows.Keys
      ensures Quiet(out) ==> s.rows == old(s).rows && s.txs.Keys == old(s).txs.Keys
    {
      hide Inv, Legal, After, Foreign, NoInserts, Quiet;
      var i := 0;
      while i < |batch|
        invariant i <= |batch| && i <= out.fate(k).handed
        invariant Valid() && Extends() && me in s.txs && s.txs[me] == Tx(batch, i, false)
        invariant handedOver == old(handedOver) + batch[..i]
        invariant NoInserts(out) ==> s.rows.Keys == old(s).rows.Keys
        invariant Quiet(out) ==> s.rows == old(s).rows && s.txs.Keys == old(s).txs.Keys
      {
        if i == out.fate(k).handed {
          return false;
        }
        Pause(out, k, 1 + i);
        Do(HandOff(me));
        handedOver := handedOver + [batch[i]];
        assert batch[..i + 1] == batch[..i] + [batch[i]];
        i := i + 1;
      }
      all := true;
    }

    /** The UPDATE; when it fails the transaction rolls back. */
    method StampBatch(out: Outside, k: nat, batch: seq<int>) returns (ok: bool)
      requires Valid() && Foreign(out, me) && me in s.txs && s.txs[me] == Tx(batch, |batch|, false) && batch != []
      modifies this`s, this`trace
      ensures Valid() && Extends() && ok == out.fate(k).stamped
      ensures if ok then me in s.txs && s.txs[me] == Tx(batch, |batch|, true) else me !in s.txs
      ensures NoInserts(out) ==> s.rows.Keys == old(s).rows.Keys
      ensures Quiet(out) ==> s.rows == old(s).rows && s.txs.Keys == old(s).txs.Keys - if ok then {} else {me}
    {
      hide Inv, Legal, After, Foreign, NoInserts, Quiet;
      Pause(out, k, 1 + |batch|);
      ok := out.fate(k).stamped;
      if ok {
        Do(Stamp(me));
      } else {
        Do(Rollback(me));
      }
    }

    /** COMMIT, taking effect or not. */
    method EndTx(out: Outside, k: nat, batch: seq<int>)
      requires Valid() && Foreign(out, me) && me in s.txs && s.txs[me].batch == batch && (s.txs[me].stamped || batch == [])
      modifies this`s, this`trace
      ensures Valid() && Extends() && me !in s.txs
      ensures !out.fate(k).commit.NotCommitted? ==> forall id :: id in batch ==> Dispatched(s, id)
      ensures NoInserts(out) ==> s.rows.Keys == old(s).rows.Keys
      ensures Quiet(out) ==> s.txs.Keys == old(s).txs.Keys - {me}
      ensures Quiet(out) ==>
                s.rows == if out.fate(k).commit.NotCommitted? then old(s).rows else Stamped(old(s).rows, batch)
    {
      hide Inv, Legal, After, Foreign, NoInserts, Quiet;
      Pause(out, k, 2 + |batch|);
      OwnRows(s, me);
      if out.fate(k).commit.NotCommitted? {
        Do(Rollback(me));
      } else {
        Do(Commit(me));
      }
    }

    /** What follows the claim. */
    method RunTx(out: Outside, k: nat, batch: seq<int>) returns (n: nat, ok: bool)
      requires Valid() && Foreign(out, me) && me in s.txs && s.txs[me] == Tx(batch, 0, false) && out.fate(k).claimed
      modifies this`s, this`trace, this`handedOver
      ensures Valid() && Extends() && me !in s.txs
      ensures ok <==> Succeeds(out.fate(k), batch)
      ensures n == if Through(out.fate(k), batch) then |batch| else 0
      ensures handedOver == old(handedOver) + batch[..Made(out.fate(k), batch)]
      ensures TakesEffect(out.fate(k), batch) ==> forall id :: id in batch ==> Dispatched(s, id)
      ensures NoInserts(out) ==> s.rows.Keys == old(s).rows.Keys
      ensures Quiet(out) ==> s.txs.Keys == old(s).txs.Keys - {me}
      ensures Quiet(out) ==>
                s.rows == if TakesEffect(out.fate(k), batch) then Stamped(old(s).rows, batch) else old(s).rows
    {
      hide Inv, Legal, After, Foreign, NoInserts, Quiet, IsClaim, Stamped;
      n, ok := 0, false;
      var all := HandOver(out, k, batch);
      if !all {
        Do(Rollback(me));
        return;
      }
      if batch != [] {
        var stamped := StampBatch(out, k, batch);
        if !stamped {
          return;
        }
      }
      EndTx(out, k, batch);
      n := |batch|;
      ok := out.fate(k).commit.Committed?;
    }

    /** One transaction.  It claims the first rows nobody has locked, hands
        them over in order, and stamps all or none of them; hand-offs made stay
        made.  The count is reported even with an error of the COMMIT, which
        may have taken effect. */
    method DispatchBatch(out: Outside, k: nat) returns (batch: seq<int>, n: nat, ok: bool, ghost at: State)
      requires Valid() && Foreign(out, me) && me !in s.txs
      modifies this`s, this`trace, this`handedOver
      ensures Valid() && Extends() && me !in s.txs
      ensures out.fate(k).claimed ==> IsClaim(at, BATCH_SIZE, batch)
      ensures !out.fate(k).claimed ==> batch == []
      ensures Inv(at) && Grown(old(s), at) && Grown(at, s) && me !in at.txs
      ensures var fate := out.fate(k);
              var through := fate.claimed && (batch == [] || (|batch| <= fate.handed && fate.stamped));
              && (ok <==> through && fate.commit.Committed?)
              && n == (if through then |batch| else 0)
              && handedOver == old(handedOver) + batch[..if fate.handed < |batch| then fate.handed else |batch|]
              && (through && !fate.commit.NotCommitted? ==> forall id :: id in batch ==> Dispatched(s, id))
              && (Quiet(out) ==>
                    s.rows == if through && !fate.commit.NotCommitted?
                              then (map id | id in old(s).rows :: old(s).rows[id] || id in batch) else old(s).rows)
      ensures NoInserts(out) ==> at.rows.Keys == s.rows.Keys == old(s).rows.Keys
      ensures Quiet(out) ==> at == old(s) && s.txs.Keys == old(s).txs.Keys
    {
      hide Inv, Legal, After, Foreign, NoInserts, Quiet, IsClaim;
      batch, n, ok := [], 0, false;
      Pause(out, k, 0);
      at := s;
      GrownSelf(s);
      if !out.fate(k).claimed {
        return;
      }
      batch := ClaimRows(s, BATCH_SIZE);
      Do(Claim(me, BATCH_SIZE, batch));
      n, ok := RunTx(out, k, batch);
    }

    /** Claims until a batch falls short.  Once inserts have stopped it ends,
        since every full batch stamps rows.  When it reports success, every row
        still undispatched was locked by another relay at the last claim.
        Alone on the outbox, it hands everything over, once each and in
        ascending id order across all batches. */
    method Drain(out: Outside) returns (ok: bool, ghost last: State)
      requires Valid() && Foreign(out, me) && me !in s.txs && NoInserts(out)
      modifies this`s, this`trace, this`handedOver
      ensures Valid() && Extends() && me !in s.txs && s.rows.Keys == old(s).rows.Keys
      ensures ok ==> forall id :: id in Undispatched(s.rows) ==>
                id in Undispatched(last.rows) && Locked(last, id) && me !in last.txs
      ensures old(handedOver) <= handedOver
      ensures Alone(out, old(s)) ==>
                && ok && Undispatched(s.rows) == {}
                && Ascending(handedOver[|old(handedOver)|..])
                && forall id :: id in handedOver[|old(handedOver)|..] <==> id in Undispatched(old(s).rows)
    {
      ghost var all := Undispatched(s.rows);
      ghost var sent: seq<int> := [];
      var k := 0;
      assert handedOver == old(handedOver) + sent;
      assert SentSoFar(all, all, sent);
      GrownSelf(s);
      hide Inv, Legal, After, Foreign, NoInserts, Quiet, IsClaim, Alone, SentSoFar, Undispatched, Ascending, Grown, Stamped;
      while true
        invariant Valid() && Extends() && me !in s.txs && s.rows.Keys == old(s).rows.Keys
        invariant handedOver == old(handedOver) + sent
        invariant Alone(out, old(s)) ==> s.txs.Keys == {} && SentSoFar(all, Undispatched(s.rows), sent)
        decreases |Undispatched(s.rows)|
      {
        ghost var before := s;
        AloneMeans(out, old(s), k);
        var batch, n, done;
        batch, n, done, last := DispatchBatch(out, k);
        GrownOn(before, last, s);
        Regroup(old(handedOver), sent, batch[..Made(out.fate(k), batch)]);
        if !done {
          AloneSucceeds(out, old(s), k, last, batch);
          ok := false;
          return;
        }
        assert batch[..|batch|] == batch;
        if Alone(out, old(s)) {
          assert s.rows == Stamped(before.rows, batch) by { StampedIs(before.rows, batch); }
          SentMore(all, before, sent, batch);
          LeftAfter(before.rows, batch);
        }
        sent := sent + batch;
        k := k + 1;
        if n < BATCH_SIZE {
          OnlyLockedLeft(last, s, batch);
          assert handedOver[|old(handedOver)|..] == sent;
          if Alone(out, old(s)) {
            NoLocksLeft(last, s);
            Drained(all, s, sent);
          }
          ok := true;
          return;
        }
        FewerLeft(before, last, s, batch);
      }
    }
  }

  // ---------- lemmas ----------

  lemma GrownSelf(s: State)
    ensures Grown(s, s)
  {
  }

  lemma GrownOn(a: State, b: State, c: State)
    requires Grown(a, b) && Grown(b, c) && a.rows.Keys == b.rows.Keys == c.rows.Keys
    ensures Grown(a, c)
    ensures Undispatched(c.rows) <= Undispatched(b.rows) <= Undispatched(a.rows)
  {
    forall id | id in Undispatched(c.rows) ensures id in Undispatched(b.rows) {
      assert !Dispatched(c, id);
      assert !Dispatched(b, id);
    }
    forall id | id in Undispatched(b.rows) ensures id in Undispatched(a.rows) {
      assert !Dispatched(b, id);
      assert !Dispatched(a, id);
    }
  }

  lemma OwnRows(s: State, me: RelayId)
    requires Inv(s) && me in s.txs
    ensures forall id :: id in s.txs[me].batch ==> id in s.rows
  {
    assert TxOk(s, s.txs[me]);
  }

  lemma Regroup(a: seq<int>, b: seq<int>, c: seq<int>)
    ensures (a + b) + c == a + (b + c)
  {
  }

  /** No other relay is at work and nothing fails. */
  ghost predicate Alone(out: Outside, s: State)
  {
    && Quiet(out) && s.txs.Keys == {}
    && forall k :: out.fate(k).claimed && out.fate(k).handed >= BATCH_SIZE && out.fate(k).stamped
                   && out.fate(k).commit.Committed?
  }

  lemma AloneMeans(out: Outside, s: State, k: nat)
    ensures Alone(out, s) ==> Quiet(out) && s.txs.Keys == {}
  {
  }

  /** A relay on its own does not fail. */
  lemma AloneSucceeds(out: Outside, s: State, k: nat, at: State, batch: seq<int>)
    requires out.fate(k).claimed ==> IsClaim(at, BATCH_SIZE, batch)
    requires !Succeeds(out.fate(k), batch)
    ensures !Alone(out, s)
  {
  }

  /** A short batch took every row nobody else had locked. */
  lemma OnlyLockedLeft(at: State, s: State, batch: seq<int>)
    requires IsClaim(at, BATCH_SIZE, batch) && |batch| < BATCH_SIZE
    requires Undispatched(s.rows) <= Undispatched(at.rows) && forall id :: id in batch ==> Dispatched(s, id)
    ensures forall id :: id in Undispatched(s.rows) ==> id in Undispatched(at.rows) && Locked(at, id)
  {
    forall id | id in Undispatched(s.rows)
      ensures Locked(at, id)
    {
      assert id in Undispatched(at.rows);
      assert !Dispatched(s, id);
      assert !Eligible(at, id) || id in batch;
    }
  }

  lemma NoLocksLeft(at: State, s: State)
    requires at.txs.Keys == {} && forall id :: id in Undispatched(s.rows) ==> Locked(at, id)
    ensures Undispatched(s.rows) == {}
  {
    if Undispatched(s.rows) != {} {
      SomeElement(Undispatched(s.rows));
    }
  }

  /** What was sent is ascending, is what is no longer left, and lies below
      what is left. */
  ghost predicate SentSoFar(all: set<int>, left: set<int>, sent: seq<int>)
  {
    && left <= all && Ascending(sent)
    && (forall id :: id in sent <==> id in all && id !in left)
    && (forall i, id :: 0 <= i < |sent| && id in left ==> sent[i] < id)
  }

  lemma StampedIs(rows: map<int, bool>, batch: seq<int>)
    ensures Stamped(rows, batch) == map id | id in rows :: rows[id] || id in batch
  {
  }

  lemma LeftAfter(rows: map<int, bool>, batch: seq<int>)
    ensures Undispatched(Stamped(rows, batch)) == Undispatched(rows) - (set id | id in batch)
  {
  }

  lemma SentMore(all: set<int>, s: State, sent: seq<int>, batch: seq<int>)
    requires s.txs.Keys == {} && SentSoFar(all, Undispatched(s.rows), sent) && IsClaim(s, BATCH_SIZE, batch)
    ensures SentSoFar(all, Undispatched(s.rows) - (set id | id in batch), sent + batch)
  {
    var left := Undispatched(s.rows);
    var left' := left - (set id | id in batch);
    forall id ensures id in left <==> Eligible(s, id) {
    }
    forall i, j | 0 <= i < j < |sent + batch|
      ensures (sent + batch)[i] < (sent + batch)[j]
    {
      if i < |sent| <= j {
        assert batch[j - |sent|] in batch && batch[j - |sent|] in left;
      }
    }
    forall i, id | 0 <= i < |sent + batch| && id in left'
      ensures (sent + batch)[i] < id
    {
      assert Eligible(s, id) && id !in batch;
    }
  }

  lemma Drained(all: set<int>, s: State, sent: seq<int>)
    requires SentSoFar(all, Undispatched(s.rows), sent) && Undispatched(s.rows) == {}
    ensures Ascending(sent) && forall id :: id in sent <==> id in all
  {
  }

  /** A full batch leaves strictly fewer rows. */
  lemma FewerLeft(before: State, at: State, s: State, batch: seq<int>)
    requires IsClaim(at, BATCH_SIZE, batch) && |batch| == BATCH_SIZE && forall id :: id in batch ==> Dispatched(s, id)
    requires Undispatched(s.rows) <= Undispatched(at.rows) <= Undispatched(before.rows)
    ensures |Undispatched(s.rows)| < |Undispatched(before.rows)|
  {
    var a, b := Undispatched(s.rows), Undispatched(before.rows);
    assert batch[0] in batch && Eligible(at, batch[0]);
    assert batch[0] in Undispatched(at.rows) && batch[0] in b && batch[0] !in a;
    assert a <= b - {batch[0]};
    SizeBelow(a, b - {batch[0]});
  }

  lemma SomeElement(ids: set<int>)
    requires ids != {}
    ensures exists id :: id in ids
  {
    assert (forall id :: id !in ids) ==> ids == {};
  }

  lemma SizeBelow(a: set<int>, b: set<int>)
    requires a <= b
    ensures |a| <= |b|
  {
    assert b == a + (b - a);
  }
}
