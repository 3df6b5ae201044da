/** The naive-scale outbox, drained by one relay per instance at the same
    time.  Each relay claims a batch with FOR UPDATE SKIP LOCKED, hands every
    event over, stamps the rows and commits, all in one transaction; the
    transaction may roll back, and the relay may crash, at any point.

    Row ids come from a sequence and rows become visible in commit order, so a
    new row may have any unused id. */
module NaiveOutbox {

  type RelayId = nat

  /** A transaction: the rows it locked, how many of them it has handed over,
      and whether it has run its UPDATE. */
  datatype Tx = Tx(batch: seq<int>, handed: nat, stamped: bool)

  /** `rows` maps the committed rows to whether dispatched_at is set.
      `handoffs` and `aborts` count, per row, the hand-offs made and the
      rolled-back transactions that had handed it over. */
  datatype State = State(
    rows: map<int, bool>,
    txs: map<RelayId, Tx>,
    handoffs: map<int, nat>,
    aborts: map<int, nat>)

  datatype Step =
    | Insert(id: int)
    | Claim(r: RelayId, limit: nat, batch: seq<int>)
    | HandOff(r: RelayId)
    | Stamp(r: RelayId)
    | Commit(r: RelayId)
    | Rollback(r: RelayId)

  /** The rows a transaction has handed over so far. */
  function Handed(tx: Tx): seq<int>
  {
    if tx.handed <= |tx.batch| then tx.batch[..tx.handed] else tx.batch
  }

  function Count(m: map<int, nat>, id: int): nat
  {
    if id in m then m[id] else 0
  }

  predicate Locked(s: State, id: int)
  {
    exists r :: r in s.txs && id in s.txs[r].batch
  }

  /** Undispatched and not locked by a running transaction. */
  predicate Eligible(s: State, id: int)
  {
    id in s.rows && !s.rows[id] && !Locked(s, id)
  }

  predicate Ascending(ids: seq<int>)
  {
    forall i, j :: 0 <= i < j < |ids| ==> ids[i] < ids[j]
  }

  /** The first `limit` eligible rows in id order. */
  ghost predicate IsClaim(s: State, limit: nat, batch: seq<int>)
  {
    && |batch| <= limit && Ascending(batch)
    && (forall id :: id in batch ==> Eligible(s, id))
    && (forall id :: Eligible(s, id) && id !in batch ==>
          |batch| == limit && forall i :: 0 <= i < |batch| ==> batch[i] < id)
  }

  ghost predicate Enabled(s: State, step: Step)
  {
    match step
    case Insert(id) => id !in s.rows
    case Claim(r, limit, batch) => r !in s.txs && IsClaim(s, limit, batch)
    case HandOff(r) => r in s.txs && s.txs[r].handed < |s.txs[r].batch|
    case Stamp(r) => r in s.txs && s.txs[r].handed == |s.txs[r].batch| && !s.txs[r].stamped
    case Commit(r) => r in s.txs && (s.txs[r].stamped || s.txs[r].batch == [])
    case Rollback(r) => r in s.txs
  }

  function Apply(s: State, step: Step): State
    requires !step.Insert? && !step.Claim? ==> step.r in s.txs
    requires step.HandOff? ==> s.txs[step.r].handed < |s.txs[step.r].batch|
  {
    match step
    case Insert(id) => s.(rows := s.rows[id := false])
    case Claim(r, limit, batch) => s.(txs := s.txs[r := Tx(batch, 0, false)])
    case HandOff(r) =>
      var tx := s.txs[r];
      var id := tx.batch[tx.handed];
      s.(txs := s.txs[r := tx.(handed := tx.handed + 1)], handoffs := s.handoffs[id := Count(s.handoffs, id) + 1])
    case Stamp(r) => s.(txs := s.txs[r := s.txs[r].(stamped := true)])
    case Commit(r) =>
      s.(txs := s.txs - {r}, rows := map id | id in s.rows :: s.rows[id] || id in s.txs[r].batch)
    case Rollback(r) =>
      var gone := Handed(s.txs[r]);
      s.(txs := s.txs - {r},
         aborts := map id | id in s.aborts.Keys + (set x | x in gone) ::
           Count(s.aborts, id) + if id in gone then 1 else 0)
  }

  predicate Init(s: State)
  {
    s == State(map[], map[], map[], map[])
  }

  // ---------- the invariant ----------

  ghost predicate TxOk(s: State, tx: Tx)
  {
    && tx.handed <= |tx.batch| && Ascending(tx.batch)
    && (tx.stamped ==> tx.handed == |tx.batch|)
    && (forall id :: id in tx.batch ==> id in s.rows && !s.rows[id])
  }

  ghost predicate Disjoint(s: State)
  {
    forall a, b, id :: a in s.txs && b in s.txs && id in s.txs[a].batch && id in s.txs[b].batch ==> a == b
  }

  /** Handed over by a transaction still running. */
  predicate InFlight(s: State, id: int)
  {
    exists r :: r in s.txs && id in Handed(s.txs[r])
  }

  predicate Dispatched(s: State, id: int)
  {
    id in s.rows && s.rows[id]
  }

  /** Every hand-off is accounted for: one for the stamp, one per aborted
      transaction that had made it, one for the transaction still running. */
  predicate Conserved(s: State, id: int)
  {
    Count(s.handoffs, id)
    == (if Dispatched(s, id) then 1 else 0) + Count(s.aborts, id) + (if InFlight(s, id) then 1 else 0)
  }

  ghost predicate Inv(s: State)
  {
    && (forall r :: r in s.txs ==> TxOk(s, s.txs[r]))
    && Disjoint(s)
    && (forall id :: Conserved(s, id))
  }

  // ---------- every step keeps it ----------

  lemma StepTxs(s: State, step: Step)
    requires Inv(s) && Enabled(s, step)
    ensures forall r :: r in Apply(s, step).txs ==> TxOk(Apply(s, step), Apply(s, step).txs[r])
    ensures Disjoint(Apply(s, step))
  {
    var s' := Apply(s, step);
    forall r | r in s'.txs
      ensures TxOk(s', s'.txs[r])
    {
      assert r in s.txs ==> TxOk(s, s.txs[r]);
      if step.Claim? && r == step.r {
        forall id | id in step.batch ensures id in s'.rows && !s'.rows[id] {
          assert Eligible(s, id);
        }
      }
    }
    if step.Claim? {
      forall id | id in step.batch ensures !Locked(s, id) {
        assert Eligible(s, id);
      }
    }
  }

  /** A transaction's hand-offs end in flight, in a stamp or in an abort. */
  lemma FlightBy(s: State, r: RelayId, id: int)
    requires Inv(s) && r in s.txs && id in s.txs[r].batch
    ensures InFlight(s, id) <==> id in Handed(s.txs[r])
  {
    assert TxOk(s, s.txs[r]);
    if InFlight(s, id) {
      var o :| o in s.txs && id in Handed(s.txs[o]);
      assert id in s.txs[o].batch;
    }
  }

  lemma ConserveHandOff(s: State, r: RelayId, id: int)
    requires Inv(s) && Enabled(s, HandOff(r))
    ensures Conserved(Apply(s, HandOff(r)), id)
  {
    var s', tx := Apply(s, HandOff(r)), s.txs[r];
    var x := tx.batch[tx.handed];
    assert TxOk(s, tx) && Conserved(s, id);
    assert Handed(s'.txs[r]) == Handed(tx) + [x];
    if id == x {
      FlightBy(s, r, id);
      assert InFlight(s', id) by { assert id in Handed(s'.txs[r]); }
    } else {
      SameFlight(s, s', r, id);
    }
  }

  /** Only r's hand-offs changed, and not for this row. */
  lemma SameFlight(s: State, s': State, r: RelayId, id: int)
    requires s'.txs.Keys == s.txs.Keys && r in s.txs
    requires forall o :: o in s.txs && o != r ==> s'.txs[o] == s.txs[o]
    requires id in Handed(s'.txs[r]) <==> id in Handed(s.txs[r])
    ensures InFlight(s', id) <==> InFlight(s, id)
  {
    if InFlight(s, id) {
      var o :| o in s.txs && id in Handed(s.txs[o]);
      assert id in Handed(s'.txs[o]);
    }
    if InFlight(s', id) {
      var o :| o in s'.txs && id in Handed(s'.txs[o]);
      assert id in Handed(s.txs[o]);
    }
  }

  /** What is in flight once transaction r is gone. */
  lemma FlightWithout(s: State, s': State, r: RelayId, id: int)
    requires Inv(s) && r in s.txs && s'.txs == s.txs - {r}
    ensures InFlight(s', id) <==> InFlight(s, id) && id !in Handed(s.txs[r])
  {
    assert TxOk(s, s.txs[r]);
    if InFlight(s, id) && id !in Handed(s.txs[r]) {
      var o :| o in s.txs && id in Handed(s.txs[o]);
      assert o in s'.txs && id in Handed(s'.txs[o]);
    }
    if InFlight(s', id) {
      var o :| o in s'.txs && id in Handed(s'.txs[o]);
      assert o in s.txs && o != r && id in s.txs[o].batch;
      assert id in Handed(s.txs[o]);
    }
  }

  lemma ConserveEnd(s: State, step: Step, id: int)
    requires Inv(s) && Enabled(s, step) && (step.Commit? || step.Rollback?)
    ensures Conserved(Apply(s, step), id)
  {
    var s', tx := Apply(s, step), s.txs[step.r];
    assert TxOk(s, tx) && Conserved(s, id);
    FlightWithout(s, s', step.r, id);
    if id in tx.batch {
      FlightBy(s, step.r, id);
    }
    if step.Commit? {
      assert Handed(tx) == tx.batch;
    } else if id in Handed(tx) {
      assert id in s'.aborts;
    }
  }

  lemma ConserveQuiet(s: State, step: Step, id: int)
    requires Inv(s) && Enabled(s, step) && (step.Insert? || step.Claim? || step.Stamp?)
    ensures Conserved(Apply(s, step), id)
  {
    var s' := Apply(s, step);
    assert Conserved(s, id);
    if step.Stamp? {
      assert TxOk(s, s.txs[step.r]);
      SameFlight(s, s', step.r, id);
    } else if step.Claim? {
      ClaimFlight(s, s', step.r, id);
    }
  }

  lemma ClaimFlight(s: State, s': State, r: RelayId, id: int)
    requires r !in s.txs && r in s'.txs && s'.txs == s.txs[r := s'.txs[r]] && s'.txs[r].handed == 0
    ensures InFlight(s', id) <==> InFlight(s, id)
  {
    if InFlight(s, id) {
      var o :| o in s.txs && id in Handed(s.txs[o]);
      assert o in s'.txs && s'.txs[o] == s.txs[o];
    }
    if InFlight(s', id) {
      var o :| o in s'.txs && id in Handed(s'.txs[o]);
      assert o != r && s'.txs[o] == s.txs[o];
    }
  }

  /** Every step of every relay keeps the invariant. */
  lemma StepInv(s: State, step: Step)
    requires Inv(s) && Enabled(s, step)
    ensures Inv(Apply(s, step))
  {
    hide Conserved, TxOk, Disjoint;
    StepTxs(s, step);
    forall id ensures Conserved(Apply(s, step), id) {
      match step {
        case HandOff(r) => ConserveHandOff(s, r, id);
        case Commit(_) => ConserveEnd(s, step, id);
        case Rollback(_) => ConserveEnd(s, step, id);
        case _ => ConserveQuiet(s, step, id);
      }
    }
  }

  /** A new row can be claimed at once. */
  lemma InsertedIsEligible(s: State, id: int)
    requires Inv(s) && Enabled(s, Insert(id))
    ensures Eligible(Apply(s, Insert(id)), id)
    ensures forall o :: o != id ==> (Eligible(Apply(s, Insert(id)), o) <==> Eligible(s, o))
  {
    var s' := Apply(s, Insert(id));
    forall r | r in s.txs ensures id !in s.txs[r].batch {
      assert TxOk(s, s.txs[r]);
    }
    forall o ensures Locked(s', o) <==> Locked(s, o) {
    }
  }

  // ---------- runs ----------

  ghost predicate Legal(s: State, steps: seq<Step>)
    decreases |steps|
  {
    steps == [] || (Enabled(s, steps[0]) && Legal(Apply(s, steps[0]), steps[1..]))
  }

  function After(s: State, steps: seq<Step>): State
    requires Legal(s, steps)
    decreases |steps|
  {
    if steps == [] then s else After(Apply(s, steps[0]), steps[1..])
  }

  lemma InitInv(s: State)
    requires Init(s)
    ensures Inv(s)
  {
    forall id ensures Conserved(s, id) {
    }
  }

  lemma {:induction false} RunInv(s: State, steps: seq<Step>)
    requires Inv(s) && Legal(s, steps)
    ensures Inv(After(s, steps))
    decreases |steps|
  {
    if steps != [] {
      StepInv(s, steps[0]);
      RunInv(Apply(s, steps[0]), steps[1..]);
    }
  }

  lemma OneStep(s: State, step: Step)
    requires Enabled(s, step)
    ensures Legal(s, [step]) && After(s, [step]) == Apply(s, step)
  {
    hide IsClaim, Apply;
    var rest := [step][1..];
    assert rest == [] && Legal(Apply(s, step), rest) && After(Apply(s, step), rest) == Apply(s, step);
  }

  lemma {:induction false} RunAppend(s: State, a: seq<Step>, b: seq<Step>)
    requires Legal(s, a) && Legal(After(s, a), b)
    ensures Legal(s, a + b) && After(s, a + b) == After(After(s, a), b)
    decreases |a|
  {
    if a == [] {
      assert a + b == b;
    } else {
      hide IsClaim, Apply;
      assert (a + b)[0] == a[0] && (a + b)[1..] == a[1..] + b;
      RunAppend(Apply(s, a[0]), a[1..], b);
    }
  }

  /** For any number of relays, rollbacks and crashes: batches in flight are
      disjoint and undispatched, and a row's hand-offs are exactly the stamp,
      the aborted transactions that had handed it over, and the one running. */
  lemma HandoffsConserved(s: State, steps: seq<Step>, id: int)
    requires Init(s) && Legal(s, steps)
    ensures var e := After(s, steps);
            && Conserved(e, id)
            && (forall a, b :: a in e.txs && b in e.txs && id in e.txs[a].batch && id in e.txs[b].batch ==> a == b)
            && (Locked(e, id) ==> id in e.rows && !e.rows[id])
  {
    InitInv(s);
    RunInv(s, steps);
    var e := After(s, steps);
    if Locked(e, id) {
      var r :| r in e.txs && id in e.txs[r].batch;
      assert TxOk(e, e.txs[r]);
    }
  }

  /** Never stamped without a hand-off; exactly one hand-off for a stamped row
      no transaction aborted on; and once nothing is running, one hand-off more
      than aborts exactly for the stamped rows. */
  lemma HandoffBounds(s: State, steps: seq<Step>, id: int)
    requires Init(s) && Legal(s, steps)
    ensures var e := After(s, steps);
            && (Dispatched(e, id) ==> Count(e.handoffs, id) >= 1)
            && (Count(e.aborts, id) == 0 ==> Count(e.handoffs, id) <= 1)
            && (Dispatched(e, id) && Count(e.aborts, id) == 0 ==> Count(e.handoffs, id) == 1)
            && (e.txs == map[] ==>
                  Count(e.handoffs, id) == Count(e.aborts, id) + if Dispatched(e, id) then 1 else 0)
  {
    HandoffsConserved(s, steps, id);
    var e := After(s, steps);
    InitInv(s);
    RunInv(s, steps);
    if InFlight(e, id) {
      var r :| r in e.txs && id in Handed(e.txs[r]);
      assert Locked(e, id);
    }
  }

  /** What FetchUndispatched reads: the same rows, whether locked or not. */
  ghost predicate IsFetch(s: State, limit: nat, batch: seq<int>)
  {
    && |batch| <= limit && Ascending(batch)
    && (forall id :: id in batch ==> id in s.rows && !s.rows[id])
    && (forall id :: id in s.rows && !s.rows[id] && id !in batch ==>
          |batch| == limit && forall i :: 0 <= i < |batch| ==> batch[i] < id)
  }

  /** The plain fetch-and-mark pair gives no such law: two relays that read
      before either marks both hand the row over, with nothing aborted. */
  lemma PlainFetchDuplicates() returns (read0: State, read1: State, end: State)
    ensures IsFetch(read0, 100, [1]) && IsFetch(read1, 100, [1])
    ensures read1 == Apply(read0, Claim(0, 100, [1]))
    ensures end == Apply(Apply(Apply(Apply(Apply(Apply(Apply(read1, Claim(1, 100, [1])),
                     HandOff(0)), HandOff(1)), Stamp(0)), Stamp(1)), Commit(0)), Commit(1))
    ensures Dispatched(end, 1) && Count(end.handoffs, 1) == 2 && Count(end.aborts, 1) == 0
  {
    read0 := State(map[1 := false], map[], map[], map[]);
    read1 := Apply(read0, Claim(0, 100, [1]));
    var both := Apply(read1, Claim(1, 100, [1]));
    var one := Apply(both, HandOff(0));
    var two := Apply(one, HandOff(1));
    assert Count(one.handoffs, 1) == 1 && Count(two.handoffs, 1) == 2;
    end := Apply(Apply(Apply(Apply(two, Stamp(0)), Stamp(1)), Commit(0)), Commit(1));
  }
}
