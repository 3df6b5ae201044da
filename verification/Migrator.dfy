/** RunMigrations and applyMigration as the source writes them, one statement
    after the other, with the other instances free to run before each. */
module Migrator {
  import opened Contract
  import opened MigrationProtocol

  /** What the code does not decide: what the others do before each statement,
      which statements fail, whether the outcome of a commit arrives, and how
      often a blocked lock is looked at again before the context ends. */
  datatype Outside = Outside(
    others: (nat, State) -> seq<Step>,
    fails: nat -> bool,
    told: nat -> bool,
    patience: nat)

  ghost predicate NotMine(steps: seq<Step>, me: InstanceId)
  {
    forall k :: 0 <= k < |steps| ==> steps[k].i != me
  }

  ghost predicate Foreign(plan: seq<Migration>, out: Outside, me: InstanceId)
  {
    forall k, s :: Legal(plan, s, out.others(k, s)) && NotMine(out.others(k, s), me)
  }

  /** Nobody else is at work and nothing fails. */
  ghost predicate Calm(out: Outside)
  {
    && (forall k, s :: out.others(k, s) == [])
    && (forall k :: !out.fails(k) && out.told(k))
  }

  lemma {:induction false} OthersKeepMine(plan: seq<Migration>, s: State, steps: seq<Step>, me: InstanceId)
    requires Legal(plan, s, steps) && NotMine(steps, me)
    ensures me in After(plan, s, steps).inst <==> me in s.inst
    ensures me in s.inst ==> After(plan, s, steps).inst[me] == s.inst[me]
    decreases |steps|
  {
    if steps != [] {
      OthersKeepMine(plan, Apply(plan, s, steps[0]), steps[1..], me);
    }
  }

  class Migrator {
    const plan: seq<Migration>
    var db: State
    var tick: nat
    ghost var start: State
    ghost var trace: seq<Step>

    ghost predicate Valid()
      reads this
    {
      Distinct(plan) && Inv(plan, start) && Inv(plan, db) && Legal(plan, start, trace) && After(plan, start, trace) == db
    }

    /** The history so far is kept and extended. */
    twostate predicate Extends()
      reads this
    {
      start == old(start) && old(trace) <= trace && old(db).recorded <= db.recorded
    }

    constructor (plan: seq<Migration>, s: State)
      requires Distinct(plan) && Inv(plan, s)
      ensures Valid() && this.plan == plan && db == s && start == s && trace == []
    {
      this.plan := plan;
      db, start, trace, tick := s, s, [], 0;
    }

    ghost method Note(steps: seq<Step>)
      requires Distinct(plan) && Inv(plan, start) && Legal(plan, start, trace)
      requires Inv(plan, After(plan, start, trace)) && Legal(plan, After(plan, start, trace), steps)
      modifies this`trace
      ensures trace == old(trace) + steps && Legal(plan, start, trace)
      ensures After(plan, start, trace) == After(plan, old(After(plan, start, trace)), steps)
      ensures Inv(plan, After(plan, start, trace))
    {
      hide Inv, Legal, After;
      RunAppend(plan, start, trace, steps);
      RunInv(plan, After(plan, start, trace), steps);
      trace := trace + steps;
    }

    method Do(step: Step)
      requires Valid() && Enabled(plan, db, step)
      modifies this`db, this`trace
      ensures Valid() && Extends()
      ensures db == Apply(plan, old(db), step)
    {
      StepInv(plan, db, step);
      OneStep(plan, db, step);
      hide Inv, Legal, After, Apply, Enabled;
      Note([step]);
      db := Apply(plan, db, step);
    }

    /** The others run, then the next statement is answered or fails. */
    method Pause(me: InstanceId, out: Outside) returns (ok: bool)
      requires Valid() && Foreign(plan, out, me) && me in db.inst && Active(db.inst[me])
      modifies this
      ensures Valid() && Extends() && me in db.inst
      ensures db.inst[me] == if ok then old(db).inst[me] else old(db).inst[me].(phase := Failed)
      ensures Calm(out) ==> ok && db == old(db)
    {
      hide Inv, Legal, After, Apply;
      var steps := out.others(tick, db);
      assert Calm(out) ==> After(plan, db, steps) == db by {
        if Calm(out) {
          NoSteps(plan, db);
        }
      }
      OthersKeepMine(plan, db, steps, me);
      RunInv(plan, db, steps);
      Note(steps);
      db := After(plan, db, steps);
      ok := !out.fails(tick);
      tick := tick + 1;
      if !ok {
        ghost var before := db;
        Do(Fail(me));
        FailEffect(plan, before, me);
      }
    }

    /** pg_advisory_xact_lock: waits while another instance holds the lock. */
    method AcquireLock(me: InstanceId, out: Outside) returns (ok: bool)
      requires Valid() && Foreign(plan, out, me) && me in db.inst
      requires db.inst[me].phase.Between? && db.inst[me].pos < db.inst[me].len
      modifies this
      ensures Valid() && Extends() && me in db.inst
      ensures db.inst[me] == old(db).inst[me].(phase := if ok then Locked else Failed)
      ensures Calm(out) && old(db).holder.None? ==> ok
    {
      hide Inv, Legal, After, Applied;
      ok := Pause(me, out);
      var left := out.patience;
      while ok && db.holder.Some? && left > 0
        invariant Valid() && Extends() && me in db.inst
        invariant db.inst[me] == if ok then old(db).inst[me] else old(db).inst[me].(phase := Failed)
        invariant Calm(out) && old(db).holder.None? ==> ok && db.holder.None?
      {
        ok := Pause(me, out);
        left := left - 1;
      }
      if !ok {
        return;
      }
      LenInPlan(plan, db, me);
      if db.holder.Some? {
        Do(Fail(me));
        ok := false;
      } else {
        Do(Lock(me));
      }
    }

    method RunStatement(me: InstanceId, out: Outside) returns (ok: bool)
      requires Valid() && Foreign(plan, out, me) && Busy(plan, db, me) && db.inst[me].phase.Running?
      requires |db.inst[me].phase.done| < |plan[db.inst[me].pos].statements|
      modifies this
      ensures Valid() && Extends() && me in db.inst
      ensures db.inst[me] == old(db).inst[me].(phase :=
                if ok then Running(old(db).inst[me].phase.done
                                   + [plan[old(db).inst[me].pos].statements[|old(db).inst[me].phase.done|]]) else Failed)
      ensures Calm(out) ==> ok
    {
      hide Inv, Legal, After, Foreign, Distinct, InstanceOk;
      ok := Pause(me, out);
      if ok {
        Do(Statement(me));
      }
    }

    method RecordVersion(me: InstanceId, out: Outside) returns (ok: bool)
      requires Valid() && Foreign(plan, out, me) && Busy(plan, db, me) && db.inst[me].phase.Running?
      requires |db.inst[me].phase.done| == |plan[db.inst[me].pos].statements|
      modifies this
      ensures Valid() && Extends() && me in db.inst
      ensures db.inst[me] == old(db).inst[me].(phase := if ok then Recorded(old(db).inst[me].phase.done) else Failed)
      ensures Calm(out) ==> ok
    {
      hide Inv, Legal, After, Foreign, Distinct, InstanceOk;
      ok := Pause(me, out);
      if ok {
        Do(Record(me));
        NeverClashes(plan, db, me);
      }
    }

    /** The statements of the file, one by one, then the row that records it. */
    method RunStatements(me: InstanceId, out: Outside) returns (ok: bool)
      requires Valid() && Foreign(plan, out, me) && Busy(plan, db, me) && db.inst[me].phase == Running([])
      modifies this
      ensures Valid() && Extends() && me in db.inst
      ensures db.inst[me] == old(db).inst[me].(phase :=
                if ok then Recorded(plan[old(db).inst[me].pos].statements) else Failed)
      ensures Calm(out) ==> ok
    {
      hide Inv, Legal, After, Foreign, Distinct, InstanceOk, Calm;
      var statements := plan[db.inst[me].pos].statements;
      var n := |statements|;
      var ran := 0;
      while ran < n
        invariant 0 <= ran <= n
        invariant Valid() && Extends() && me in db.inst && db.inst[me] == old(db).inst[me].(phase := Running(statements[..ran]))
      {
        ok := RunStatement(me, out);
        if !ok {
          return;
        }
        assert statements[..ran + 1] == statements[..ran] + [statements[ran]];
        ran := ran + 1;
      }
      assert statements[..n] == statements;
      ok := RecordVersion(me, out);
    }

    /** tx.Commit, of a migration just run or of a check that found it done. */
    method CommitTx(me: InstanceId, out: Outside) returns (ok: bool)
      requires Valid() && Foreign(plan, out, me) && me in db.inst && db.inst[me].pos < |plan|
      requires db.inst[me].phase.Skipping? || db.inst[me].phase.Recorded?
      modifies this
      ensures Valid() && Extends() && me in db.inst
      ensures ok ==> db.inst[me] == old(db).inst[me].(pos := old(db).inst[me].pos + 1, phase := Between)
      ensures ok ==> plan[old(db).inst[me].pos].version in db.recorded && db.holder.None?
      ensures !ok ==> db.inst[me].phase.Failed?
      ensures Calm(out) ==> ok
    {
      hide Inv, Legal, After, Foreign, Distinct, InstanceOk;
      ok := Pause(me, out);
      if !ok {
        return;
      }
      ok := out.told(tick);
      Do(Commit(me, ok));
      PassedIsRecorded(plan, db, me);
    }

    method ApplyMigration(me: InstanceId, out: Outside) returns (ok: bool)
      requires Valid() && Foreign(plan, out, me) && me in db.inst
      requires db.inst[me].phase.Between? && db.inst[me].pos < db.inst[me].len <= |plan|
      modifies this
      ensures Valid() && Extends() && me in db.inst
      ensures ok ==> db.inst[me] == old(db).inst[me].(pos := old(db).inst[me].pos + 1)
      ensures ok ==> plan[old(db).inst[me].pos].version in db.recorded
      ensures !ok ==> db.inst[me].phase.Failed?
      ensures Calm(out) && old(db).holder.None? ==> ok && db.holder.None?
    {
      hide Inv, Legal, After, Foreign, Distinct, InstanceOk;
      ok := AcquireLock(me, out);
      if !ok {
        return;
      }
      ok := Pause(me, out);
      if !ok {
        return;
      }
      Do(Check(me));
      if db.inst[me].phase.Running? {
        ok := RunStatements(me, out);
        if !ok {
          return;
        }
      }
      ok := CommitTx(me, out);
    }

    /** Succeeds only with every file of the listing recorded; and it does
        succeed when nobody else is at work and nothing fails. */
    method RunMigrations(me: InstanceId, len: nat, out: Outside) returns (ok: bool)
      requires Valid() && Foreign(plan, out, me) && me !in db.inst && len <= |plan|
      modifies this
      ensures Valid() && Extends() && me in db.inst
      ensures ok ==> db.inst[me].phase.Succeeded? && AllRecorded(plan, db.recorded, len)
      ensures !ok ==> db.inst[me].phase.Failed?
      ensures Calm(out) && old(db).holder.None? ==> ok
    {
      hide Inv, Legal, After, Foreign, Distinct, InstanceOk;
      Do(Start(me, len));
      var k := 0;
      while k < len
        invariant 0 <= k <= len && Valid() && Extends()
        invariant me in db.inst && db.inst[me] == Instance(len, k, Between)
        invariant AllRecorded(plan, db.recorded, k)
        invariant Calm(out) && old(db).holder.None? ==> db.holder.None?
      {
        ok := ApplyMigration(me, out);
        if !ok {
          return;
        }
        k := k + 1;
      }
      Do(Finish(me));
      ok := true;
    }
  }

  lemma NoSteps(plan: seq<Migration>, s: State)
    ensures Legal(plan, s, []) && After(plan, s, []) == s
  {
  }

  lemma FailEffect(plan: seq<Migration>, s: State, me: InstanceId)
    requires Enabled(plan, s, Fail(me))
    ensures me in Apply(plan, s, Fail(me)).inst
    ensures Apply(plan, s, Fail(me)).inst[me] == s.inst[me].(phase := Failed)
  {
  }

  lemma LenInPlan(plan: seq<Migration>, s: State, me: InstanceId)
    requires Inv(plan, s) && me in s.inst
    ensures s.inst[me].pos <= s.inst[me].len <= |plan|
  {
  }

  lemma NeverClashes(plan: seq<Migration>, s: State, me: InstanceId)
    requires Inv(plan, s) && me in s.inst
    ensures !s.inst[me].phase.Clashed?
  {
  }

  /** The file an instance has just passed is recorded. */
  lemma PassedIsRecorded(plan: seq<Migration>, s: State, me: InstanceId)
    requires Distinct(plan) && Inv(plan, s) && me in s.inst
    ensures s.inst[me].pos <= |plan|
    ensures s.inst[me].pos > 0 ==> plan[s.inst[me].pos - 1].version in s.recorded
  {
    if s.inst[me].pos > 0 {
      InPrefix(plan, |s.recorded|, s.inst[me].pos - 1);
    }
  }
}
