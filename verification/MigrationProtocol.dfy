/** Any number of service instances migrating one database at the same time.
    Each walks the sorted files and applies every migration in a transaction
    of its own, under one advisory lock held to the end of the transaction.
    Any statement may fail, any instance may crash, and the outcome of a
    commit may not arrive. */
module MigrationProtocol {
  import opened Contract

  type InstanceId = nat

  /** A file of the sorted listing: its version and its non-blank statements. */
  datatype Migration = Migration(version: int, statements: seq<string>)

  datatype Phase =
    | Between          // no transaction open
    | Locked           // holds the advisory lock
    | Skipping         // found the version recorded, about to commit
    | Running(done: seq<string>)     // the statements run so far in this transaction
    | Recorded(done: seq<string>)    // and the INSERT done, about to commit
    | Clashed          // the INSERT met the version's primary key
    | Succeeded
    | Failed

  /** `len` files were in the directory when the instance started: an older
      release may come with fewer of them. */
  datatype Instance = Instance(len: nat, pos: nat, phase: Phase)

  /** The committed state: versions in commit order and the statements in
      effect; and who holds the lock. */
  datatype State = State(
    recorded: seq<int>,
    schema: seq<string>,
    holder: Option<InstanceId>,
    inst: map<InstanceId, Instance>)

  datatype Step =
    | Start(i: InstanceId, len: nat)
    | Lock(i: InstanceId)
    | Check(i: InstanceId)
    | Statement(i: InstanceId)
    | Record(i: InstanceId)
    | Commit(i: InstanceId, told: bool)
    | Fail(i: InstanceId)
    | Finish(i: InstanceId)

  predicate InTx(p: Phase)
  {
    p.Locked? || p.Skipping? || p.Running? || p.Recorded? || p.Clashed?
  }

  predicate Busy(plan: seq<Migration>, s: State, i: InstanceId)
  {
    i in s.inst && s.inst[i].pos < |plan|
  }

  predicate Enabled(plan: seq<Migration>, s: State, step: Step)
  {
    match step
    case Start(i, len) => i !in s.inst && len <= |plan|
    case Lock(i) => Busy(plan, s, i) && s.inst[i].pos < s.inst[i].len && s.inst[i].phase.Between? && s.holder.None?
    case Check(i) => Busy(plan, s, i) && s.inst[i].phase.Locked?
    case Statement(i) =>
      Busy(plan, s, i) && s.inst[i].phase.Running? && |s.inst[i].phase.done| < |plan[s.inst[i].pos].statements|
    case Record(i) =>
      Busy(plan, s, i) && s.inst[i].phase.Running? && |s.inst[i].phase.done| == |plan[s.inst[i].pos].statements|
    case Commit(i, _) => Busy(plan, s, i) && (s.inst[i].phase.Skipping? || s.inst[i].phase.Recorded?)
    case Fail(i) => i in s.inst && (s.inst[i].phase.Between? || InTx(s.inst[i].phase))
    case Finish(i) => i in s.inst && s.inst[i].phase.Between? && s.inst[i].pos == s.inst[i].len
  }

  function With(s: State, i: InstanceId, p: Phase): State
    requires i in s.inst
  {
    s.(inst := s.inst[i := s.inst[i].(phase := p)])
  }

  function Apply(plan: seq<Migration>, s: State, step: Step): State
    requires Enabled(plan, s, step)
  {
    match step
    case Start(i, len) => s.(inst := s.inst[i := Instance(len, 0, Between)])
    case Lock(i) => With(s, i, Locked).(holder := Some(i))
    case Check(i) => With(s, i, if plan[s.inst[i].pos].version in s.recorded then Skipping else Running([]))
    case Statement(i) =>
      var done := s.inst[i].phase.done;
      With(s, i, Running(done + [plan[s.inst[i].pos].statements[|done|]]))
    case Record(i) => With(s, i, if plan[s.inst[i].pos].version in s.recorded then Clashed else Recorded(s.inst[i].phase.done))
    case Commit(i, told) =>
      var me, m := s.inst[i], plan[s.inst[i].pos];
      var next := if told then me.(pos := me.pos + 1, phase := Between) else me.(phase := Failed);
      if me.phase.Skipping? then s.(holder := None, inst := s.inst[i := next])
      else State(s.recorded + [m.version], s.schema + me.phase.done, None, s.inst[i := next])
    case Fail(i) => With(s, i, Failed).(holder := if InTx(s.inst[i].phase) then None else s.holder)
    case Finish(i) => With(s, i, Succeeded)
  }

  predicate Init(s: State)
  {
    s == State([], [], None, map[])
  }

  /** What a sorted listing with distinct versions gives. */
  predicate Distinct(plan: seq<Migration>)
  {
    forall a, b :: 0 <= a < b < |plan| ==> plan[a].version != plan[b].version
  }

  function Versions(plan: seq<Migration>): seq<int>
  {
    seq(|plan|, k requires 0 <= k < |plan| => plan[k].version)
  }

  /** All statements of all files, in order. */
  function Effects(plan: seq<Migration>): seq<string>
  {
    if plan == [] then [] else Effects(plan[..|plan| - 1]) + plan[|plan| - 1].statements
  }

  /** Effects takes every file's statements whole, file after file. */
  lemma {:induction false} EffectsHold(plan: seq<Migration>, k: nat)
    requires k < |plan|
    ensures Effects(plan[..k + 1]) == Effects(plan[..k]) + plan[k].statements
    ensures Effects([]) == []
  {
    assert plan[..k + 1][..k] == plan[..k] && plan[..k + 1][k] == plan[k];
  }

  // ---------- the invariant ----------

  predicate Applied(plan: seq<Migration>, s: State)
  {
    && |s.recorded| <= |plan|
    && s.recorded == Versions(plan)[..|s.recorded|]
    && s.schema == Effects(plan[..|s.recorded|])
  }

  /** An instance has passed only recorded files; one that found its version
      missing stands right behind the recorded ones. */
  predicate InstanceOk(plan: seq<Migration>, n: nat, me: Instance)
  {
    && me.pos <= me.len <= |plan| && me.pos <= n
    && (InTx(me.phase) ==> me.pos < me.len)
    && (me.phase.Skipping? ==> me.pos < n)
    && (me.phase.Running? ==> me.pos == n && me.phase.done <= plan[me.pos].statements)
    && (me.phase.Recorded? ==> me.pos == n && me.phase.done == plan[me.pos].statements)
    && (me.phase.Succeeded? ==> me.pos == me.len)
    && !me.phase.Clashed?
  }

  ghost predicate Inv(plan: seq<Migration>, s: State)
  {
    && Applied(plan, s)
    && (forall i :: i in s.inst ==> InstanceOk(plan, |s.recorded|, s.inst[i]))
    && (forall i :: i in s.inst && InTx(s.inst[i].phase) <==> s.holder == Some(i))
  }

  /** The version at a position is recorded exactly when the recorded prefix
      reaches past it. */
  lemma InPrefix(plan: seq<Migration>, n: nat, pos: nat)
    requires Distinct(plan) && n <= |plan| && pos < |plan|
    ensures plan[pos].version in Versions(plan)[..n] <==> pos < n
  {
    var vs := Versions(plan);
    assert pos < n ==> vs[..n][pos] == plan[pos].version;
    if plan[pos].version in vs[..n] {
      var k :| 0 <= k < n && vs[..n][k] == plan[pos].version;
      assert plan[k].version == plan[pos].version;
    }
  }

  lemma StepApplied(plan: seq<Migration>, s: State, step: Step)
    requires Inv(plan, s) && Enabled(plan, s, step)
    ensures Applied(plan, Apply(plan, s, step))
  {
    if step.Commit? && s.inst[step.i].phase.Recorded? {
      var n := |s.recorded|;
      assert Versions(plan)[..n + 1] == Versions(plan)[..n] + [plan[n].version];
      assert plan[..n + 1][..n] == plan[..n] && plan[..n + 1][n] == plan[n];
    }
  }

  lemma StepMine(plan: seq<Migration>, s: State, step: Step)
    requires Distinct(plan) && Inv(plan, s) && Enabled(plan, s, step)
    ensures var t := Apply(plan, s, step); InstanceOk(plan, |t.recorded|, t.inst[step.i])
  {
    hide Versions, Effects, Distinct;
    if step.Check? || step.Record? {
      InPrefix(plan, |s.recorded|, s.inst[step.i].pos);
    }
  }

  lemma StepHolder(plan: seq<Migration>, s: State, step: Step)
    requires Inv(plan, s) && Enabled(plan, s, step)
    ensures forall i :: i in Apply(plan, s, step).inst && InTx(Apply(plan, s, step).inst[i].phase)
                        <==> Apply(plan, s, step).holder == Some(i)
  {
    hide Versions, Effects, Applied;
  }

  /** The recorded versions grow only when the holder commits, and nobody else
      stands on the first missing version then. */
  lemma StepOthers(plan: seq<Migration>, s: State, step: Step, i: InstanceId)
    requires Inv(plan, s) && Enabled(plan, s, step) && i in s.inst && i != step.i
    ensures var t := Apply(plan, s, step); i in t.inst && InstanceOk(plan, |t.recorded|, t.inst[i])
  {
    hide Versions, Effects, Applied;
  }

  lemma StepInv(plan: seq<Migration>, s: State, step: Step)
    requires Distinct(plan) && Inv(plan, s) && Enabled(plan, s, step)
    ensures Inv(plan, Apply(plan, s, step)) && s.recorded <= Apply(plan, s, step).recorded
  {
    StepApplied(plan, s, step);
    StepMine(plan, s, step);
    StepHolder(plan, s, step);
    var t := Apply(plan, s, step);
    forall i | i in t.inst
      ensures InstanceOk(plan, |t.recorded|, t.inst[i])
    {
      hide InstanceOk, Applied;
      if i != step.i {
        StepOthers(plan, s, step, i);
      }
    }
  }

  // ---------- runs ----------

  predicate Legal(plan: seq<Migration>, s: State, steps: seq<Step>)
    decreases |steps|
  {
    steps == [] || (Enabled(plan, s, steps[0]) && Legal(plan, Apply(plan, s, steps[0]), steps[1..]))
  }

  function After(plan: seq<Migration>, s: State, steps: seq<Step>): State
    requires Legal(plan, s, steps)
    decreases |steps|
  {
    if steps == [] then s else After(plan, Apply(plan, s, steps[0]), steps[1..])
  }

  lemma {:induction false} RunInv(plan: seq<Migration>, s: State, steps: seq<Step>)
    requires Distinct(plan) && Inv(plan, s) && Legal(plan, s, steps)
    ensures Inv(plan, After(plan, s, steps))
    ensures s.recorded <= After(plan, s, steps).recorded
    decreases |steps|
  {
    if steps != [] {
      StepInv(plan, s, steps[0]);
      hide Inv, Enabled, Apply;
      RunInv(plan, Apply(plan, s, steps[0]), steps[1..]);
    }
  }

  lemma OneStep(plan: seq<Migration>, s: State, step: Step)
    requires Enabled(plan, s, step)
    ensures Legal(plan, s, [step]) && After(plan, s, [step]) == Apply(plan, s, step)
  {
    hide Enabled, Apply;
    var rest := [step][1..];
    assert rest == [] && Legal(plan, Apply(plan, s, step), rest);
    assert After(plan, Apply(plan, s, step), rest) == Apply(plan, s, step);
  }

  lemma {:induction false} RunAppend(plan: seq<Migration>, s: State, a: seq<Step>, b: seq<Step>)
    requires Legal(plan, s, a) && Legal(plan, After(plan, s, a), b)
    ensures Legal(plan, s, a + b) && After(plan, s, a + b) == After(plan, After(plan, s, a), b)
    decreases |a|
  {
    if a == [] {
      assert a + b == b;
    } else {
      hide Enabled, Apply;
      assert (a + b)[0] == a[0] && (a + b)[1..] == a[1..] + b;
      RunAppend(plan, Apply(plan, s, a[0]), a[1..], b);
    }
  }

  /** The first `len` files are recorded. */
  predicate AllRecorded(plan: seq<Migration>, recorded: seq<int>, len: nat)
  {
    len <= |plan| && forall k :: 0 <= k < len ==> plan[k].version in recorded
  }

  lemma PassedAreRecorded(plan: seq<Migration>, n: nat, len: nat)
    requires Distinct(plan) && len <= n <= |plan|
    ensures AllRecorded(plan, Versions(plan)[..n], len)
  {
    forall k | 0 <= k < len
      ensures plan[k].version in Versions(plan)[..n]
    {
      InPrefix(plan, n, k);
    }
  }

  /** After any run, the recorded versions are the first so many of the sorted
      files, in that order, and what is in effect is every statement of these
      files, once each and in order, with nothing of any other file.  A version
      is never recorded twice, the INSERT never meets its primary key, and an
      instance that succeeded sees all its files recorded. */
  lemma MigrationRuns(plan: seq<Migration>, s: State, steps: seq<Step>)
    requires Distinct(plan) && Init(s) && Legal(plan, s, steps)
    ensures var t := After(plan, s, steps);
            && t.recorded <= Versions(plan)
            && t.schema == Effects(plan[..|t.recorded|])
            && (forall v :: multiset(t.recorded)[v] <= 1)
            && (forall i :: i in t.inst ==> !t.inst[i].phase.Clashed?)
            && (forall i :: i in t.inst && t.inst[i].phase.Succeeded? ==> AllRecorded(plan, t.recorded, t.inst[i].len))
  {
    RunInv(plan, s, steps);
    hide Legal, After;
    var t := After(plan, s, steps);
    var n := |t.recorded|;
    forall v ensures multiset(t.recorded)[v] <= 1 {
      AtMostOnce(t.recorded, v);
    }
    forall i | i in t.inst && t.inst[i].phase.Succeeded?
      ensures AllRecorded(plan, t.recorded, t.inst[i].len)
    {
      PassedAreRecorded(plan, n, t.inst[i].len);
    }
  }

  lemma {:induction false} AtMostOnce<T>(vs: seq<T>, v: T)
    requires forall a, b :: 0 <= a < b < |vs| ==> vs[a] != vs[b]
    ensures multiset(vs)[v] <= 1
    ensures v !in vs ==> multiset(vs)[v] == 0
  {
    if vs != [] {
      var n := |vs| - 1;
      assert vs == vs[..n] + [vs[n]];
      AtMostOnce(vs[..n], v);
    }
  }

  predicate Active(me: Instance)
  {
    me.phase.Between? || InTx(me.phase)
  }

  /** No deadlock: while an instance is under way, some instance can take a
      step that is not a failure. */
  lemma SomeInstanceMoves(plan: seq<Migration>, s: State, i: InstanceId) returns (step: Step)
    requires Inv(plan, s) && i in s.inst && Active(s.inst[i])
    ensures Enabled(plan, s, step) && !step.Fail? && !step.Start?
  {
    if s.holder.Some? {
      var h := s.holder.value;
      var p := s.inst[h].phase;
      if p.Locked? {
        step := Check(h);
      } else if p.Running? {
        step := if |p.done| < |plan[s.inst[h].pos].statements| then Statement(h) else Record(h);
      } else {
        step := Commit(h, true);
      }
    } else {
      step := if s.inst[i].pos < s.inst[i].len then Lock(i) else Finish(i);
    }
  }
}
