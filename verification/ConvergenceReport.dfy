/**
The report is honest (src/oa_knowledge/done_convergence.py): its counts are numbers of changes of
the task table, whatever other workers do to tasks and exclusions before each batch.
*/
module ConvergenceReport {
  import opened DoneConvergence
  import opened ConvergenceLaws

  // --- changes of the tables ---

  /** One row more: queued, in the phase, under an identifier and a key that no row had. */
  ghost predicate RowAdded(before: Tables, after: Tables, p: Phase) {
    && after.manifests == before.manifests
    && |after.tasks| == |before.tasks| + 1
    && after.tasks[..|before.tasks|] == before.tasks
    && NewRow(before.tasks, after.tasks[|before.tasks|], p)
  }

  ghost predicate NewRow(tasks: seq<Task>, row: Task, p: Phase) {
    row.status == Queued && InPhase(row.stage, p) && forall x :: x in tasks ==> x.idem != row.idem && x.id != row.id
  }

  /** One task went from inactive to queued. */
  ghost predicate TaskRestarted(before: Tables, after: Tables) {
    && after.manifests == before.manifests
    && |after.tasks| == |before.tasks|
    && exists k :: 0 <= k < |before.tasks| && RestartedAt(before.tasks, after.tasks, k)
  }

  ghost predicate RestartedAt(before: seq<Task>, after: seq<Task>, k: int)
    requires |after| == |before| && 0 <= k < |before|
  {
    && !Active(before[k]) && after[k].status == Queued && after == before[k := after[k]]
    && after[k].id == before[k].id && after[k].key == before[k].key && after[k].idem == before[k].idem
  }

  /** The effect of an action is what happened to the tables. */
  lemma EffectIsChange(t: Tables, a: Action, now: int, p: Phase)
    requires UniqueIds(t.tasks) && (a.Create? ==> a.stage == FirstStage(a.phase))
    ensures var (u, e) := Apply(t, a, now);
      && (RowAdded(t, u, p) <==> e.Inserted? && a.phase == p)
      && (TaskRestarted(t, u) <==> e.Reset?)
      && (u == t <==> e.Dropped?)
      && (e.Inserted? ==> a.Create?) && (e.Reset? ==> a.Requeue?)
  {
    ApplyMeans(t, a, now);
    var (u, e) := Apply(t, a, now);
    hide Apply;
    if e.Inserted? {
      assert u.tasks[..|t.tasks|] == t.tasks && u.tasks[|t.tasks|] == e.task;
    } else if e.Reset? {
      ResetIsRestart(t, u, e.before);
    }
  }

  lemma ResetIsRestart(t: Tables, u: Tables, before: Task)
    requires before in t.tasks && !Active(before) && u.manifests == t.manifests && |u.tasks| == |t.tasks| &&
      UniqueIds(t.tasks)
    requires forall i :: 0 <= i < |t.tasks| ==>
      u.tasks[i] == (if t.tasks[i] == before then Requeued(before) else t.tasks[i])
    ensures TaskRestarted(t, u) && u != t
  {
    var k :| 0 <= k < |t.tasks| && t.tasks[k] == before;
    assert u.tasks[k] == Requeued(before);
    forall i | 0 <= i < |t.tasks| && i != k ensures t.tasks[i] != before {
      assert t.tasks[i].id != t.tasks[k].id;
    }
    assert u.tasks == t.tasks[k := u.tasks[k]];
    assert RestartedAt(t.tasks, u.tasks, k);
  }

  // --- position by position ---

  /** The tables when action `i` is applied, and just after it. */
  function BeforeAction(t: Tables, actions: seq<Action>, others: (nat, Tables) -> Tables, now: int, i: nat): Tables
    requires i < |actions|
  {
    var u := ApplyAll(t, actions, others, now, i).0;
    if i % BATCH == 0 then others(i / BATCH, u) else u
  }

  function AfterAction(t: Tables, actions: seq<Action>, others: (nat, Tables) -> Tables, now: int, i: nat): Tables
    requires i < |actions|
  {
    ApplyAll(t, actions, others, now, i + 1).0
  }

  /** How many of the first `n` positions added a row of the phase. */
  ghost function RowsAdded(t: Tables, actions: seq<Action>, others: (nat, Tables) -> Tables, now: int, p: Phase,
      n: nat): nat
    requires n <= |actions|
  {
    if n == 0 then 0
    else
      RowsAdded(t, actions, others, now, p, n - 1)
        + if RowAdded(BeforeAction(t, actions, others, now, n - 1), AfterAction(t, actions, others, now, n - 1), p)
          then 1 else 0
  }

  /** How many of the first `n` positions that were planned for the phase restarted a task. */
  ghost function TasksRestarted(t: Tables, actions: seq<Action>, others: (nat, Tables) -> Tables, now: int, p: Phase,
      n: nat): nat
    requires n <= |actions|
  {
    if n == 0 then 0
    else
      var changed := TaskRestarted(BeforeAction(t, actions, others, now, n - 1),
        AfterAction(t, actions, others, now, n - 1));
      TasksRestarted(t, actions, others, now, p, n - 1) + if actions[n - 1].phase == p && changed then 1 else 0
  }

  /** Other workers keep identifiers unique, as the table demands of them. */
  ghost predicate KeepIds(others: (nat, Tables) -> Tables) {
    forall i: nat, x: Tables :: UniqueIds(x.tasks) ==> UniqueIds(others(i, x).tasks)
  }

  ghost predicate Staged(actions: seq<Action>) {
    forall i :: 0 <= i < |actions| ==> StagedAction(actions[i])
  }

  predicate StagedAction(a: Action) {
    a.Create? ==> a.stage == FirstStage(a.phase)
  }

  lemma {:induction false} IdsStayUnique(t: Tables, actions: seq<Action>, others: (nat, Tables) -> Tables, now: int,
      n: nat)
    requires n <= |actions| && UniqueIds(t.tasks) && KeepIds(others)
    ensures UniqueIds(ApplyAll(t, actions, others, now, n).0.tasks)
    ensures n < |actions| ==> UniqueIds(BeforeAction(t, actions, others, now, n).tasks)
  {
    hide Apply, UniqueIds;
    if n > 0 {
      IdsStayUnique(t, actions, others, now, n - 1);
      ApplyMeans(BeforeAction(t, actions, others, now, n - 1), actions[n - 1], now);
    }
  }

  /** What is true of one position: the change of the tables is the effect noted for it. */
  lemma PositionIsHonest(t: Tables, actions: seq<Action>, others: (nat, Tables) -> Tables, now: int, i: nat, p: Phase)
    requires i < |actions| && UniqueIds(t.tasks) && KeepIds(others) && Staged(actions)
    ensures var (before, after) := (BeforeAction(t, actions, others, now, i), AfterAction(t, actions, others, now, i));
      var e := ApplyAll(t, actions, others, now, i + 1).1[i];
      && (RowAdded(before, after, p) <==> OfKind(actions[i], true, p) && !e.Dropped?)
      && (TaskRestarted(before, after) <==> actions[i].Requeue? && !e.Dropped?)
      && (after == before <==> e.Dropped?)
  {
    IdsStayUnique(t, actions, others, now, i);
    assert StagedAction(actions[i]);
    hide Apply, UniqueIds, RowAdded, TaskRestarted;
    EffectIsChange(BeforeAction(t, actions, others, now, i), actions[i], now, p);
  }

  lemma {:induction false} EffectsStay(t: Tables, actions: seq<Action>, others: (nat, Tables) -> Tables, now: int,
      n: nat, i: nat)
    requires i < n <= |actions|
    ensures ApplyAll(t, actions, others, now, n).1[i] == ApplyAll(t, actions, others, now, i + 1).1[i]
  {
    hide Apply;
    if i + 1 < n {
      EffectsStay(t, actions, others, now, n - 1, i);
    }
  }

  lemma {:induction false} CountsAreChanges(t: Tables, actions: seq<Action>, others: (nat, Tables) -> Tables, now: int,
      p: Phase, n: nat)
    requires n <= |actions| && UniqueIds(t.tasks) && KeepIds(others) && Staged(actions)
    ensures var effects := ApplyAll(t, actions, others, now, |actions|).1;
      && CountEffects(actions, effects, n, true, p) == RowsAdded(t, actions, others, now, p, n)
      && CountEffects(actions, effects, n, false, p) == TasksRestarted(t, actions, others, now, p, n)
  {
    hide ApplyAll, RowAdded, TaskRestarted, UniqueIds, KeepIds, Staged, BeforeAction, AfterAction;
    if n > 0 {
      CountsAreChanges(t, actions, others, now, p, n - 1);
      PositionIsHonest(t, actions, others, now, n - 1, p);
      EffectsStay(t, actions, others, now, |actions|, n - 1);
    }
  }

  lemma {:induction false} PlannedIsStaged(f: Facts, t: Tables, n: nat)
    requires n <= |t.manifests|
    ensures Staged(Plan(f, t, n).1)
  {
    if n > 0 {
      PlannedIsStaged(f, t, n - 1);
      DecidedIsStaged(f, t.tasks, t.manifests[n - 1]);
      hide Decide;
    }
  }

  lemma DecidedIsStaged(f: Facts, tasks: seq<Task>, m: Manifest)
    ensures Decide(f, tasks, m).Act? ==> StagedAction(Decide(f, tasks, m).action)
  {
  }

  /**
  The reported counts are the numbers of rows added and of tasks restarted, per phase, and no other
  position changes anything, whatever other workers did before each batch.
  */
  lemma HonestReport(f: Facts, t: Tables, others: (nat, Tables) -> Tables, now: int, p: Phase)
    requires UniqueIds(t.tasks) && KeepIds(others)
    ensures var (planned, actions) := FullPlan(f, t);
      var n := |actions|;
      var report := Report(planned, actions, ApplyAll(t, actions, others, now, n).1, n);
      && Number(report, true, p) == RowsAdded(t, actions, others, now, p, n)
      && Number(report, false, p) == TasksRestarted(t, actions, others, now, p, n)
  {
    hide ApplyAll, UniqueIds, KeepIds, Staged, Plan;
    var actions := FullPlan(f, t).1;
    PlannedIsStaged(f, t, |t.manifests|);
    ReportCountsEffects(f, t, others, now, true, p);
    ReportCountsEffects(f, t, others, now, false, p);
    CountsAreChanges(t, actions, others, now, p, |actions|);
  }

  /** At every position one row is added, or one task is restarted, or nothing happens. */
  lemma EveryPositionIsHonest(f: Facts, t: Tables, others: (nat, Tables) -> Tables, now: int, i: nat)
    requires UniqueIds(t.tasks) && KeepIds(others) && i < |FullPlan(f, t).1|
    ensures var actions := FullPlan(f, t).1;
      var (before, after) := (BeforeAction(t, actions, others, now, i), AfterAction(t, actions, others, now, i));
      || (actions[i].Create? && RowAdded(before, after, actions[i].phase))
      || (actions[i].Requeue? && TaskRestarted(before, after))
      || after == before
  {
    hide ApplyAll, UniqueIds, KeepIds, Staged, Plan, RowAdded, TaskRestarted, BeforeAction, AfterAction;
    PlannedIsStaged(f, t, |t.manifests|);
    PositionIsHonest(t, FullPlan(f, t).1, others, now, i, FullPlan(f, t).1[i].phase);
  }
}
