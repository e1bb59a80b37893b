/**
One application settles everything (src/oa_knowledge/done_convergence.py): planning again creates
and requeues nothing and reports the same rows, and no eligible row is left without a task, a
reason for attention, or a convergence task that did not fail.
*/
module ConvergenceSettles {
  import opened Wrappers
  import opened DoneConvergence
  import opened ConvergenceLaws

  /** Identifiers are unique, and a convergence key names a task of the item it was made for. */
  ghost predicate Valid(tasks: seq<Task>) {
    UniqueIds(tasks) && forall t :: t in tasks && Owner(t.idem).Some? ==> Owner(t.idem) == Some(t.key)
  }

  function After(r: Option<Task>, id: nat): Option<Task> {
    if r.Some? && r.value.id == id then Some(Requeued(r.value)) else r
  }

  lemma {:induction false} NewestAfterRequeue(tasks: seq<Task>, id: nat, key: string, p: Phase)
    ensures Newest(RequeueById(tasks, id), key, p) == After(Newest(tasks, key, p), id)
  {
    hide InPhase, RequeueById;
    if tasks != [] {
      NewestAfterRequeue(tasks[..|tasks| - 1], id, key, p);
      var r := RequeueById(tasks, id);
      assert r[..|r| - 1] == RequeueById(tasks[..|tasks| - 1], id);
    }
  }

  lemma {:induction false} ByIdemAfterRequeue(tasks: seq<Task>, id: nat, idem: IdemKey)
    ensures ByIdem(RequeueById(tasks, id), idem) == After(ByIdem(tasks, idem), id)
  {
    if tasks != [] {
      ByIdemAfterRequeue(tasks[..|tasks| - 1], id, idem);
      var r := RequeueById(tasks, id);
      assert r[..|r| - 1] == RequeueById(tasks[..|tasks| - 1], id);
    }
  }

  lemma AfterInsert(tasks: seq<Task>, t: Task, key: string, p: Phase, idem: IdemKey)
    ensures Newest(tasks + [t], key, p)
            == if Fits(t, key, p) && (Newest(tasks, key, p).None? || Later(t, Newest(tasks, key, p).value))
              then Some(t) else Newest(tasks, key, p)
    ensures ByIdem(tasks + [t], idem) == if t.idem == idem then Some(t) else ByIdem(tasks, idem)
  {
    assert (tasks + [t])[..|tasks|] == tasks;
  }

  /** Two task tables look the same to the planner when it decides about an item. */
  ghost predicate SameView(a: seq<Task>, b: seq<Task>, key: string) {
    && (forall p :: Newest(a, key, p) == Newest(b, key, p))
    && (forall idem :: Owner(idem) == Some(key) ==> ByIdem(a, idem) == ByIdem(b, idem))
  }

  lemma DecideSees(f: Facts, a: seq<Task>, b: seq<Task>, m: Manifest)
    requires SameView(a, b, m.key)
    ensures Decide(f, a, m) == Decide(f, b, m)
  {
    hide Newest, ByIdem, PhaseOf;
    assert Owner(ConvergenceKey(f, m, PhaseOf(f, m))) == Some(m.key);
  }

  lemma SameId(tasks: seq<Task>, a: Task, b: Task)
    requires UniqueIds(tasks) && a in tasks && b in tasks && a.id == b.id
    ensures a == b
  {
    var i :| 0 <= i < |tasks| && tasks[i] == a;
    var j :| 0 <= j < |tasks| && tasks[j] == b;
  }

  lemma OtherId(tasks: seq<Task>, a: Task, b: Task)
    requires UniqueIds(tasks) && a in tasks && b in tasks && a.key != b.key
    ensures a.id != b.id
  {
  }

  lemma RequeueKeepsValid(tasks: seq<Task>, id: nat)
    requires Valid(tasks)
    ensures Valid(RequeueById(tasks, id))
  {
  }

  /** Requeueing a task of one item is invisible to the decision about another. */
  lemma RequeueElsewhere(tasks: seq<Task>, task: Task, key: string)
    requires Valid(tasks) && task in tasks && task.key != key
    ensures SameView(tasks, RequeueById(tasks, task.id), key)
  {
    forall p ensures Newest(tasks, key, p) == Newest(RequeueById(tasks, task.id), key, p) {
      NewestAfterRequeue(tasks, task.id, key, p);
      if Newest(tasks, key, p).Some? {
        OtherId(tasks, Newest(tasks, key, p).value, task);
      }
    }
    forall idem | Owner(idem) == Some(key) ensures ByIdem(tasks, idem) == ByIdem(RequeueById(tasks, task.id), idem) {
      ByIdemAfterRequeue(tasks, task.id, idem);
      if ByIdem(tasks, idem).Some? {
        OtherId(tasks, ByIdem(tasks, idem).value, task);
      }
    }
  }

  lemma InsertElsewhere(tasks: seq<Task>, t: Task, key: string)
    requires t.key != key && (Owner(t.idem).Some? ==> Owner(t.idem) == Some(t.key))
    ensures SameView(tasks, tasks + [t], key)
  {
  }

  /** The task a requeue names is an inactive one of the item. */
  lemma RequeueNames(f: Facts, tasks: seq<Task>, m: Manifest)
    requires Valid(tasks) && Decide(f, tasks, m).Act? && Decide(f, tasks, m).action.Requeue?
    ensures var p, id := PhaseOf(f, m), Decide(f, tasks, m).action.taskId;
      exists t :: t in tasks && t.id == id && t.key == m.key && !Active(t)
        && (Newest(tasks, m.key, p) == Some(t) || ByIdem(tasks, ConvergenceKey(f, m, p)) == Some(t))
  {
  }

  lemma RequeueSettles(f: Facts, tasks: seq<Task>, m: Manifest)
    requires Valid(tasks) && Decide(f, tasks, m).Act? && Decide(f, tasks, m).action.Requeue?
    ensures Decide(f, RequeueById(tasks, Decide(f, tasks, m).action.taskId), m) == Leave
  {
    var p, id := PhaseOf(f, m), Decide(f, tasks, m).action.taskId;
    var idem, after := ConvergenceKey(f, m, p), RequeueById(tasks, id);
    NewestAfterRequeue(tasks, id, m.key, p);
    ByIdemAfterRequeue(tasks, id, idem);
    RequeueSource(f, tasks, m);
    NotDecided(f, tasks, m);
    if Newest(tasks, m.key, p).Some? && Newest(tasks, m.key, p).value.id == id {
      ActiveLeaves(f, after, m);
    } else {
      QueuedKeyLeaves(f, after, m);
    }
  }

  /** Where a requeue comes from: the newest task, or, when that one does not decide, the convergence task. */
  lemma RequeueSource(f: Facts, tasks: seq<Task>, m: Manifest)
    requires Decide(f, tasks, m).Act? && Decide(f, tasks, m).action.Requeue?
    ensures var p, id := PhaseOf(f, m), Decide(f, tasks, m).action.taskId;
      var n, e := Newest(tasks, m.key, p), ByIdem(tasks, ConvergenceKey(f, m, p));
      || (n.Some? && n.value.id == id && !Active(n.value))
      || (e.Some? && e.value.id == id && !Active(e.value) && (n.None? || Undecided(f, m, n.value)))
  {
    hide Newest, ByIdem, PhaseOf, ConvergenceKey;
  }

  lemma NotDecided(f: Facts, tasks: seq<Task>, m: Manifest)
    requires Decide(f, tasks, m).Act?
    ensures !Skipped(m) && !Delivered(f, m)
  {
  }

  /** A newest task that leaves the decision to the convergence key. */
  predicate Undecided(f: Facts, m: Manifest, t: Task) {
    && !Active(t) && t.status != Failed
    && !(PhaseOf(f, m) == Markdown && t.stage == Classify && ClassOf(f, m.key) == Some(NeedsReview))
    && !(PhaseOf(f, m) == Markdown && t.stage == Classify && ClassOf(f, m.key) == Some(Classified) &&
      t.status == Completed)
  }

  lemma ActiveLeaves(f: Facts, tasks: seq<Task>, m: Manifest)
    requires !Skipped(m) && Newest(tasks, m.key, PhaseOf(f, m)).Some? &&
      Active(Newest(tasks, m.key, PhaseOf(f, m)).value)
    ensures Decide(f, tasks, m) == Leave
  {
    hide Newest, PhaseOf, ByIdem;
  }

  lemma QueuedKeyLeaves(f: Facts, tasks: seq<Task>, m: Manifest)
    requires !Skipped(m)
    requires var n := Newest(tasks, m.key, PhaseOf(f, m)); n.None? || Active(n.value) || Undecided(f, m, n.value)
    requires var e := ByIdem(tasks, ConvergenceKey(f, m, PhaseOf(f, m))); e.Some? && e.value.status == Queued
    ensures Decide(f, tasks, m) == Leave
  {
    hide Newest, PhaseOf, ByIdem, ConvergenceKey;
  }

  lemma CreateSettles(f: Facts, tasks: seq<Task>, m: Manifest, t: Task)
    requires Decide(f, tasks, m).Act? && Decide(f, tasks, m).action.Create?
    requires t.status == Queued && t.key == m.key
    requires t.stage == Decide(f, tasks, m).action.stage && t.idem == Decide(f, tasks, m).action.idem
    ensures Decide(f, tasks + [t], m) == Leave
  {
    var p := PhaseOf(f, m);
    AfterInsert(tasks, t, m.key, p, ConvergenceKey(f, m, p));
    hide Newest, ByIdem, PhaseOf, ConvergenceKey, Later;
  }

  /** Applying a row's own action settles the row and is invisible to the others. */
  lemma OwnActionSettles(f: Facts, t: Tables, m: Manifest, now: int)
    requires Valid(t.tasks) && Decide(f, t.tasks, m).Act? && ByKey(t.manifests, m.key) == Some(m)
    ensures var (u, e) := Apply(t, Decide(f, t.tasks, m).action, now);
      && !e.Dropped? && u.manifests == t.manifests && Valid(u.tasks)
      && Decide(f, u.tasks, m) == Leave
      && forall k :: k != m.key ==> SameView(t.tasks, u.tasks, k)
  {
    var a := Decide(f, t.tasks, m).action;
    DecidedActionIsOwn(f, t.tasks, m);
    assert !Skipped(m);
    match a
    case Requeue(_, _, id) =>
      RequeueNames(f, t.tasks, m);
      var task :| task in t.tasks && task.id == id && task.key == m.key && !Active(task);
      assert ById(t.tasks, id).Some?;
      SameId(t.tasks, ById(t.tasks, id).value, task);
      RequeueSettles(f, t.tasks, m);
      RequeueKeepsValid(t.tasks, id);
      hide Decide, SameView;
      forall k | k != m.key ensures SameView(t.tasks, RequeueById(t.tasks, id), k) {
        RequeueElsewhere(t.tasks, task, k);
      }
    case Create(_, key, stage, idem) =>
      CreateNeedsNoTask(f, t.tasks, m);
      var task := NewTask(t.tasks, key, stage, idem, now);
      CreateSettles(f, t.tasks, m, task);
      hide Decide, SameView;
      assert Valid(t.tasks + [task]) by {
        forall x | x in t.tasks + [task] && Owner(x.idem).Some? ensures Owner(x.idem) == Some(x.key) {
          assert x in t.tasks || x == task;
        }
      }
      forall k | k != m.key ensures SameView(t.tasks, t.tasks + [task], k) {
        InsertElsewhere(t.tasks, task, k);
      }
  }

  lemma CreateNeedsNoTask(f: Facts, tasks: seq<Task>, m: Manifest)
    requires Decide(f, tasks, m).Act? && Decide(f, tasks, m).action.Create?
    ensures ByIdem(tasks, Decide(f, tasks, m).action.idem).None?
  {
  }

  // --- the whole application ---

  ghost predicate Chosen(f: Facts, t: Tables, a: Action, k: int) {
    0 <= k < |t.manifests| && Decide(f, t.tasks, t.manifests[k]) == Act(a)
  }

  ghost predicate ChosenBelow(f: Facts, t: Tables, a: Action, n: nat) {
    exists k :: 0 <= k < n && Chosen(f, t, a, k)
  }

  /** The actions are exactly the ones decided for the rows, one per row that needs one. */
  lemma {:induction false} PlanIsExact(f: Facts, t: Tables, n: nat)
    requires n <= |t.manifests|
    ensures forall i :: 0 <= i < |Plan(f, t, n).1| ==> ChosenBelow(f, t, Plan(f, t, n).1[i], n)
    ensures forall k :: 0 <= k < n && Decide(f, t.tasks, t.manifests[k]).Act? ==>
      Decide(f, t.tasks, t.manifests[k]).action in Plan(f, t, n).1
  {
    hide Decide, Note, ChosenBelow;
    if n > 0 {
      PlanIsExact(f, t, n - 1);
      var before, d := Plan(f, t, n - 1).1, Decide(f, t.tasks, t.manifests[n - 1]);
      var actions := Plan(f, t, n).1;
      assert actions == if d.Act? then before + [d.action] else before;
      forall i | 0 <= i < |actions| ensures ChosenBelow(f, t, actions[i], n) {
        if i < |before| {
          ChosenGrows(f, t, before[i], n);
        } else {
          ChosenLast(f, t, actions[i], n);
        }
      }
    }
  }

  lemma ChosenGrows(f: Facts, t: Tables, a: Action, n: nat)
    requires n > 0 && ChosenBelow(f, t, a, n - 1)
    ensures ChosenBelow(f, t, a, n)
  {
  }

  lemma ChosenLast(f: Facts, t: Tables, a: Action, n: nat)
    requires 0 < n <= |t.manifests| && Decide(f, t.tasks, t.manifests[n - 1]) == Act(a)
    ensures ChosenBelow(f, t, a, n)
  {
    assert Chosen(f, t, a, n - 1);
  }

  predicate Handled(actions: seq<Action>, n: nat, key: string)
    requires n <= |actions|
  {
    exists j :: 0 <= j < n && actions[j].key == key
  }

  ghost predicate Quiet(others: (nat, Tables) -> Tables) {
    forall i, x :: others(i, x) == x
  }

  /** How far the first `n` actions have brought each row. */
  ghost predicate Progress(f: Facts, t: Tables, u: Tables, actions: seq<Action>, n: nat)
    requires n <= |actions|
  {
    && u.manifests == t.manifests && Valid(u.tasks)
    && forall k :: 0 <= k < |t.manifests| ==> RowProgress(f, t, u, actions, n, k)
  }

  ghost predicate RowProgress(f: Facts, t: Tables, u: Tables, actions: seq<Action>, n: nat, k: int)
    requires n <= |actions| && 0 <= k < |t.manifests|
  {
    if Handled(actions, n, t.manifests[k].key) then Decide(f, u.tasks, t.manifests[k]) == Leave
    else SameView(t.tasks, u.tasks, t.manifests[k].key)
  }

  lemma {:induction false} ByKeyFinds(ms: seq<Manifest>, k: nat)
    requires DistinctRows(ms) && k < |ms|
    ensures ByKey(ms, ms[k].key) == Some(ms[k])
  {
  }

  /** The row an action is about: it decided the action, and no earlier action is about it. */
  ghost predicate ItsRow(f: Facts, t: Tables, actions: seq<Action>, n: nat, k: int)
    requires n < |actions|
  {
    && Chosen(f, t, actions[n], k) && actions[n].key == t.manifests[k].key
    && !Handled(actions, n, actions[n].key) && ByKey(t.manifests, actions[n].key) == Some(t.manifests[k])
  }

  lemma FindItsRow(f: Facts, t: Tables, actions: seq<Action>, n: nat) returns (k: nat)
    requires n < |actions| && DistinctRows(t.manifests)
    requires Apart(f, actions, t.manifests, |t.manifests|) && ChosenBelow(f, t, actions[n], |t.manifests|)
    ensures ItsRow(f, t, actions, n, k)
  {
    k :| 0 <= k < |t.manifests| && Chosen(f, t, actions[n], k);
    hide PlannedFrom;
    DecidedActionIsOwn(f, t.tasks, t.manifests[k]);
    hide Decide;
    ByKeyFinds(t.manifests, k);
  }

  lemma OneMoreAction(f: Facts, t: Tables, u: Tables, actions: seq<Action>, n: nat, k: nat, now: int)
    requires n < |actions| && DistinctRows(t.manifests) && Progress(f, t, u, actions, n) && ItsRow(f, t, actions, n, k)
    ensures Progress(f, t, Apply(u, actions[n], now).0, actions, n + 1)
  {
    hide Apply, SameView, Valid, Decide, Handled;
    var m, next := t.manifests[k], n + 1;
    assert RowProgress(f, t, u, actions, n, k);
    DecideSees(f, t.tasks, u.tasks, m);
    OwnActionSettles(f, u, m, now);
    var v := Apply(u, actions[n], now).0;
    forall j | 0 <= j < |t.manifests| ensures RowProgress(f, t, v, actions, next, j) {
      if j == k {
        HandledNow(actions, n);
      } else {
        OtherRow(f, t, u, v, actions, n, j);
      }
    }
  }

  lemma HandledNow(actions: seq<Action>, n: nat)
    requires n < |actions|
    ensures Handled(actions, n + 1, actions[n].key)
  {
  }

  lemma OtherRow(f: Facts, t: Tables, u: Tables, v: Tables, actions: seq<Action>, n: nat, j: nat)
    requires n < |actions| && j < |t.manifests| && RowProgress(f, t, u, actions, n, j)
    requires t.manifests[j].key != actions[n].key && SameView(u.tasks, v.tasks, t.manifests[j].key)
    ensures RowProgress(f, t, v, actions, n + 1, j)
  {
  }

  lemma {:induction false} ApplicationProgresses(f: Facts, t: Tables, others: (nat, Tables) -> Tables, now: int, n: nat)
    requires Valid(t.tasks) && DistinctRows(t.manifests) && Quiet(others)
    requires n <= |FullPlan(f, t).1|
    ensures Progress(f, t, ApplyAll(t, FullPlan(f, t).1, others, now, n).0, FullPlan(f, t).1, n)
  {
    hide Decide, Apply, Progress, Valid, Plan, ChosenBelow, Handled, Apart;
    var actions := FullPlan(f, t).1;
    if n == 0 {
      StartProgress(f, t, actions);
    } else {
      ApplicationProgresses(f, t, others, now, n - 1);
      var u := ApplyAll(t, actions, others, now, n - 1).0;
      PlanIsExact(f, t, |t.manifests|);
      PlannedActionsAreApart(f, t, |t.manifests|);
      var k := FindItsRow(f, t, actions, n - 1);
      OneMoreAction(f, t, u, actions, n - 1, k, now);
    }
  }

  lemma StartProgress(f: Facts, t: Tables, actions: seq<Action>)
    requires Valid(t.tasks)
    ensures Progress(f, t, t, actions, 0)
  {
  }

  /**
  After an undisturbed application every row is decided as before, except that rows that needed an action are
  settled.
  */
  lemma EveryRowSettles(f: Facts, t: Tables, others: (nat, Tables) -> Tables, now: int, k: nat)
    requires Valid(t.tasks) && DistinctRows(t.manifests) && Quiet(others) && k < |t.manifests|
    ensures var actions := FullPlan(f, t).1;
      var u := ApplyAll(t, actions, others, now, |actions|).0;
      && u.manifests == t.manifests && Valid(u.tasks)
      && var (before, after) := (Decide(f, t.tasks, t.manifests[k]), Decide(f, u.tasks, t.manifests[k]));
         after == if before.Act? then Leave else before
  {
    hide Decide, ApplyAll, Plan, Valid, SameView, ChosenBelow, Handled;
    var actions := FullPlan(f, t).1;
    ApplicationProgresses(f, t, others, now, |actions|);
    PlanIsExact(f, t, |t.manifests|);
    var u := ApplyAll(t, actions, others, now, |actions|).0;
    var m := t.manifests[k];
    assert RowProgress(f, t, u, actions, |actions|, k);
    if Decide(f, t.tasks, m).Act? {
      DecidedActionIsOwn(f, t.tasks, m);
      HandledAtLast(actions, Decide(f, t.tasks, m).action);
    } else {
      NotHandled(f, t, actions, k);
      DecideSees(f, t.tasks, u.tasks, m);
    }
  }

  lemma HandledAtLast(actions: seq<Action>, a: Action)
    requires a in actions
    ensures Handled(actions, |actions|, a.key)
  {
    var j :| 0 <= j < |actions| && actions[j] == a;
    assert actions[j].key == a.key;
  }

  lemma NotHandled(f: Facts, t: Tables, actions: seq<Action>, k: nat)
    requires DistinctRows(t.manifests) && k < |t.manifests| && !Decide(f, t.tasks, t.manifests[k]).Act?
    requires forall i :: 0 <= i < |actions| ==> ChosenBelow(f, t, actions[i], |t.manifests|)
    ensures !Handled(actions, |actions|, t.manifests[k].key)
  {
  }

  /**
  Planning again after an undisturbed application: nothing to create or requeue, and the same rows eligible,
  excluded and in need of attention.
  */
  lemma {:induction false} SecondPlanIsIdle(f: Facts, t: Tables, others: (nat, Tables) -> Tables, now: int, n: nat)
    requires Valid(t.tasks) && DistinctRows(t.manifests) && Quiet(others) && n <= |t.manifests|
    ensures var actions := FullPlan(f, t).1;
      var u := ApplyAll(t, actions, others, now, |actions|).0;
      && u.manifests == t.manifests
      && var (c, again) := Plan(f, u, n);
         && again == []
         && c == Plan(f, t, n).0.(downloadCreated := 0, downloadRequeued := 0, markdownCreated :=
           0, markdownRequeued := 0)
  {
    hide Decide, ApplyAll, Valid, RowProgress;
    if n == 0 {
      ApplicationProgresses(f, t, others, now, |FullPlan(f, t).1|);
    } else {
      SecondPlanIsIdle(f, t, others, now, n - 1);
      EveryRowSettles(f, t, others, now, n - 1);
    }
  }

  /**
  Leaving a row alone is justified: it is delivered, a task of its phase is active, or its convergence task did
  not fail.
  */
  lemma LeaveMeans(f: Facts, tasks: seq<Task>, m: Manifest)
    requires Decide(f, tasks, m) == Leave
    ensures var p := PhaseOf(f, m);
      || Delivered(f, m)
      || (exists t :: t in tasks && Fits(t, m.key, p) && Active(t))
      || (exists t :: t in tasks && t.idem == ConvergenceKey(f, m, p) && t.status != Failed)
  {
  }

  /** So after one application no eligible row is forgotten. */
  lemma NothingIsForgotten(f: Facts, t: Tables, others: (nat, Tables) -> Tables, now: int, k: nat)
    requires Valid(t.tasks) && DistinctRows(t.manifests) && Quiet(others) && k < |t.manifests|
    ensures var actions := FullPlan(f, t).1;
      var u := ApplyAll(t, actions, others, now, |actions|).0;
      var m := t.manifests[k];
      || Skipped(m) || Delivered(f, m) || Decide(f, u.tasks, m) == Attend
      || (exists x :: x in u.tasks && Fits(x, m.key, PhaseOf(f, m)) && Active(x))
      || (exists x :: x in u.tasks && x.idem == ConvergenceKey(f, m, PhaseOf(f, m)) && x.status != Failed)
  {
    hide Decide, ApplyAll, Plan, Valid;
    EveryRowSettles(f, t, others, now, k);
    var actions := FullPlan(f, t).1;
    var u := ApplyAll(t, actions, others, now, |actions|).0;
    var m := t.manifests[k];
    if Decide(f, u.tasks, m) == Leave {
      LeaveMeans(f, u.tasks, m);
    } else if Decide(f, u.tasks, m) == Exclude {
      ExcludeMeans(f, u.tasks, m);
    }
  }

  lemma ExcludeMeans(f: Facts, tasks: seq<Task>, m: Manifest)
    ensures Decide(f, tasks, m) == Exclude <==> Skipped(m)
  {
  }
}
