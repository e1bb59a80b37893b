/**
Planning and applying (src/oa_knowledge/done_convergence.py): the plan over a snapshot, its
application in batches of fifty with other workers in between, and what one action does.
*/
module ConvergenceLaws {
  import opened Wrappers
  import opened DoneConvergence

  const BATCH: nat := 50

  // --- the plan ---

  datatype Counts = Counts(
    eligible: nat, excluded: nat, attention: nat,
    downloadCreated: int, downloadRequeued: int, markdownCreated: int, markdownRequeued: int)

  const ZERO := Counts(0, 0, 0, 0, 0, 0, 0)

  function Bump(c: Counts, a: Action, step: int): Counts {
    match (a, a.phase)
    case (Create(_, _, _, _), Download) => c.(downloadCreated := c.downloadCreated + step)
    case (Create(_, _, _, _), Markdown) => c.(markdownCreated := c.markdownCreated + step)
    case (Requeue(_, _, _), Download) => c.(downloadRequeued := c.downloadRequeued + step)
    case (Requeue(_, _, _), Markdown) => c.(markdownRequeued := c.markdownRequeued + step)
  }

  function Note(c: Counts, d: Decision): Counts {
    match d
    case Exclude => c.(excluded := c.excluded + 1)
    case Leave => c.(eligible := c.eligible + 1)
    case Attend => c.(eligible := c.eligible + 1, attention := c.attention + 1)
    case Act(a) => Bump(c.(eligible := c.eligible + 1), a, 1)
  }

  /** The counts and the actions after the first `n` manifest rows. */
  function Plan(f: Facts, t: Tables, n: nat): (Counts, seq<Action>)
    requires n <= |t.manifests|
  {
    if n == 0 then (ZERO, [])
    else
      var (c, actions) := Plan(f, t, n - 1);
      var d := Decide(f, t.tasks, t.manifests[n - 1]);
      (Note(c, d), if d.Act? then actions + [d.action] else actions)
  }

  function FullPlan(f: Facts, t: Tables): (Counts, seq<Action>) {
    Plan(f, t, |t.manifests|)
  }

  // --- applying, with other workers in between ---

  /** After `n` actions: the tables, and the effect each action had. `others` is what happens before a batch. */
  function ApplyAll(t: Tables, actions: seq<Action>, others: (nat, Tables) -> Tables, now: int,
      n: nat): (r: (Tables, seq<Effect>))
    requires n <= |actions|
    ensures |r.1| == n
  {
    if n == 0 then (t, [])
    else
      var (u, effects) := ApplyAll(t, actions, others, now, n - 1);
      var v := if (n - 1) % BATCH == 0 then others((n - 1) / BATCH, u) else u;
      var (w, e) := Apply(v, actions[n - 1], now);
      (w, effects + [e])
  }

  /** The report: the planned counts, less what was dropped. */
  function Report(planned: Counts, actions: seq<Action>, effects: seq<Effect>, n: nat): Counts
    requires n <= |actions| && n <= |effects|
  {
    if n == 0 then planned
    else
      var c := Report(planned, actions, effects, n - 1);
      if effects[n - 1].Dropped? then Bump(c, actions[n - 1], -1) else c
  }

  function Number(c: Counts, create: bool, p: Phase): int {
    match (create, p)
    case (true, Download) => c.downloadCreated
    case (true, Markdown) => c.markdownCreated
    case (false, Download) => c.downloadRequeued
    case (false, Markdown) => c.markdownRequeued
  }

  predicate OfKind(a: Action, create: bool, p: Phase) {
    a.Create? == create && a.phase == p
  }

  function CountEffects(actions: seq<Action>, effects: seq<Effect>, n: nat, create: bool, p: Phase): nat
    requires n <= |actions| && n <= |effects|
  {
    if n == 0 then 0
    else CountEffects(actions, effects, n - 1, create, p) + if OfKind(actions[n - 1], create, p) &&
      !effects[n - 1].Dropped? then 1 else 0
  }

  function CountKind(actions: seq<Action>, create: bool, p: Phase): nat {
    if actions == [] then 0
    else CountKind(actions[..|actions| - 1], create, p) + if OfKind(actions[|actions| - 1], create, p) then 1 else 0
  }

  lemma BumpMeans(c: Counts, a: Action, step: int, create: bool, p: Phase)
    ensures Number(Bump(c, a, step), create, p) == Number(c, create, p) + if OfKind(a, create, p) then step else 0
    ensures Bump(c, a, step).eligible == c.eligible && Bump(c, a, step).excluded == c.excluded &&
      Bump(c, a, step).attention == c.attention
  {
  }

  lemma NoteMeans(c: Counts, d: Decision, create: bool, p: Phase)
    ensures var n := Note(c, d);
      && Number(n, create, p) == Number(c, create, p) + (if d.Act? && OfKind(d.action, create, p) then 1 else 0)
      && n.eligible == c.eligible + (if d.Exclude? then 0 else 1)
      && n.excluded == c.excluded + (if d.Exclude? then 1 else 0)
      && n.attention == c.attention + (if d.Attend? then 1 else 0)
  {
    if d.Act? {
      BumpMeans(c.(eligible := c.eligible + 1), d.action, 1, create, p);
      hide Bump;
    }
  }

  lemma CountKindAppend(actions: seq<Action>, a: Action, create: bool, p: Phase)
    ensures CountKind(actions + [a], create, p) == CountKind(actions, create, p) + if OfKind(a, create, p) then 1 else 0
  {
    assert (actions + [a])[..|actions|] == actions;
  }

  /** The planned counts are the numbers of planned actions, and every row is eligible or excluded. */
  lemma {:induction false} PlanCounts(f: Facts, t: Tables, n: nat, create: bool, p: Phase)
    requires n <= |t.manifests|
    ensures var (c, actions) := Plan(f, t, n);
      Number(c, create, p) == CountKind(actions, create, p) && c.eligible + c.excluded == n
  {
    hide Decide, Note, Number, CountKind, OfKind;
    if n == 0 {
      ZeroCounts(create, p);
    } else {
      PlanCounts(f, t, n - 1, create, p);
      var (c, actions) := Plan(f, t, n - 1);
      var d := Decide(f, t.tasks, t.manifests[n - 1]);
      NoteMeans(c, d, create, p);
      if d.Act? {
        CountKindAppend(actions, d.action, create, p);
      }
    }
  }

  lemma ZeroCounts(create: bool, p: Phase)
    ensures Number(ZERO, create, p) == 0 && CountKind([], create, p) == 0
  {
  }

  lemma {:induction false} ReportCounts(planned: Counts, actions: seq<Action>, effects: seq<Effect>, n: nat,
      create: bool, p: Phase)
    requires n <= |actions| && n <= |effects|
    ensures Number(Report(planned, actions, effects, n), create, p)
            == Number(planned, create, p) - CountKind(actions[..n], create, p) +
              CountEffects(actions, effects, n, create, p)
  {
    if n > 0 {
      ReportCounts(planned, actions, effects, n - 1, create, p);
      BumpMeans(Report(planned, actions, effects, n - 1), actions[n - 1], -1, create, p);
      assert actions[..n][..n - 1] == actions[..n - 1];
    }
  }

  /** The reported numbers are those of the actions that were not dropped. */
  lemma ReportCountsEffects(f: Facts, t: Tables, others: (nat, Tables) -> Tables, now: int, create: bool, p: Phase)
    ensures var (planned, actions) := FullPlan(f, t);
      var effects := ApplyAll(t, actions, others, now, |actions|).1;
      Number(Report(planned, actions, effects, |actions|), create, p) ==
        CountEffects(actions, effects, |actions|, create, p)
  {
    hide Decide, Apply;
    var (planned, actions) := FullPlan(f, t);
    var effects := ApplyAll(t, actions, others, now, |actions|).1;
    PlanCounts(f, t, |t.manifests|, create, p);
    ReportCounts(planned, actions, effects, |actions|, create, p);
    assert actions[..|actions|] == actions;
  }

  // --- what an effect is ---

  ghost predicate UniqueIds(tasks: seq<Task>) {
    forall i, j :: 0 <= i < j < |tasks| ==> tasks[i].id != tasks[j].id
  }

  /**
  An effect says what happened to the table: one row more under a key that was not there, or one inactive task
  queued again.
  */
  lemma ApplyMeans(t: Tables, a: Action, now: int)
    requires UniqueIds(t.tasks)
    ensures var (u, e) := Apply(t, a, now);
      && UniqueIds(u.tasks) && u.manifests == t.manifests
      && (e.Dropped? ==> u == t)
      && (e.Inserted? ==>
            (&& a.Create? && u.tasks == t.tasks + [e.task] && e.task.status == Queued
             && e.task.idem == a.idem && e.task.key == a.key && e.task.stage == a.stage
             && forall x :: x in t.tasks ==> x.idem != a.idem && x.id != e.task.id))
      && (e.Reset? ==>
            (&& a.Requeue? && e.before in t.tasks && e.before.id == a.taskId && !Active(e.before)
             && |u.tasks| == |t.tasks|
             && forall i :: 0 <= i < |t.tasks| ==>
               u.tasks[i] == (if t.tasks[i] == e.before then Requeued(e.before) else t.tasks[i])))
  {
  }

  /** An action is dropped exactly when its row is gone or excluded by now, or its task active, or its key taken. */
  lemma DroppedIff(t: Tables, a: Action, now: int)
    ensures Apply(t, a, now).1.Dropped? <==>
      || ByKey(t.manifests, a.key).None? || Skipped(ByKey(t.manifests, a.key).value)
      || (a.Requeue? && (ById(t.tasks, a.taskId).None? || Active(ById(t.tasks, a.taskId).value)))
      || (a.Create? && exists x :: x in t.tasks && x.idem == a.idem)
  {
  }

  // --- no key twice ---

  ghost predicate DistinctRows(ms: seq<Manifest>) {
    forall i, j :: 0 <= i < j < |ms| ==> ms[i].key != ms[j].key
  }

  function Owner(k: IdemKey): Option<string> {
    match k case DownloadKey(i) => Some(i) case MarkdownKey(i, _) => Some(i) case OtherKey(_) => None
  }

  ghost predicate OwnAction(f: Facts, a: Action, m: Manifest) {
    a.key == m.key && (a.Create? ==> Owner(a.idem) == Some(m.key))
  }

  lemma DecidedActionIsOwn(f: Facts, tasks: seq<Task>, m: Manifest)
    ensures Decide(f, tasks, m).Act? ==> OwnAction(f, Decide(f, tasks, m).action, m)
  {
  }

  ghost predicate PlannedFrom(f: Facts, a: Action, ms: seq<Manifest>, n: nat)
    requires n <= |ms|
  {
    exists k :: 0 <= k < n && OwnAction(f, a, ms[k])
  }

  /** Each action belongs to a row of its own among the first `n`. */
  ghost predicate Apart(f: Facts, actions: seq<Action>, ms: seq<Manifest>, n: nat)
    requires n <= |ms|
  {
    && (forall i :: 0 <= i < |actions| ==> PlannedFrom(f, actions[i], ms, n))
    && (forall i, j :: 0 <= i < j < |actions| ==> actions[i].key != actions[j].key)
  }

  lemma OneMoreApart(f: Facts, actions: seq<Action>, ms: seq<Manifest>, n: nat, d: Decision)
    requires n < |ms| && DistinctRows(ms) && Apart(f, actions, ms, n)
    requires d.Act? ==> OwnAction(f, d.action, ms[n])
    ensures Apart(f, if d.Act? then actions + [d.action] else actions, ms, n + 1)
  {
  }

  lemma {:induction false} PlannedActionsAreApart(f: Facts, t: Tables, n: nat)
    requires n <= |t.manifests| && DistinctRows(t.manifests)
    ensures Apart(f, Plan(f, t, n).1, t.manifests, n)
  {
    hide Decide, Apart;
    if n == 0 {
      NothingPlanned(f, t.manifests);
    } else {
      PlannedActionsAreApart(f, t, n - 1);
      DecidedActionIsOwn(f, t.tasks, t.manifests[n - 1]);
      OneMoreApart(f, Plan(f, t, n - 1).1, t.manifests, n - 1, Decide(f, t.tasks, t.manifests[n - 1]));
    }
  }

  lemma NothingPlanned(f: Facts, ms: seq<Manifest>)
    ensures Apart(f, [], ms, 0)
  {
  }

  /** So no idempotency key is inserted twice in one application, even if others delete rows meanwhile. */
  lemma NoKeyInsertedTwice(f: Facts, t: Tables, others: (nat, Tables) -> Tables, now: int, i: nat, j: nat)
    requires DistinctRows(t.manifests)
    requires var actions := FullPlan(f, t).1; i < j < |actions|
    ensures var actions := FullPlan(f, t).1;
      var effects := ApplyAll(t, actions, others, now, |actions|).1;
      effects[i].Inserted? && effects[j].Inserted? ==> effects[i].task.idem != effects[j].task.idem
  {
    hide Decide;
    var actions := FullPlan(f, t).1;
    PlannedActionsAreApart(f, t, |t.manifests|);
    EffectIdem(t, actions, others, now, |actions|, i);
    EffectIdem(t, actions, others, now, |actions|, j);
    ApartMeans(f, actions, t.manifests, i, j);
  }

  lemma ApartMeans(f: Facts, actions: seq<Action>, ms: seq<Manifest>, i: nat, j: nat)
    requires Apart(f, actions, ms, |ms|) && i < j < |actions|
    ensures actions[i].Create? && actions[j].Create? ==> actions[i].idem != actions[j].idem
  {
  }

  lemma {:induction false} EffectIdem(t: Tables, actions: seq<Action>, others: (nat, Tables) -> Tables, now: int,
      n: nat, i: nat)
    requires i < n <= |actions|
    ensures var e := ApplyAll(t, actions, others, now, n).1[i];
      (e.Inserted? ==> actions[i].Create? && e.task.idem == actions[i].idem && e.task.status == Queued)
      && (e.Reset? ==> actions[i].Requeue? && !Active(e.before))
  {
    if i < n - 1 {
      EffectIdem(t, actions, others, now, n - 1, i);
      hide Apply;
    }
  }
}
