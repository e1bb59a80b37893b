/**
What an undisturbed application does, read off the tables (src/oa_knowledge/done_convergence.py): which
tasks are queued again, which rows get a new task, and which rows are left to a person.
*/
module ConvergenceTables {
  import opened Sequences
  import opened Wrappers
  import opened DoneConvergence
  import opened ConvergenceLaws
  import opened ConvergenceSettles

  // --- the rules ---

  /** The item's task in the phase that was created last; of tasks created together, the one with the largest id. */
  ghost predicate IsNewest(tasks: seq<Task>, key: string, p: Phase, x: Task) {
    && x in tasks && x.key == key && InPhase(x.stage, p)
    && forall y :: y in tasks && y.key == key && InPhase(y.stage, p) && y.id != x.id ==>
         y.created < x.created || (y.created == x.created && y.id < x.id)
  }

  predicate WaitsForReview(f: Facts, m: Manifest, x: Task) {
    Archived(f, m) && x.stage == Classify && m.key in f.classes && f.classes[m.key] == NeedsReview
  }

  /** A classification came in after the classifying task had ended. */
  predicate ClassifiedSince(f: Facts, m: Manifest, x: Task) {
    && Archived(f, m) && x.stage == Classify && m.key in f.classes && f.classes[m.key] == Classified
    && x.status in {Completed, Failed}
  }

  predicate MayTryAgain(x: Task) {
    || x.recoverable
    || x.error in {Some("DAILY_DELIVERY_PARTIAL"), Some("DAILY_DELIVERY_FAILED"), Some("DAILY_DELIVERY_ERROR")}
  }

  /** The item has its files, or is known to have none. */
  predicate Archived(f: Facts, m: Manifest) {
    || (m.processing == "no_attachment" && m.noAttachment)
    || (m.processing == "downloaded" && m.key in f.items && HasPath(f.items[m.key]))
  }

  /** The row is not excluded, and not archived and delivered. */
  predicate Wanted(f: Facts, m: Manifest) {
    && m.processing != "skipped" && !m.excluded
    && !(Archived(f, m) && m.key in f.complete && m.key in f.items)
  }

  lemma WantedIff(f: Facts, m: Manifest)
    ensures Wanted(f, m) <==> !Skipped(m) && !Delivered(f, m)
    ensures PhaseOf(f, m) == Markdown <==> Archived(f, m)
  {
  }

  predicate EndedQuietly(f: Facts, m: Manifest, x: Task) {
    x.status in {Completed, OtherStatus} && !WaitsForReview(f, m, x) && !ClassifiedSince(f, m, x)
  }

  /** No task of the phase, or one that has ended without failing and asks for nothing more. */
  ghost predicate NoneDecides(f: Facts, tasks: seq<Task>, m: Manifest) {
    forall x :: IsNewest(tasks, m.key, PhaseOf(f, m), x) ==>
      EndedQuietly(f, m, x)
  }

  /** The task is queued again. */
  ghost predicate Restarts(f: Facts, tasks: seq<Task>, m: Manifest, x: Task) {
    && Wanted(f, m)
    && (|| (&& IsNewest(tasks, m.key, PhaseOf(f, m), x) && !WaitsForReview(f, m, x)
            && (ClassifiedSince(f, m, x) || (x.status == Failed && MayTryAgain(x))))
        || (&& NoneDecides(f, tasks, m) && ByIdem(tasks, ConvergenceKey(f, m, PhaseOf(f, m))) == Some(x)
            && x.status == Failed && x.recoverable))
  }

  /** The row gets a new task. */
  ghost predicate NeedsTask(f: Facts, tasks: seq<Task>, m: Manifest) {
    && Wanted(f, m) && NoneDecides(f, tasks, m)
    && forall x :: x in tasks ==> x.idem != ConvergenceKey(f, m, PhaseOf(f, m))
  }

  /** The row is left to a person. */
  ghost predicate NeedsPerson(f: Facts, tasks: seq<Task>, m: Manifest) {
    && Wanted(f, m)
    && (|| (exists x :: IsNewest(tasks, m.key, PhaseOf(f, m), x) && PersonDecides(f, m, x))
        || (NoneDecides(f, tasks, m) && KeyTaskIsLost(f, tasks, m)))
  }

  predicate PersonDecides(f: Facts, m: Manifest, x: Task) {
    || (WaitsForReview(f, m, x) && !Active(x))
    || (x.status == Failed && !MayTryAgain(x) && !ClassifiedSince(f, m, x))
  }

  predicate KeyTaskIsLost(f: Facts, tasks: seq<Task>, m: Manifest) {
    var e := ByIdem(tasks, ConvergenceKey(f, m, PhaseOf(f, m)));
    e.Some? && e.value.status == Failed && !e.value.recoverable
  }

  // --- the planner follows the rules ---

  lemma {:induction false} NewestIs(tasks: seq<Task>, key: string, p: Phase, x: Task)
    requires UniqueIds(tasks)
    ensures Newest(tasks, key, p) == Some(x) <==> IsNewest(tasks, key, p, x)
  {
    hide InPhase;
    if tasks != [] {
      var front, last := tasks[..|tasks| - 1], tasks[|tasks| - 1];
      NewestIs(front, key, p, x);
      if Newest(front, key, p).Some? {
        NewestIs(front, key, p, Newest(front, key, p).value);
      }
      if Newest(front, key, p).None? {
        NoneFits(front, key, p);
      }
      assert forall y :: y in tasks <==> y in front || y == last;
      assert forall y :: y in front ==> y.id != last.id;
    }
  }

  lemma {:induction false} NoneFits(tasks: seq<Task>, key: string, p: Phase)
    ensures Newest(tasks, key, p).None? <==> forall y :: y in tasks ==> !(y.key == key && InPhase(y.stage, p))
  {
    hide InPhase;
    if tasks != [] {
      NoneFits(tasks[..|tasks| - 1], key, p);
      assert forall y :: y in tasks <==> y in tasks[..|tasks| - 1] || y == tasks[|tasks| - 1];
    }
  }

  lemma NewestDecides(f: Facts, tasks: seq<Task>, m: Manifest)
    requires UniqueIds(tasks)
    ensures forall x :: Newest(tasks, m.key, PhaseOf(f, m)) == Some(x) <==> IsNewest(tasks, m.key, PhaseOf(f, m), x)
    ensures var n := Newest(tasks, m.key, PhaseOf(f, m));
      NoneDecides(f, tasks, m) <==> n.None? || EndedQuietly(f, m, n.value)
  {
    hide IsNewest, Newest, PhaseOf;
    forall x ensures Newest(tasks, m.key, PhaseOf(f, m)) == Some(x) <==> IsNewest(tasks, m.key, PhaseOf(f, m), x) {
      NewestIs(tasks, m.key, PhaseOf(f, m), x);
    }
  }

  predicate Requeues(d: Decision, id: nat) {
    d.Act? && d.action.Requeue? && d.action.taskId == id
  }

  lemma RestartsIff(f: Facts, tasks: seq<Task>, m: Manifest, x: Task)
    requires UniqueIds(tasks) && x in tasks
    ensures Requeues(Decide(f, tasks, m), x.id) <==> Restarts(f, tasks, m, x)
  {
    NewestDecides(f, tasks, m);
    hide IsNewest, Newest, NoneDecides, ByIdem, Delivered, UniqueIds;
    var n, e := Newest(tasks, m.key, PhaseOf(f, m)), ByIdem(tasks, ConvergenceKey(f, m, PhaseOf(f, m)));
    if n.Some? && n.value.id == x.id {
      SameId(tasks, n.value, x);
    }
    if e.Some? && e.value.id == x.id {
      SameId(tasks, e.value, x);
    }
    RestartCases(f, tasks, m, x);
  }

  lemma RestartCases(f: Facts, tasks: seq<Task>, m: Manifest, x: Task)
    requires var n := Newest(tasks, m.key, PhaseOf(f, m));
      && (n == Some(x) <==> IsNewest(tasks, m.key, PhaseOf(f, m), x)) &&
        (n.Some? && n.value.id == x.id ==> n.value == x)
      && (NoneDecides(f, tasks, m) <==> n.None? || EndedQuietly(f, m, n.value))
    requires var e := ByIdem(tasks, ConvergenceKey(f, m, PhaseOf(f, m)));
      e.Some? && e.value.id == x.id ==> e.value == x
    ensures Requeues(Decide(f, tasks, m), x.id) <==> Restarts(f, tasks, m, x)
  {
    WantedIff(f, m);
    hide IsNewest, Newest, NoneDecides, ByIdem, Delivered, ConvergenceKey, Skipped, Wanted, Archived;
  }

  lemma NeedsTaskIff(f: Facts, tasks: seq<Task>, m: Manifest)
    requires UniqueIds(tasks)
    ensures var d := Decide(f, tasks, m);
      && (d.Act? && d.action.Create? <==> NeedsTask(f, tasks, m))
      && (d.Act? && d.action.Create? ==>
        && d.action.idem == (if Archived(f, m) then MarkdownKey(m.key, SourcePath(f, m)) else DownloadKey(m.key))
        && d.action.stage == if Archived(f, m) then AttachmentInventory else CaptureAndArchive)
  {
    NewestDecides(f, tasks, m);
    WantedIff(f, m);
    hide IsNewest, Newest, NoneDecides, ByIdem, Delivered, UniqueIds, Wanted, Archived, Skipped;
  }

  lemma NeedsPersonIff(f: Facts, tasks: seq<Task>, m: Manifest)
    requires UniqueIds(tasks)
    ensures Decide(f, tasks, m) == Attend <==> NeedsPerson(f, tasks, m)
  {
    NewestDecides(f, tasks, m);
    WantedIff(f, m);
    hide IsNewest, Newest, NoneDecides, ByIdem, Delivered, UniqueIds, Wanted, Archived, Skipped;
  }

  /** The counts of a plan that are about rows: how many are excluded, eligible and left to a person. */
  lemma {:induction false} RowCounts(f: Facts, t: Tables, n: nat)
    requires UniqueIds(t.tasks) && n <= |t.manifests| && DistinctRows(t.manifests)
    ensures var c := Plan(f, t, n).0;
      && c.excluded == |Those(t.manifests[..n], m => Skipped(m))|
      && c.eligible == |Those(t.manifests[..n], m => !Skipped(m))|
      && c.attention == |Those(t.manifests[..n], m => NeedsPerson(f, t.tasks, m))|
  {
    hide Decide, NeedsPerson, Skipped, Note, Those;
    if n == 0 {
      NobodyOf(m => Skipped(m));
      NobodyOf(m => !Skipped(m));
      NobodyOf(m => NeedsPerson(f, t.tasks, m));
    } else {
      RowCounts(f, t, n - 1);
      var front, m := t.manifests[..n - 1], t.manifests[n - 1];
      assert t.manifests[..n] == front + [m];
      assert m !in front;
      ThoseAppend(front, m, x => Skipped(x));
      ThoseAppend(front, m, x => !Skipped(x));
      ThoseAppend(front, m, x => NeedsPerson(f, t.tasks, x));
      NeedsPersonIff(f, t.tasks, m);
      ExcludeMeans(f, t.tasks, m);
      NoteMeans(Plan(f, t, n - 1).0, Decide(f, t.tasks, m), true, Download);
    }
  }

  lemma NobodyOf(p: Manifest -> bool)
    ensures |Those([], p)| == 0
  {
  }

  // --- the tables afterwards ---

  /** The task as a new one: queued, without the error and the attempts of before. */
  function Again(x: Task): Task {
    x.(status := Queued, recoverable := true, attempts := 0, error := None)
  }

  ghost predicate Named(actions: seq<Action>, n: nat, id: nat)
    requires n <= |actions|
  {
    exists j :: 0 <= j < n && actions[j].Requeue? && actions[j].taskId == id
  }

  ghost predicate Ordered(actions: seq<Action>, n: nat, y: Task)
    requires n <= |actions|
  {
    exists j :: 0 <= j < n && MadeBy(actions[j], y)
  }

  predicate MadeBy(a: Action, y: Task) {
    && a.Create? && y.key == a.key && y.stage == a.stage && y.idem == a.idem
    && y.status == Queued && y.recoverable && y.attempts == 0 && y.error.None?
  }

  predicate HasId(tasks: seq<Task>, id: nat) {
    exists x :: x in tasks && x.id == id
  }

  /** A task of before, after the first `n` actions. */
  ghost predicate OldOne(after: seq<Task>, actions: seq<Action>, n: nat, x: Task)
    requires n <= |actions|
  {
    (if Named(actions, n, x.id) then Again(x) else x) in after
  }

  ghost predicate NewOne(tasks: seq<Task>, after: seq<Task>, a: Action, y: Task) {
    y in after && !HasId(tasks, y.id) && MadeBy(a, y)
  }

  ghost predicate Arrived(tasks: seq<Task>, after: seq<Task>, a: Action) {
    exists y :: NewOne(tasks, after, a, y)
  }

  /**
  The tasks after the first `n` actions: the old ones, queued again if one of these says so, and the ordered
  ones.
  */
  ghost predicate Upto(tasks: seq<Task>, after: seq<Task>, actions: seq<Action>, n: nat)
    requires n <= |actions|
  {
    && UniqueIds(after)
    && (forall x :: x in tasks ==> OldOne(after, actions, n, x))
    && (forall y :: y in after && !HasId(tasks, y.id) ==> Ordered(actions, n, y))
    && (forall j :: 0 <= j < n && actions[j].Create? ==> Arrived(tasks, after, actions[j]))
  }

  function Turned(x: Task, id: nat): Task {
    if x.id == id then Again(x) else x
  }

  /** The task with the identifier was not active, and is queued again; the others are as they were. */
  ghost predicate Redone(before: seq<Task>, after: seq<Task>, id: nat) {
    && (forall x :: x in before ==> Turned(x, id) in after && (x.id == id ==> !Active(x)))
    && (forall y :: y in after ==> exists x :: x in before && y == Turned(x, id))
  }

  lemma ApplyRequeue(u: Tables, a: Action, now: int)
    requires UniqueIds(u.tasks) && a.Requeue? && !Apply(u, a, now).1.Dropped?
    ensures UniqueIds(Apply(u, a, now).0.tasks) && Redone(u.tasks, Apply(u, a, now).0.tasks, a.taskId)
  {
    ApplyMeans(u, a, now);
    var (v, e) := Apply(u, a, now);
    hide Apply, UniqueIds;
    forall x | x in u.tasks ensures Turned(x, a.taskId) in v.tasks && (x.id == a.taskId ==> !Active(x)) {
      var i :| 0 <= i < |u.tasks| && u.tasks[i] == x;
      assert v.tasks[i] in v.tasks;
      if x.id == a.taskId {
        SameId(u.tasks, x, e.before);
      }
    }
    forall y | y in v.tasks ensures exists x :: x in u.tasks && y == Turned(x, a.taskId) {
      var i :| 0 <= i < |v.tasks| && v.tasks[i] == y;
      assert u.tasks[i] in u.tasks;
      if u.tasks[i].id == a.taskId {
        SameId(u.tasks, u.tasks[i], e.before);
      }
      assert y == Turned(u.tasks[i], a.taskId);
    }
  }

  lemma RequeueStep(tasks: seq<Task>, u: Tables, actions: seq<Action>, n: nat, now: int)
    requires n < |actions| && actions[n].Requeue? && HasId(tasks, actions[n].taskId)
    requires UniqueIds(u.tasks) && Upto(tasks, u.tasks, actions, n) && !Apply(u, actions[n], now).1.Dropped?
    ensures Upto(tasks, Apply(u, actions[n], now).0.tasks, actions, n + 1)
  {
    hide *;
    UptoMeans(tasks, u.tasks, actions, n);
    ApplyRequeue(u, actions[n], now);
    var v, id, next := Apply(u, actions[n], now).0, actions[n].taskId, n + 1;
    forall x | x in tasks ensures OldOne(v.tasks, actions, next, x) {
      OldOneTurns(u.tasks, v.tasks, actions, n, x);
    }
    forall y | y in v.tasks && !HasId(tasks, y.id) ensures Ordered(actions, next, y) {
      NewOneStays(tasks, u.tasks, v.tasks, id, y);
      OrderedNext(actions, n, y);
    }
    forall j | 0 <= j < next && actions[j].Create? ensures Arrived(tasks, v.tasks, actions[j]) {
      ArrivedStays(tasks, u.tasks, v.tasks, id, actions[j]);
    }
    UptoMeans(tasks, v.tasks, actions, next);
  }

  lemma UptoMeans(tasks: seq<Task>, after: seq<Task>, actions: seq<Action>, n: nat)
    requires n <= |actions|
    ensures Upto(tasks, after, actions, n) <==>
      && UniqueIds(after)
      && (forall x :: x in tasks ==> OldOne(after, actions, n, x))
      && (forall y :: y in after && !HasId(tasks, y.id) ==> Ordered(actions, n, y))
      && (forall j :: 0 <= j < n && actions[j].Create? ==> Arrived(tasks, after, actions[j]))
  {
    hide UniqueIds, OldOne, HasId, Ordered, Arrived;
  }

  lemma OldOneTurns(u: seq<Task>, v: seq<Task>, actions: seq<Action>, n: nat, x: Task)
    requires n < |actions| && actions[n].Requeue? && Redone(u, v, actions[n].taskId) && OldOne(u, actions, n, x)
    ensures OldOne(v, actions, n + 1, x)
  {
    hide Named;
    NamedNext(actions, n, x.id);
    assert Turned(if Named(actions, n, x.id) then Again(x) else x, actions[n].taskId) in v;
  }

  lemma NewOneStays(tasks: seq<Task>, u: seq<Task>, v: seq<Task>, id: nat, y: Task)
    requires Redone(u, v, id) && HasId(tasks, id) && !HasId(tasks, y.id) && y in v
    ensures y in u
  {
    hide HasId;
  }

  lemma ArrivedStays(tasks: seq<Task>, u: seq<Task>, v: seq<Task>, id: nat, a: Action)
    requires Redone(u, v, id) && HasId(tasks, id) && Arrived(tasks, u, a)
    ensures Arrived(tasks, v, a)
  {
    hide HasId, MadeBy;
    var y :| NewOne(tasks, u, a, y);
    assert Turned(y, id) == y;
    assert NewOne(tasks, v, a, y);
  }

  lemma CreateStep(tasks: seq<Task>, u: Tables, actions: seq<Action>, n: nat, now: int)
    requires n < |actions| && Upto(tasks, u.tasks, actions, n) && actions[n].Create?
    requires !Apply(u, actions[n], now).1.Dropped?
    ensures Upto(tasks, Apply(u, actions[n], now).0.tasks, actions, n + 1)
  {
    var y := ApplyCreate(u, actions[n], now);
    var v, next := Apply(u, actions[n], now).0, n + 1;
    hide Apply, UniqueIds, Named, Ordered, MadeBy;
    forall x | x in tasks ensures x.id != y.id && OldOne(v.tasks, actions, next, x) {
      NamedNext(actions, n, x.id);
      assert OldOne(u.tasks, actions, n, x);
    }
    assert !HasId(tasks, y.id);
    hide HasId;
    forall z | z in v.tasks && !HasId(tasks, z.id) ensures Ordered(actions, next, z) {
      OrderedNext(actions, n, z);
    }
    forall j | 0 <= j < next && actions[j].Create? ensures Arrived(tasks, v.tasks, actions[j]) {
      if j < n {
        var z :| NewOne(tasks, u.tasks, actions[j], z);
        assert NewOne(tasks, v.tasks, actions[j], z);
      } else {
        assert NewOne(tasks, v.tasks, actions[j], y);
      }
    }
  }

  lemma ApplyCreate(u: Tables, a: Action, now: int) returns (y: Task)
    requires UniqueIds(u.tasks) && a.Create? && !Apply(u, a, now).1.Dropped?
    ensures UniqueIds(Apply(u, a, now).0.tasks) && MadeBy(a, y) && forall x :: x in u.tasks ==> x.id != y.id
    ensures forall x :: x in Apply(u, a, now).0.tasks <==> x in u.tasks || x == y
  {
    ApplyMeans(u, a, now);
    y := Apply(u, a, now).1.task;
  }

  lemma NamedNext(actions: seq<Action>, n: nat, id: nat)
    requires n < |actions|
    ensures Named(actions, n + 1, id) <==> Named(actions, n, id) || (actions[n].Requeue? && actions[n].taskId == id)
  {
  }

  lemma OrderedNext(actions: seq<Action>, n: nat, y: Task)
    requires n < |actions|
    ensures Ordered(actions, n + 1, y) <==> Ordered(actions, n, y) || MadeBy(actions[n], y)
  {
  }

  // --- the whole application ---

  lemma {:induction false} ApplicationUpto(f: Facts, t: Tables, others: (nat, Tables) -> Tables, now: int, n: nat)
    requires Valid(t.tasks) && DistinctRows(t.manifests) && Quiet(others) && n <= |FullPlan(f, t).1|
    ensures Upto(t.tasks, ApplyAll(t, FullPlan(f, t).1, others, now, n).0.tasks, FullPlan(f, t).1, n)
  {
    var actions := FullPlan(f, t).1;
    hide Decide, Apply, Upto, Valid, Plan, Handled, FullPlan;
    if n == 0 {
      UptoStart(t.tasks, actions);
    } else {
      ApplicationUpto(f, t, others, now, n - 1);
      var u := ApplyAll(t, actions, others, now, n - 1).0;
      NotDropped(f, t, others, now, n - 1);
      if actions[n - 1].Requeue? {
        RequeueStep(t.tasks, u, actions, n - 1, now);
      } else {
        CreateStep(t.tasks, u, actions, n - 1, now);
      }
    }
  }

  lemma UptoStart(tasks: seq<Task>, actions: seq<Action>)
    requires Valid(tasks)
    ensures Upto(tasks, tasks, actions, 0)
  {
    hide UniqueIds;
  }

  /** A planned action finds its row and its task as they were when it was planned. */
  lemma NotDropped(f: Facts, t: Tables, others: (nat, Tables) -> Tables, now: int, n: nat)
    requires Valid(t.tasks) && DistinctRows(t.manifests) && Quiet(others) && n < |FullPlan(f, t).1|
    ensures var actions := FullPlan(f, t).1;
      var u := ApplyAll(t, actions, others, now, n).0;
      && UniqueIds(u.tasks) && !Apply(u, actions[n], now).1.Dropped?
      && (actions[n].Requeue? ==> HasId(t.tasks, actions[n].taskId))
  {
    var actions := FullPlan(f, t).1;
    var u := ApplyAll(t, actions, others, now, n).0;
    ApplicationProgresses(f, t, others, now, n);
    PlanIsExact(f, t, |t.manifests|);
    PlannedActionsAreApart(f, t, |t.manifests|);
    hide Decide, Apply, Plan, ApplyAll, SameView, Handled, Apart, ChosenBelow, UniqueIds;
    var k := FindItsRow(f, t, actions, n);
    var m := t.manifests[k];
    assert RowProgress(f, t, u, actions, n, k);
    DecideSees(f, t.tasks, u.tasks, m);
    OwnActionSettles(f, u, m, now);
    if actions[n].Requeue? {
      RequeueNames(f, t.tasks, m);
    }
  }

  /** The tables after planning and applying undisturbed. */
  function Afterwards(f: Facts, t: Tables, others: (nat, Tables) -> Tables, now: int): seq<Task> {
    ApplyAll(t, FullPlan(f, t).1, others, now, |FullPlan(f, t).1|).0.tasks
  }

  ghost predicate RestartedByRow(f: Facts, t: Tables, x: Task) {
    exists k :: 0 <= k < |t.manifests| && Restarts(f, t.tasks, t.manifests[k], x)
  }

  lemma NamedIff(f: Facts, t: Tables, x: Task)
    requires Valid(t.tasks) && x in t.tasks
    ensures Named(FullPlan(f, t).1, |FullPlan(f, t).1|, x.id) <==> RestartedByRow(f, t, x)
  {
    var actions := FullPlan(f, t).1;
    PlanIsExact(f, t, |t.manifests|);
    hide Decide, Plan, Restarts, ChosenBelow;
    if Named(actions, |actions|, x.id) {
      var j :| 0 <= j < |actions| && actions[j].Requeue? && actions[j].taskId == x.id;
      var k := RowOf(f, t, actions[j]);
      RestartsIff(f, t.tasks, t.manifests[k], x);
    }
    if RestartedByRow(f, t, x) {
      var k :| 0 <= k < |t.manifests| && Restarts(f, t.tasks, t.manifests[k], x);
      RestartsIff(f, t.tasks, t.manifests[k], x);
      var a := Decide(f, t.tasks, t.manifests[k]).action;
      var j :| 0 <= j < |actions| && actions[j] == a;
    }
  }

  lemma RowOf(f: Facts, t: Tables, a: Action) returns (k: nat)
    requires ChosenBelow(f, t, a, |t.manifests|)
    ensures k < |t.manifests| && Decide(f, t.tasks, t.manifests[k]) == Act(a)
  {
    k :| 0 <= k < |t.manifests| && Chosen(f, t, a, k);
  }

  /** Every task is still there: queued again if a row asks for that, and as it was otherwise. */
  lemma TaskFate(f: Facts, t: Tables, others: (nat, Tables) -> Tables, now: int, x: Task)
    requires Valid(t.tasks) && DistinctRows(t.manifests) && Quiet(others) && x in t.tasks
    ensures UniqueIds(Afterwards(f, t, others, now))
    ensures (if RestartedByRow(f, t, x) then x.(status := Queued, recoverable := true, attempts := 0, error := None)
             else x) in Afterwards(f, t, others, now)
  {
    var n := |FullPlan(f, t).1|;
    ApplicationUpto(f, t, others, now, n);
    NamedIff(f, t, x);
    hide ApplyAll, FullPlan, Valid, UniqueIds, Ordered, Arrived, RestartedByRow;
    assert OldOne(Afterwards(f, t, others, now), FullPlan(f, t).1, n, x);
  }

  /** A task of a row is queued again by that row or by none. */
  lemma RestartedByOwnRow(f: Facts, t: Tables, k: nat, x: Task)
    requires Valid(t.tasks) && DistinctRows(t.manifests) && k < |t.manifests| && x.key == t.manifests[k].key
    ensures RestartedByRow(f, t, x) <==> Restarts(f, t.tasks, t.manifests[k], x)
  {
    hide IsNewest, NoneDecides, Delivered, PhaseOf, UniqueIds;
    forall j | 0 <= j < |t.manifests| && Restarts(f, t.tasks, t.manifests[j], x) ensures j == k {
      OwnKeyTask(f, t.tasks, t.manifests[j], x);
    }
  }

  lemma OwnKeyTask(f: Facts, tasks: seq<Task>, m: Manifest, x: Task)
    requires Valid(tasks) && Restarts(f, tasks, m, x)
    ensures x.key == m.key
  {
    hide NoneDecides, Delivered, PhaseOf, UniqueIds;
  }

  /**
  A failed newest task of a row that is wanted and not classified is queued again if and only if it was
  recoverable or failed with one of three errors of former versions; otherwise it stays as it was and the
  row is among those left to a person.
  */
  lemma FailedTaskIsRetriedIff(f: Facts, t: Tables, others: (nat, Tables) -> Tables, now: int, k: nat, x: Task)
    requires Valid(t.tasks) && DistinctRows(t.manifests) && Quiet(others) && k < |t.manifests|
    requires var m := t.manifests[k];
      Wanted(f, m) && IsNewest(t.tasks, m.key, PhaseOf(f, m), x) && !(x.stage == Classify && m.key in f.classes)
    requires x.status == Failed
    ensures var u := Afterwards(f, t, others, now);
      if MayTryAgain(x) then x.(status := Queued, recoverable := true, attempts := 0, error := None) in u
      else x in u && NeedsPerson(f, t.tasks, t.manifests[k])
  {
    TaskFate(f, t, others, now, x);
    RestartedByOwnRow(f, t, k, x);
    hide Valid, DistinctRows, Quiet, Afterwards, RestartedByRow, Wanted;
    var m := t.manifests[k];
    assert IsNewest(t.tasks, m.key, PhaseOf(f, m), x) && !EndedQuietly(f, m, x);
    assert !NoneDecides(f, t.tasks, m);
    assert !MayTryAgain(x) ==> PersonDecides(f, m, x);
  }

  /**
  New tasks are those of the rows that need one: to capture the item while its archive is not ready, and to
  take stock of its attachments when it is.
  */
  lemma NewTasksIff(f: Facts, t: Tables, others: (nat, Tables) -> Tables, now: int, k: nat)
    requires Valid(t.tasks) && DistinctRows(t.manifests) && Quiet(others) && k < |t.manifests|
    ensures var (m, u) := (t.manifests[k], Afterwards(f, t, others, now));
      && (NeedsTask(f, t.tasks, m) <==> exists y :: IsNewTask(t.tasks, u, m, y))
      && forall y :: IsNewTask(t.tasks, u, m, y) ==>
        && y.stage == (if Archived(f, m) then AttachmentInventory else CaptureAndArchive)
        && y.idem == (if Archived(f, m) then MarkdownKey(m.key, SourcePath(f, m)) else DownloadKey(m.key))
        && y.status == Queued && y.recoverable && y.attempts == 0 && y.error.None?
  {
    var n, actions, m, u := |FullPlan(f, t).1|, FullPlan(f, t).1, t.manifests[k], Afterwards(f, t, others, now);
    ApplicationUpto(f, t, others, now, n);
    PlanIsExact(f, t, |t.manifests|);
    NeedsTaskIff(f, t.tasks, m);
    hide ApplyAll, Plan, Valid, UniqueIds, OldOne, NeedsTask, Decide, ChosenBelow, PhaseOf, ConvergenceKey,
      ArchiveReady;
    forall y | IsNewTask(t.tasks, u, m, y)
      ensures NeedsTask(f, t.tasks, m) && MadeBy(Decide(f, t.tasks, m).action, y)
    {
      var j :| 0 <= j < n && MadeBy(actions[j], y);
      var i := RowOf(f, t, actions[j]);
      DecidedActionIsOwn(f, t.tasks, t.manifests[i]);
      assert i == k;
    }
    if NeedsTask(f, t.tasks, m) {
      var a := Decide(f, t.tasks, m).action;
      DecidedActionIsOwn(f, t.tasks, m);
      var j :| 0 <= j < n && actions[j] == a;
      assert Arrived(t.tasks, u, actions[j]);
      var y :| NewOne(t.tasks, u, a, y);
      assert IsNewTask(t.tasks, u, m, y);
    }
  }

  ghost predicate IsNewTask(tasks: seq<Task>, after: seq<Task>, m: Manifest, y: Task) {
    y in after && y.key == m.key && !HasId(tasks, y.id)
  }
}
