/**
The planner at work (src/oa_knowledge/done_convergence.py): it reads a snapshot, closes it, and
then applies its actions fifty to a write transaction while other workers go on.
*/
module ConvergencePlanner {
  import opened DoneConvergence
  import opened ConvergenceLaws

  class Planner {
    var manifests: seq<Manifest>
    var tasks: seq<Task>

    constructor (manifests: seq<Manifest>, tasks: seq<Task>)
      ensures Db() == Tables(manifests, tasks)
    {
      this.manifests, this.tasks := manifests, tasks;
    }

    function Db(): (t: Tables)
      reads this
    {
      Tables(manifests, tasks)
    }

    /** What the other workers make of the tables before a batch. */
    method Interfere(others: (nat, Tables) -> Tables, batch: nat)
      modifies this
      ensures Db() == others(batch, old(Db()))
    {
      var t := others(batch, Db());
      manifests, tasks := t.manifests, t.tasks;
    }

    method RequeueTask(id: nat)
      modifies this`tasks
      ensures tasks == RequeueById(old(tasks), id)
    {
      ghost var want := RequeueById(tasks, id);
      for i := 0 to |tasks|
        invariant |tasks| == |old(tasks)|
        invariant forall j :: 0 <= j < i ==> tasks[j] == want[j]
        invariant forall j :: i <= j < |tasks| ==> tasks[j] == old(tasks)[j]
      {
        if tasks[i].id == id {
          tasks := tasks[i := Requeued(tasks[i])];
        }
      }
      assert tasks == want;
    }

    /** One action; the answer is false when it was dropped. */
    method ApplyAction(a: Action, now: int) returns (done: bool)
      modifies this`tasks
      ensures Db() == Apply(old(Db()), a, now).0
      ensures done == !Apply(old(Db()), a, now).1.Dropped?
    {
      var row := ByKey(manifests, a.key);
      if row.None? || Skipped(row.value) {
        return false;
      }
      done := true;
      match a
      case Requeue(_, _, id) =>
        var task := ById(tasks, id);
        if task.None? || Active(task.value) {
          return false;
        }
        RequeueTask(id);
      case Create(_, key, stage, idem) =>
        var existing := ByIdem(tasks, idem);
        if existing.Some? {
          return false;
        }
        tasks := tasks + [NewTask(tasks, key, stage, idem, now)];
    }

    /** Batch after batch; a dropped action is taken off the planned counts. */
    method ApplyActions(actions: seq<Action>, planned: Counts, others: (nat, Tables) -> Tables, now: int)
        returns (counts: Counts)
      modifies this
      ensures Db() == ApplyAll(old(Db()), actions, others, now, |actions|).0
      ensures counts == Report(planned, actions, ApplyAll(old(Db()), actions, others, now, |actions|).1, |actions|)
    {
      hide Apply;
      ghost var start := Db();
      counts := planned;
      var batch: nat, n: nat := 0, 0;
      while n < |actions|
        invariant n <= |actions| && (n < |actions| ==> n == BATCH * batch)
        invariant Db() == ApplyAll(start, actions, others, now, n).0
        invariant counts == Report(planned, actions, ApplyAll(start, actions, others, now, n).1, n)
      {
        var end := if |actions| - n < BATCH then |actions| else n + BATCH;
        Interfere(others, batch);
        counts, n := ApplyBatch(start, actions, planned, counts, others, now, batch, n, end);
        batch := batch + 1;
      }
    }

    method ApplyBatch(ghost start: Tables, actions: seq<Action>, ghost planned: Counts, sofar: Counts,
        ghost others: (nat, Tables) -> Tables, now: int,
                      ghost batch: nat, from: nat, end: nat) returns (counts: Counts, n: nat)
      requires from == BATCH * batch && from < end <= |actions| && end - from <= BATCH
      requires Db() == others(batch, ApplyAll(start, actions, others, now, from).0)
      requires sofar == Report(planned, actions, ApplyAll(start, actions, others, now, from).1, from)
      modifies this
      ensures n == end
      ensures Db() == ApplyAll(start, actions, others, now, end).0
      ensures counts == Report(planned, actions, ApplyAll(start, actions, others, now, end).1, end)
    {
      hide Apply, ApplyAll, Report, Bump;
      counts, n := sofar, from;
      while n < end
        invariant from <= n <= end
        invariant Db() == if n == from then others(batch, ApplyAll(start, actions, others, now, n).0)
          else ApplyAll(start, actions, others, now, n).0
        invariant counts == Report(planned, actions, ApplyAll(start, actions, others, now, n).1, n)
      {
        OneMoreApplied(start, actions, planned, others, now, batch, n);
        var done := ApplyAction(actions[n], now);
        if !done {
          counts := Bump(counts, actions[n], -1);
        }
        n := n + 1;
      }
    }

    /** A dry run only counts; a real one also applies, and reports what was really done. */
    method Plan(f: Facts, apply: bool, others: (nat, Tables) -> Tables, now: int) returns (report: Counts)
      modifies this
      ensures !apply ==> Db() == old(Db()) && report == FullPlan(f, old(Db())).0
      ensures apply ==>
        var (planned, actions) := FullPlan(f, old(Db()));
        var (after, effects) := ApplyAll(old(Db()), actions, others, now, |actions|);
        Db() == after && report == Report(planned, actions, effects, |actions|)
    {
      hide Decide, ApplyAll;
      report := ZERO;
      var actions: seq<Action> := [];
      for n := 0 to |manifests|
        invariant Db() == old(Db())
        invariant report == ConvergenceLaws.Plan(f, Db(), n).0
        invariant apply ==> actions == ConvergenceLaws.Plan(f, Db(), n).1
      {
        var d := Decide(f, tasks, manifests[n]);
        report := Note(report, d);
        if apply && d.Act? {
          actions := actions + [d.action];
        }
      }
      if apply {
        report := ApplyActions(actions, report, others, now);
      }
    }
  }

  /** A report over the first `n` effects does not see later ones. */
  lemma {:induction false} ReportSees(planned: Counts, actions: seq<Action>, a: seq<Effect>, b: seq<Effect>, n: nat)
    requires n <= |actions| && n <= |a| && n <= |b| && a[..n] == b[..n]
    ensures Report(planned, actions, a, n) == Report(planned, actions, b, n)
  {
    if n > 0 {
      assert a[n - 1] == a[..n][n - 1] && b[n - 1] == b[..n][n - 1];
      assert a[..n - 1] == a[..n][..n - 1] && b[..n - 1] == b[..n][..n - 1];
      ReportSees(planned, actions, a, b, n - 1);
    }
  }

  /** One more action, inside batch number `batch`: others act only before its first. */
  lemma OneMoreApplied(t: Tables, actions: seq<Action>, planned: Counts, others: (nat, Tables) -> Tables, now: int,
      batch: nat, n: nat)
    requires n < |actions| && BATCH * batch <= n < BATCH * batch + BATCH
    ensures var (u, effects) := ApplyAll(t, actions, others, now, n);
      var v := if n == BATCH * batch then others(batch, u) else u;
      var (w, e) := Apply(v, actions[n], now);
      && ApplyAll(t, actions, others, now, n + 1) == (w, effects + [e])
      && Report(planned, actions, effects + [e], n + 1)
         == if e.Dropped? then Bump(Report(planned, actions, effects, n), actions[n], -1)
           else Report(planned, actions, effects, n)
  {
    hide Apply, Report;
    var (u, effects) := ApplyAll(t, actions, others, now, n);
    var v := if n == BATCH * batch then others(batch, u) else u;
    assert n % BATCH == 0 <==> n == BATCH * batch;
    OneMoreReported(planned, actions, effects, Apply(v, actions[n], now).1, n);
  }

  lemma OneMoreReported(planned: Counts, actions: seq<Action>, effects: seq<Effect>, e: Effect, n: nat)
    requires n < |actions| && n == |effects|
    ensures var c := Report(planned, actions, effects, n);
      Report(planned, actions, effects + [e], n + 1) == if e.Dropped? then Bump(c, actions[n], -1) else c
  {
    assert (effects + [e])[..n] == effects[..n];
    ReportSees(planned, actions, effects + [e], effects, n);
  }
}
