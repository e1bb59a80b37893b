/**
Repeated batches finish an audit (src/oa_knowledge/online_audit.py, `execute_audit`): with a fixed
manifest, a job row and nobody pausing or requeueing, every run reaches `completed`, and looks at
each item at most twice however often the inspection fails.
*/
module AuditTermination {
  import opened Wrappers
  import Evidence = AuditEvidence
  import opened AuditLedger

  /** What a batch needs besides the ledger; `budget` is the number of items it may process. */
  datatype Turn = Turn(repaired: nat -> Option<Status>, budget: nat)

  function Undone(it: Item): nat {
    if Open(it.status) || LacksReason(it) then 1 else 0
  }

  /** Items that still have to be inspected in this round. */
  function WorkLeft(items: seq<Item>): nat {
    if items == [] then 0 else WorkLeft(items[..|items| - 1]) + Undone(items[|items| - 1])
  }

  lemma {:induction false} WorkFrame(a: seq<Item>, b: seq<Item>)
    requires |a| == |b| && forall i :: 0 <= i < |a| ==> Undone(a[i]) == Undone(b[i])
    ensures WorkLeft(a) == WorkLeft(b)
  {
    if a != [] {
      WorkFrame(a[..|a| - 1], b[..|b| - 1]);
    }
  }

  lemma {:induction false} WorkAppend(a: seq<Item>, b: seq<Item>)
    requires forall i :: 0 <= i < |b| ==> Undone(b[i]) == 1
    ensures WorkLeft(a + b) == WorkLeft(a) + |b|
  {
    if b == [] {
      assert a + b == a;
    } else {
      assert (a + b)[..|a + b| - 1] == a + b[..|b| - 1];
      WorkAppend(a, b[..|b| - 1]);
    }
  }

  lemma {:induction false} WorkUpdate(a: seq<Item>, i: nat, it: Item)
    requires i < |a|
    ensures WorkLeft(a[i := it]) == WorkLeft(a) - Undone(a[i]) + Undone(it)
  {
    var b := a[i := it];
    if i == |a| - 1 {
      assert b[..|b| - 1] == a[..|a| - 1];
    } else {
      assert b[..|b| - 1] == a[..|a| - 1][i := it];
      WorkUpdate(a[..|a| - 1], i, it);
    }
  }

  /** The measure's second part: work left in the run, and manifest rows that are not in it yet. */
  function Left(l: Ledger, manifest: seq<string>): nat {
    WorkLeft(l.items) + |Missing(l.items, manifest)|
  }

  lemma {:induction false} NothingMissing(items: seq<Item>, manifest: seq<string>)
    requires forall k :: k in manifest ==> HasKey(items, k)
    ensures Missing(items, manifest) == []
  {
    if manifest != [] {
      assert manifest[0] in manifest;
      NothingMissing(items, manifest[1..]);
    }
  }

  lemma EnrollKeepsLeft(l: Ledger, manifest: seq<string>)
    requires Balanced(l) && Distinct(manifest)
    ensures var e := Enroll(l, manifest);
      WorkLeft(e.items) == Left(l, manifest) && Missing(e.items, manifest) == []
  {
    EnrollKeepsBalanced(l, manifest);
    NothingMissing(Enroll(l, manifest).items, manifest);
    WorkAppend(l.items, Fresh(Missing(l.items, manifest)));
  }

  lemma BeginKeepsLeft(l: Ledger, manifest: seq<string>, repaired: nat -> Option<Status>)
    requires Balanced(l) && Distinct(manifest)
    ensures var b := Begin(l, manifest, repaired);
      WorkLeft(b.items) == Left(l, manifest) && Missing(b.items, manifest) == []
  {
    EnrollKeepsLeft(l, manifest);
    BeginKeepsBalanced(l, manifest, repaired);
    NothingMissing(Begin(l, manifest, repaired).items, manifest);
    var e := Enroll(l, manifest);
    var r := RecoverAll(e.items, repaired);
    forall i | 0 <= i < |r| ensures Undone(e.items[i]) == Undone(r[i]) {
      assert r[i] == Recover(e.items[i], repaired(i));
    }
    WorkFrame(e.items, r);
    hide Enroll, Begin;
  }

  lemma {:induction false} WorkPositive(items: seq<Item>, i: nat)
    requires i < |items| && Undone(items[i]) == 1
    ensures WorkLeft(items) >= 1
  {
    if i < |items| - 1 {
      WorkPositive(items[..|items| - 1], i);
    }
  }

  lemma InspectShrinks(l: Ledger, i: nat, inspect: (string, nat) -> Outcome)
    requires i < |l.items| && l.items[i].status.Pending? && GoodOracle(inspect)
    ensures WorkLeft(InspectItem(l, i, inspect).items) == WorkLeft(l.items) - 1
    ensures WorkLeft(l.items) >= 1
    ensures var items := InspectItem(l, i, inspect).items;
      |items| == |l.items| && forall k :: 0 <= k < |items| ==>
        items[k].key == l.items[k].key && (k != i ==> items[k] == l.items[k])
  {
    WorkPositive(l.items, i);
    var o := inspect(l.items[i].key, l.items[i].looks);
    var started := StartItem(l, i).items;
    assert l.items[i := Judged(started[i], o)] == started[i := Judged(started[i], o)];
    WorkUpdate(l.items, i, Judged(started[i], o));
  }

  /** A batch with a budget either clears all work or shrinks it. */
  lemma {:induction false} WorkShrinks(l: Ledger, inspect: (string, nat) -> Outcome, budget: nat)
    requires GoodOracle(inspect)
    ensures var w := Work(l, inspect, budget);
      && WorkLeft(w.items) <= WorkLeft(l.items)
      && (budget > 0 && FirstPending(l.items, 0).Some? ==> WorkLeft(w.items) < WorkLeft(l.items))
      && |w.items| == |l.items| && forall k :: 0 <= k < |l.items| ==> w.items[k].key == l.items[k].key
    decreases budget
  {
    hide InspectItem, Judged;
    if budget > 0 {
      match FirstPending(l.items, 0)
      case None =>
      case Some(i) =>
        InspectShrinks(l, i, inspect);
        WorkShrinks(InspectItem(l, i, inspect), inspect, budget - 1);
        hide InspectItem, Judged;
    }
  }

  // --- at most two looks ---

  /** In the first round an item waiting has not been looked at, in the second at most once. */
  predicate FewLooks(it: Item, round: nat) {
    && (if round == 0 then (if Open(it.status) then it.looks == 0 else it.looks <= 1)
        else (if Open(it.status) then it.looks <= 1 else it.looks <= 2))
    && !LacksReason(it)
  }

  ghost predicate FewLooksAll(l: Ledger) {
    forall i :: 0 <= i < |l.items| ==> FewLooks(l.items[i], Round(l))
  }

  lemma InspectKeepsFewLooks(l: Ledger, i: nat, inspect: (string, nat) -> Outcome)
    requires GoodOracle(inspect) && FewLooksAll(l) && i < |l.items| && l.items[i].status.Pending?
    ensures FewLooksAll(InspectItem(l, i, inspect)) && InspectItem(l, i, inspect).job == l.job
  {
    InspectShrinks(l, i, inspect);
    hide Count;
  }

  lemma {:induction false} WorkKeepsFewLooks(l: Ledger, inspect: (string, nat) -> Outcome, budget: nat)
    requires GoodOracle(inspect) && FewLooksAll(l)
    ensures FewLooksAll(Work(l, inspect, budget)) && Work(l, inspect, budget).job == l.job
    decreases budget
  {
    hide InspectItem;
    if budget > 0 {
      match FirstPending(l.items, 0)
      case None =>
      case Some(i) =>
        InspectShrinks(l, i, inspect);
        var m := InspectItem(l, i, inspect);
        InspectKeepsFewLooks(l, i, inspect);
        WorkKeepsFewLooks(m, inspect, budget - 1);
    }
  }

  lemma BeginKeepsFewLooks(l: Ledger, manifest: seq<string>, repaired: nat -> Option<Status>)
    requires FewLooksAll(l)
    ensures FewLooksAll(Begin(l, manifest, repaired))
  {
    assert FewLooksAll(Enroll(l, manifest));
    hide Enroll;
  }

  lemma ExecuteKeepsFewLooks(l: Ledger, manifest: seq<string>, repaired: nat -> Option<Status>,
      inspect: (string, nat) -> Outcome, budget: nat)
    requires FewLooksAll(l) && GoodOracle(inspect) && l.job.Some?
    ensures FewLooksAll(Execute(l, manifest, repaired, inspect, budget))
  {
    BeginKeepsFewLooks(l, manifest, repaired);
    var b := Begin(l, manifest, repaired);
    assert b.job == l.job;
    hide Begin;
    WorkKeepsFewLooks(b, inspect, budget);
    var w := Work(b, inspect, budget);
    hide Work;
    assert FewLooksAll(Enroll(w, manifest));
    hide Enroll;
    CloseKeepsFewLooks(Enroll(w, manifest));
    hide Close;
  }

  lemma CloseKeepsFewLooks(l: Ledger)
    requires FewLooksAll(l) && l.job.Some?
    ensures FewLooksAll(Close(l))
  {
    hide Count;
  }

  // --- progress ---

  /** An undisturbed batch completes the run, spends the retry round, or leaves less to do in the same round. */
  lemma BatchProgresses(l: Ledger, manifest: seq<string>, turn: Turn, inspect: (string, nat) -> Outcome)
    requires Balanced(l) && Distinct(manifest) && GoodOracle(inspect)
    requires l.job.Some? && !l.run.pauseAsked && turn.budget > 0
    ensures var x := Execute(l, manifest, turn.repaired, inspect, turn.budget);
      && Balanced(x) && x.job.Some? && !x.run.pauseAsked
      && (x.run.status == Completed
          || (Round(l) < 1 && Round(x) == 1)
          || (Round(x) == Round(l) && Left(x, manifest) < Left(l, manifest)))
  {
    ExecuteKeepsBalanced(l, manifest, turn.repaired, inspect, turn.budget);
    BeginKeepsBalanced(l, manifest, turn.repaired);
    BeginKeepsLeft(l, manifest, turn.repaired);
    var b := Begin(l, manifest, turn.repaired);
    hide Begin, Balanced, Left;
    WorkKeepsBalanced(b, inspect, turn.budget);
    WorkShrinks(b, inspect, turn.budget);
    var w := Work(b, inspect, turn.budget);
    SameKeysNothingMissing(b.items, w.items, manifest);
    hide Count, RetryFailures, Refresh;
    assert Enroll(w, manifest) == w;
    LeftWhenEnrolled(w, manifest);
    if FirstPending(w.items, 0).Some? {
      PendingWasThere(b, w, inspect, turn.budget);
    }
  }

  lemma LeftWhenEnrolled(w: Ledger, manifest: seq<string>)
    requires Missing(w.items, manifest) == []
    ensures Left(w.(run := w.run.(status := Queued)), manifest) == WorkLeft(w.items)
  {
  }

  lemma {:induction false} SameKeysNothingMissing(a: seq<Item>, b: seq<Item>, manifest: seq<string>)
    requires |a| == |b| && forall k :: 0 <= k < |a| ==> a[k].key == b[k].key
    requires Missing(a, manifest) == []
    ensures Missing(b, manifest) == []
  {
    if manifest != [] {
      SameKeysNothingMissing(a, b, manifest[1..]);
      assert HasKey(a, manifest[0]);
      var i :| 0 <= i < |a| && a[i].key == manifest[0];
      assert b[i].key == manifest[0];
    }
  }

  lemma PendingWasThere(b: Ledger, w: Ledger, inspect: (string, nat) -> Outcome, budget: nat)
    requires w == Work(b, inspect, budget) && budget > 0 && FirstPending(w.items, 0).Some?
    ensures FirstPending(b.items, 0).Some?
  {
  }

  /**
  The whole audit: batch after batch until the run is completed. That this function is defined is
  the termination argument; the measure is the retry round left, then the work left.
  */
  function Audit(l: Ledger, manifest: seq<string>, turns: nat -> Turn, inspect: (string, nat) -> Outcome,
      k: nat): (r: Ledger)
    requires Balanced(l) && Distinct(manifest) && GoodOracle(inspect) && (forall i :: turns(i).budget > 0)
    requires l.job.Some? && !l.run.pauseAsked
    ensures Balanced(r) && r.run.status == Completed
    ensures FewLooksAll(l) ==> FewLooksAll(r)
    decreases if Round(l) < 1 then 1 else 0, Left(l, manifest)
  {
    var x := Execute(l, manifest, turns(k).repaired, inspect, turns(k).budget);
    BatchProgresses(l, manifest, turns(k), inspect);
    assert FewLooksAll(l) ==> FewLooksAll(x) by {
      if FewLooksAll(l) {
        ExecuteKeepsFewLooks(l, manifest, turns(k).repaired, inspect, turns(k).budget);
      }
    }
    if x.run.status == Completed then x else Audit(x, manifest, turns, inspect, k + 1)
  }

  /** What starting an audit writes: every manifest row as a pending item. */
  function NewAudit(manifest: seq<string>): Ledger {
    Ledger(Run(Queued, false, |manifest|, 0, 0, 0, 0), Fresh(manifest), Some(Job(0)))
  }

  lemma {:induction false} FreshCounts(manifest: seq<string>, p: Status -> bool)
    requires !p(Evidence.Pending)
    ensures Count(Fresh(manifest), p) == 0
  {
    CountAppend([], Fresh(manifest), p);
    assert [] + Fresh(manifest) == Fresh(manifest);
  }

  lemma NewAuditIsBalanced(manifest: seq<string>)
    requires Distinct(manifest)
    ensures Balanced(NewAudit(manifest)) && FewLooksAll(NewAudit(manifest))
  {
    hide Count;
    FreshCounts(manifest, IsFinal);
    FreshCounts(manifest, IsMatched);
    FreshCounts(manifest, IsMismatch);
    FreshCounts(manifest, IsAccessFailed);
  }

  /** A new run over the manifest is completed after finitely many batches, with at most two looks at each item. */
  lemma NewAuditCompletes(manifest: seq<string>, turns: nat -> Turn, inspect: (string, nat) -> Outcome)
    requires Distinct(manifest) && GoodOracle(inspect) && (forall i :: turns(i).budget > 0)
    ensures Balanced(NewAudit(manifest))
    ensures var r := Audit(NewAudit(manifest), manifest, turns, inspect, 0);
         && r.run.status == Completed && r.run.completed == r.run.total
         && forall i :: 0 <= i < |r.items| ==> !Open(r.items[i].status) && r.items[i].looks <= 2
  {
    hide Audit, Count, NewAudit;
    NewAuditIsBalanced(manifest);
    assert NewAudit(manifest).job.Some? && !NewAudit(manifest).run.pauseAsked by { NewAuditHasJob(manifest); }
    BalancedMeans(Audit(NewAudit(manifest), manifest, turns, inspect, 0));
  }

  lemma NewAuditHasJob(manifest: seq<string>)
    ensures NewAudit(manifest).job.Some? && !NewAudit(manifest).run.pauseAsked
  {
  }
}
