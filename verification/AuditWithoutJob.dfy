/**
An audit whose job row is gone (src/oa_knowledge/online_audit.py, `execute_audit`): the retry round
is stored in that row, so failures are retried without end. When such a run still completes.
*/
module AuditWithoutJob {
  import opened Wrappers
  import Evidence = AuditEvidence
  import opened AuditLedger
  import opened AuditTermination

  /** The item has to be inspected, in this batch or a later one. */
  predicate Needs(it: Item) {
    Open(it.status) || it.status.AccessFailed? || LacksReason(it)
  }

  /** From its present number of looks on, every inspection of the item raises. */
  ghost predicate Lost(it: Item, inspect: (string, nat) -> Outcome) {
    Needs(it) && forall n :: n >= it.looks ==> inspect(it.key, n).Raised?
  }

  ghost predicate LostAt(l: Ledger, i: nat, inspect: (string, nat) -> Outcome) {
    i < |l.items| && Lost(l.items[i], inspect)
  }

  // --- one item that cannot be reached is enough ---

  lemma BeginKeepsLost(l: Ledger, manifest: seq<string>, repaired: nat -> Option<Status>,
      inspect: (string, nat) -> Outcome, i: nat)
    requires LostAt(l, i, inspect)
    ensures var b := Begin(l, manifest, repaired);
      LostAt(b, i, inspect) && !b.items[i].status.Running? && !LacksReason(b.items[i]) && b.job == l.job
  {
    var e := Enroll(l, manifest);
    assert e.items[i] == l.items[i] && e.job == l.job;
    hide Enroll, Count;
    assert Begin(l, manifest, repaired).items[i] == Recover(e.items[i], repaired(i));
  }

  lemma {:induction false} WorkKeepsLost(l: Ledger, inspect: (string, nat) -> Outcome, budget: nat, i: nat)
    requires LostAt(l, i, inspect) && !l.items[i].status.Running? && !LacksReason(l.items[i])
    ensures var w := Work(l, inspect, budget);
      LostAt(w, i, inspect) && !w.items[i].status.Running? && !LacksReason(w.items[i]) && w.job == l.job
    decreases budget
  {
    hide Count;
    if budget > 0 && FirstPending(l.items, 0).Some? {
      WorkKeepsLost(InspectItem(l, FirstPending(l.items, 0).value, inspect), inspect, budget - 1, i);
    }
  }

  lemma {:induction false} CountHas(items: seq<Item>, p: Status -> bool, i: nat)
    requires i < |items| && p(items[i].status)
    ensures Count(items, p) > 0
  {
    if i < |items| - 1 {
      CountHas(items[..|items| - 1], p, i);
    }
  }

  /**
  While one item, whatever the others are, cannot be reached, no batch completes a run without a
  job row; and the item stays as it is.
  */
  lemma OneLostItemIsEnough(l: Ledger, manifest: seq<string>, turn: Turn, inspect: (string, nat) -> Outcome, i: nat)
    requires LostAt(l, i, inspect) && l.job.None?
    ensures var x := Execute(l, manifest, turn.repaired, inspect, turn.budget);
      x.run.status != Completed && LostAt(x, i, inspect) && x.job.None?
  {
    var b := Begin(l, manifest, turn.repaired);
    BeginKeepsLost(l, manifest, turn.repaired, inspect, i);
    hide Begin;
    WorkKeepsLost(b, inspect, turn.budget, i);
    var w := Work(b, inspect, turn.budget);
    hide Work;
    var e := Enroll(w, manifest);
    assert e.items[i] == w.items[i] && e.job == w.job;
    hide Enroll;
    if FirstPending(e.items, 0).None? {
      CountHas(e.items, IsAccessFailed, i);
    }
    hide Count;
  }

  // --- exactly when a batch completes ---

  ghost predicate AllJudged(items: seq<Item>) {
    forall i :: 0 <= i < |items| ==> Verdict(items[i].status)
  }

  /** The items when the batch comes to its closing transaction. */
  function Worked(l: Ledger, manifest: seq<string>, turn: Turn, inspect: (string, nat) -> Outcome): seq<Item> {
    Enroll(Work(Begin(l, manifest, turn.repaired), inspect, turn.budget), manifest).items
  }

  /** A batch completes a run without a job row exactly when its work leaves no item pending or unreachable. */
  lemma BatchCompletesIff(l: Ledger, manifest: seq<string>, turn: Turn, inspect: (string, nat) -> Outcome)
    requires Balanced(l) && Distinct(manifest) && GoodOracle(inspect) && l.job.None?
    ensures Execute(l, manifest, turn.repaired, inspect, turn.budget).run.status == Completed
            <==> !l.run.pauseAsked && AllJudged(Worked(l, manifest, turn, inspect))
  {
    BeginKeepsBalanced(l, manifest, turn.repaired);
    var b := Begin(l, manifest, turn.repaired);
    hide Begin, Balanced;
    WorkKeepsBalanced(b, inspect, turn.budget);
    var w := Work(b, inspect, turn.budget);
    hide Work;
    EnrollKeepsBalanced(w, manifest);
    EnrollAddsNoRunning(w, manifest);
    var e := Enroll(w, manifest);
    assert e.items == Worked(l, manifest, turn, inspect) && e.job.None?;
    hide Enroll, Worked;
    if FirstPending(e.items, 0).None? {
      CloseCompletesIff(e);
    } else {
      assert !Verdict(e.items[FirstPending(e.items, 0).value].status);
    }
  }

  lemma CloseCompletesIff(l: Ledger)
    requires l.job.None? && NoneRunning(l.items) && FirstPending(l.items, 0).None?
    ensures Close(l).run.status == Completed <==> AllJudged(l.items)
  {
    if AllJudged(l.items) {
      NoneFailed(l.items);
    } else {
      var i :| 0 <= i < |l.items| && !Verdict(l.items[i].status);
      CountHas(l.items, IsAccessFailed, i);
    }
    hide Count;
  }

  lemma {:induction false} NoneFailed(items: seq<Item>)
    requires AllJudged(items)
    ensures Count(items, IsAccessFailed) == 0
  {
    CountAppend([], items, IsAccessFailed);
    assert [] + items == items;
  }

  // --- over repeated batches ---

  /** The ledger after `n` batches. */
  function Batches(l: Ledger, manifest: seq<string>, turns: nat -> Turn, inspect: (string, nat) -> Outcome,
      n: nat): Ledger {
    if n == 0 then l
    else Execute(Batches(l, manifest, turns, inspect, n - 1), manifest, turns(n - 1).repaired, inspect,
      turns(n - 1).budget)
  }

  ghost predicate EverCompletes(l: Ledger, manifest: seq<string>, turns: nat -> Turn,
      inspect: (string, nat) -> Outcome) {
    exists n :: n > 0 && Batches(l, manifest, turns, inspect, n).run.status == Completed
  }

  lemma NextBatch(l: Ledger, manifest: seq<string>, turns: nat -> Turn, inspect: (string, nat) -> Outcome, n: nat)
    ensures Batches(l, manifest, turns, inspect, n + 1)
            == Execute(Batches(l, manifest, turns, inspect, n), manifest, turns(n).repaired, inspect, turns(n).budget)
    ensures Batches(l, manifest, turns, inspect, 0) == l
  {
    hide Execute;
  }

  lemma {:induction false} LostForever(l: Ledger, manifest: seq<string>, turns: nat -> Turn,
      inspect: (string, nat) -> Outcome, i: nat, n: nat)
    requires LostAt(l, i, inspect) && l.job.None?
    ensures var x := Batches(l, manifest, turns, inspect, n);
      LostAt(x, i, inspect) && x.job.None? && (n > 0 ==> x.run.status != Completed)
  {
    hide Execute, LostAt, Batches;
    if n == 0 {
      NextBatch(l, manifest, turns, inspect, 0);
    } else {
      NextBatch(l, manifest, turns, inspect, n - 1);
      LostForever(l, manifest, turns, inspect, i, n - 1);
      OneLostItemIsEnough(Batches(l, manifest, turns, inspect, n - 1), manifest, turns(n - 1), inspect, i);
    }
  }

  // --- the way to completion ---

  /** `due(k)` is a look at which the inspection of the item with that key does not raise. */
  ghost predicate InTime(it: Item, due: string -> nat, inspect: (string, nat) -> Outcome) {
    Needs(it) ==> it.looks <= due(it.key) && inspect(it.key, due(it.key)).Observed?
  }

  ghost predicate AllInTime(items: seq<Item>, due: string -> nat, inspect: (string, nat) -> Outcome) {
    forall i :: 0 <= i < |items| ==> InTime(items[i], due, inspect)
  }

  /** At most so many more looks at the item. */
  function Wait(it: Item, due: string -> nat): nat {
    if Needs(it) && it.looks <= due(it.key) then due(it.key) - it.looks + 1 else 0
  }

  function Waits(items: seq<Item>, due: string -> nat): nat {
    if items == [] then 0 else Waits(items[..|items| - 1], due) + Wait(items[|items| - 1], due)
  }

  lemma {:induction false} WaitsFrame(a: seq<Item>, b: seq<Item>, due: string -> nat)
    requires |a| == |b| && forall i :: 0 <= i < |a| ==> Wait(a[i], due) == Wait(b[i], due)
    ensures Waits(a, due) == Waits(b, due)
  {
    hide Wait;
    if a != [] {
      WaitsFrame(a[..|a| - 1], b[..|b| - 1], due);
    }
  }

  lemma {:induction false} WaitsUpdate(a: seq<Item>, i: nat, it: Item, due: string -> nat)
    requires i < |a|
    ensures Waits(a[i := it], due) == Waits(a, due) - Wait(a[i], due) + Wait(it, due)
  {
    hide Wait;
    var b := a[i := it];
    if i == |a| - 1 {
      assert b[..|b| - 1] == a[..|a| - 1];
    } else {
      assert b[..|b| - 1] == a[..|a| - 1][i := it];
      WaitsUpdate(a[..|a| - 1], i, it, due);
    }
  }

  /** An inspection brings its item one look closer, and leaves the others. */
  lemma InspectWaitsLess(l: Ledger, i: nat, inspect: (string, nat) -> Outcome, due: string -> nat)
    requires i < |l.items| && l.items[i].status.Pending? && GoodOracle(inspect) && AllInTime(l.items, due, inspect)
    ensures var w := InspectItem(l, i, inspect);
      Waits(w.items, due) < Waits(l.items, due) && AllInTime(w.items, due, inspect) && w.job == l.job
  {
    var o := inspect(l.items[i].key, l.items[i].looks);
    var it := Judged(l.items[i].(status := Evidence.Running), o);
    var w := InspectItem(l, i, inspect);
    assert w.items == l.items[i := it];
    assert InTime(l.items[i], due, inspect);
    WaitsUpdate(l.items, i, it, due);
    hide Count;
    assert InTime(it, due, inspect);
  }

  lemma {:induction false} WorkWaitsLess(l: Ledger, inspect: (string, nat) -> Outcome, budget: nat, due: string -> nat)
    requires GoodOracle(inspect) && AllInTime(l.items, due, inspect)
    ensures var w := Work(l, inspect, budget);
      && AllInTime(w.items, due, inspect) && Waits(w.items, due) <= Waits(l.items, due)
      && (budget > 0 && FirstPending(l.items, 0).Some? ==> Waits(w.items, due) < Waits(l.items, due))
    decreases budget
  {
    hide InspectItem, AllInTime;
    if budget > 0 {
      match FirstPending(l.items, 0)
      case None =>
      case Some(i) =>
        InspectWaitsLess(l, i, inspect, due);
        WorkWaitsLess(InspectItem(l, i, inspect), inspect, budget - 1, due);
    }
  }

  lemma RetryKeepsWaits(items: seq<Item>, due: string -> nat, inspect: (string, nat) -> Outcome)
    requires AllInTime(items, due, inspect)
    ensures AllInTime(RetryFailures(items), due, inspect) && Waits(RetryFailures(items), due) == Waits(items, due)
  {
    var r := RetryFailures(items);
    forall i | 0 <= i < |items| ensures Wait(r[i], due) == Wait(items[i], due) && InTime(r[i], due, inspect) {
      assert InTime(items[i], due, inspect);
    }
    WaitsFrame(items, r, due);
  }

  lemma RecoverKeepsWaits(items: seq<Item>, repaired: nat -> Option<Status>, due: string -> nat,
      inspect: (string, nat) -> Outcome)
    requires AllInTime(items, due, inspect)
    ensures AllInTime(RecoverAll(items, repaired), due, inspect) &&
      Waits(RecoverAll(items, repaired), due) == Waits(items, due)
  {
    var r := RecoverAll(items, repaired);
    forall i | 0 <= i < |items| ensures Wait(r[i], due) == Wait(items[i], due) && InTime(r[i], due, inspect) {
      assert InTime(items[i], due, inspect) && r[i] == Recover(items[i], repaired(i));
    }
    WaitsFrame(items, r, due);
  }

  /** Whether a batch would find work; if not, a batch that does not complete the run makes some. */
  function Idle(items: seq<Item>): nat {
    if FirstPending(items, 0).Some? then 0 else 1
  }

  /** A run without a job row that is on its way: enrolled, nobody pausing, and every item answers in time. */
  ghost predicate OnItsWay(l: Ledger, manifest: seq<string>, due: string -> nat, inspect: (string, nat) -> Outcome) {
    && Balanced(l) && l.job.None? && !l.run.pauseAsked
    && Missing(l.items, manifest) == [] && AllInTime(l.items, due, inspect)
  }

  /** A batch completes the run, or brings it closer: fewer looks to go, or at least work to do. */
  lemma BatchComesCloser(l: Ledger, manifest: seq<string>, turn: Turn, inspect: (string, nat) -> Outcome,
      due: string -> nat)
    requires OnItsWay(l, manifest, due, inspect) && Distinct(manifest) && GoodOracle(inspect) && turn.budget > 0
    ensures var x := Execute(l, manifest, turn.repaired, inspect, turn.budget);
      x.run.status == Completed
      || (OnItsWay(x, manifest, due, inspect)
          && (Waits(x.items, due) < Waits(l.items, due) ||
            (Waits(x.items, due) == Waits(l.items, due) && Idle(x.items) < Idle(l.items))))
  {
    BeginKeepsBalanced(l, manifest, turn.repaired);
    ExecuteKeepsBalanced(l, manifest, turn.repaired, inspect, turn.budget);
    var b := Begin(l, manifest, turn.repaired);
    assert Enroll(l, manifest) == l;
    RecoverKeepsWaits(l.items, turn.repaired, due, inspect);
    RecoverKeepsPending(l.items, turn.repaired);
    hide Begin, Balanced, AllInTime, RecoverAll;
    WorkWaitsLess(b, inspect, turn.budget, due);
    WorkKeepsBalanced(b, inspect, turn.budget);
    WorkShrinks(b, inspect, turn.budget);
    var w := Work(b, inspect, turn.budget);
    NothingMissing(b.items, manifest);
    SameKeysNothingMissing(b.items, w.items, manifest);
    assert Enroll(w, manifest) == w;
    hide Work, Enroll;
    if FirstPending(w.items, 0).None? {
      ClosingComesCloser(w, manifest, due, inspect);
    }
  }

  lemma RecoverKeepsPending(items: seq<Item>, repaired: nat -> Option<Status>)
    ensures FirstPending(items, 0).Some? ==> FirstPending(RecoverAll(items, repaired), 0).Some?
  {
    var r := RecoverAll(items, repaired);
    if FirstPending(items, 0).Some? {
      var i := FirstPending(items, 0).value;
      assert r[i] == Recover(items[i], repaired(i)) && r[i].status.Pending?;
    }
  }

  lemma ClosingComesCloser(w: Ledger, manifest: seq<string>, due: string -> nat, inspect: (string, nat) -> Outcome)
    requires w.job.None? && AllInTime(w.items, due, inspect) && Missing(w.items, manifest) == []
    ensures var x := Close(w);
      x.run.status == Completed
      || (&& x.job.None? && x.run.pauseAsked == w.run.pauseAsked && AllInTime(x.items, due, inspect)
          && Waits(x.items, due) == Waits(w.items, due) && FirstPending(x.items, 0).Some? &&
            Missing(x.items, manifest) == [])
  {
    RetryKeepsWaits(w.items, due, inspect);
    if Count(w.items, IsAccessFailed) > 0 {
      var i := SomeCounted(w.items, IsAccessFailed);
      var r := RetryFailures(w.items);
      assert r[i].status.Pending?;
      SameKeysNothingMissing(w.items, r, manifest);
    }
    hide Count, AllInTime;
  }

  lemma {:induction false} SomeCounted(items: seq<Item>, p: Status -> bool) returns (i: nat)
    requires Count(items, p) > 0
    ensures i < |items| && p(items[i].status)
  {
    if p(items[|items| - 1].status) {
      i := |items| - 1;
    } else {
      i := SomeCounted(items[..|items| - 1], p);
    }
  }

  /** Batch after batch until the run is completed: the number of the batch that does it. */
  lemma {:induction false} Completing(l: Ledger, manifest: seq<string>, turns: nat -> Turn,
      inspect: (string, nat) -> Outcome, due: string -> nat, k: nat)
    returns (n: nat)
    requires Distinct(manifest) && GoodOracle(inspect) && forall i :: turns(i).budget > 0
    requires OnItsWay(Batches(l, manifest, turns, inspect, k), manifest, due, inspect)
    ensures n > 0 && Batches(l, manifest, turns, inspect, n).run.status == Completed
    decreases Waits(Batches(l, manifest, turns, inspect, k).items, due),
      Idle(Batches(l, manifest, turns, inspect, k).items)
  {
    hide Batches, Execute, OnItsWay, Waits, Idle;
    NextBatch(l, manifest, turns, inspect, k);
    BatchComesCloser(Batches(l, manifest, turns, inspect, k), manifest, turns(k), inspect, due);
    n := k + 1;
    if Batches(l, manifest, turns, inspect, n).run.status != Completed {
      n := Completing(l, manifest, turns, inspect, due, n);
    }
  }

  /** Some later look at the item does not raise. */
  ghost predicate Reachable(it: Item, inspect: (string, nat) -> Outcome) {
    Needs(it) ==> exists n :: n >= it.looks && inspect(it.key, n).Observed?
  }

  ghost function Look(l: Ledger, inspect: (string, nat) -> Outcome, key: string): nat {
    if exists i: int, n: nat :: 0 <= i < |l.items| && l.items[i].key == key && Answers(l.items[i], inspect, n) then
      var i: int, n: nat :| 0 <= i < |l.items| && l.items[i].key == key && Answers(l.items[i], inspect, n);
      n
    else 0
  }

  ghost predicate Answers(it: Item, inspect: (string, nat) -> Outcome, n: nat) {
    n >= it.looks && inspect(it.key, n).Observed?
  }

  lemma ReachableInTime(l: Ledger, inspect: (string, nat) -> Outcome, due: string -> nat)
    requires DistinctKeys(l.items) && forall i :: 0 <= i < |l.items| ==> Reachable(l.items[i], inspect)
    requires forall k :: due(k) == Look(l, inspect, k)
    ensures AllInTime(l.items, due, inspect)
  {
    forall i | 0 <= i < |l.items| ensures InTime(l.items[i], due, inspect) {
      var it := l.items[i];
      assert Reachable(it, inspect);
      if Needs(it) {
        var n :| n >= it.looks && inspect(it.key, n).Observed?;
        assert Answers(it, inspect, n);
        var j: int, m: nat :| 0 <= j < |l.items| && l.items[j].key == it.key && Answers(l.items[j], inspect, m) &&
          m == Look(l, inspect, it.key);
        assert j == i;
      }
    }
  }

  lemma EnrolledCompletesIff(l: Ledger, manifest: seq<string>, turns: nat -> Turn, inspect: (string, nat) -> Outcome)
    requires Balanced(l) && l.job.None? && !l.run.pauseAsked && Missing(l.items, manifest) == []
    requires Distinct(manifest) && GoodOracle(inspect) && forall i :: turns(i).budget > 0
    ensures EverCompletes(l, manifest, turns, inspect) <==> forall i :: 0 <= i < |l.items| ==>
      Reachable(l.items[i], inspect)
  {
    hide Balanced, Batches;
    if forall i :: 0 <= i < |l.items| ==> Reachable(l.items[i], inspect) {
      var due: string -> nat := k => Look(l, inspect, k);
      assert DistinctKeys(l.items) by { BalancedIsDistinct(l); }
      ReachableInTime(l, inspect, due);
      assert Batches(l, manifest, turns, inspect, 0) == l by { NextBatch(l, manifest, turns, inspect, 0); }
      var n := Completing(l, manifest, turns, inspect, due, 0);
    } else {
      var i :| 0 <= i < |l.items| && !Reachable(l.items[i], inspect);
      assert LostAt(l, i, inspect);
      forall n | n > 0 ensures Batches(l, manifest, turns, inspect, n).run.status != Completed {
        LostForever(l, manifest, turns, inspect, i, n);
      }
    }
  }

  lemma BalancedIsDistinct(l: Ledger)
    requires Balanced(l)
    ensures DistinctKeys(l.items)
  {
  }

  lemma {:induction false} BatchesEnrollFirst(l: Ledger, manifest: seq<string>, turns: nat -> Turn,
      inspect: (string, nat) -> Outcome, n: nat)
    requires n > 0 && Missing(Enroll(l, manifest).items, manifest) == []
    ensures Batches(l, manifest, turns, inspect, n) == Batches(Enroll(l, manifest), manifest, turns, inspect, n)
  {
    if n > 1 {
      hide Execute;
      BatchesEnrollFirst(l, manifest, turns, inspect, n - 1);
    } else {
      var e := Enroll(l, manifest);
      assert Enroll(e, manifest) == e;
      hide Enroll, Work, Close;
      assert Begin(e, manifest, turns(0).repaired) == Begin(l, manifest, turns(0).repaired);
      assert Batches(l, manifest, turns, inspect, 0) == l && Batches(e, manifest, turns, inspect, 0) == e;
    }
  }

  /**
  A run without a job row is completed by repeated batches if and only if every item that has to be
  inspected, those enrolled on the way included, has a later look that does not raise.
  */
  lemma CompletesWithoutJobIff(l: Ledger, manifest: seq<string>, turns: nat -> Turn, inspect: (string, nat) -> Outcome)
    requires Balanced(l) && l.job.None? && !l.run.pauseAsked
    requires Distinct(manifest) && GoodOracle(inspect) && forall i :: turns(i).budget > 0
    ensures var items := Enroll(l, manifest).items;
      EverCompletes(l, manifest, turns, inspect) <==> forall i :: 0 <= i < |items| ==> Reachable(items[i], inspect)
  {
    var e := Enroll(l, manifest);
    EnrollKeepsBalanced(l, manifest);
    NothingMissing(e.items, manifest);
    hide Batches, Enroll, Balanced, Reachable;
    EnrolledCompletesIff(e, manifest, turns, inspect);
    forall n | n > 0 ensures Batches(l, manifest, turns, inspect, n) == Batches(e, manifest, turns, inspect, n) {
      BatchesEnrollFirst(l, manifest, turns, inspect, n);
    }
  }
}
