/**
The run of an online audit as a sequence of committed steps: enrolment, batches, one retry round,
requeues from outside, and the counters on the run's row (src/oa_knowledge/online_audit.py).

Every function below is one transaction on the run, its items in the order of their identifiers,
and the job row that remembers the retry round (if the run has a job).
*/
module AuditLedger {
  import opened Wrappers
  import Evidence = AuditEvidence

  type Status = Evidence.Status

  /** `reason` says whether a comparison reason is stored; `looks` counts the inspections so far. */
  datatype Item = Item(key: string, status: Status, reason: bool, looks: nat)

  datatype RunStatus = Queued | Running | PauseRequested | Paused | Completed | Failed | Superseded

  datatype Run = Run(status: RunStatus, pauseAsked: bool, total: nat, completed: nat, matched: nat, mismatch: nat,
    accessFailed: nat)

  datatype Job = Job(retryRound: nat)

  datatype Ledger = Ledger(run: Run, items: seq<Item>, job: Option<Job>)

  predicate Open(s: Status) {
    s.Pending? || s.Running?
  }

  predicate Mismatch(s: Status) {
    !Open(s) && !s.Matched? && !s.AccessFailed?
  }

  // --- counting ---

  function Count(items: seq<Item>, p: Status -> bool): nat {
    if items == [] then 0 else Count(items[..|items| - 1], p) + if p(items[|items| - 1].status) then 1 else 0
  }

  predicate IsFinal(s: Status) {
    !Open(s)
  }

  predicate IsMatched(s: Status) {
    s.Matched?
  }

  predicate IsMismatch(s: Status) {
    Mismatch(s)
  }

  predicate IsAccessFailed(s: Status) {
    s.AccessFailed?
  }

  lemma {:induction false} CountSplits(items: seq<Item>)
    ensures Count(items, IsFinal) == Count(items, IsMatched) + Count(items, IsMismatch) + Count(items, IsAccessFailed)
  {
    if items != [] {
      CountSplits(items[..|items| - 1]);
    }
  }

  lemma {:induction false} CountFrame(a: seq<Item>, b: seq<Item>, p: Status -> bool)
    requires |a| == |b| && forall i :: 0 <= i < |a| ==> p(a[i].status) == p(b[i].status)
    ensures Count(a, p) == Count(b, p)
  {
    if a != [] {
      CountFrame(a[..|a| - 1], b[..|b| - 1], p);
    }
  }

  lemma {:induction false} CountAll(items: seq<Item>, p: Status -> bool)
    ensures Count(items, p) <= |items|
    ensures Count(items, p) == |items| <==> forall i :: 0 <= i < |items| ==> p(items[i].status)
  {
    if items != [] {
      CountAll(items[..|items| - 1], p);
      forall i | 0 <= i < |items| - 1 ensures items[..|items| - 1][i] == items[i] {}
    }
  }

  lemma {:induction false} CountAppend(a: seq<Item>, b: seq<Item>, p: Status -> bool)
    requires forall i :: 0 <= i < |b| ==> !p(b[i].status)
    ensures Count(a + b, p) == Count(a, p)
  {
    if b == [] {
      assert a + b == a;
    } else {
      assert (a + b)[..|a + b| - 1] == a + b[..|b| - 1];
      CountAppend(a, b[..|b| - 1], p);
    }
  }

  function Refresh(run: Run, items: seq<Item>): Run {
    run.(completed := Count(items, IsFinal), matched := Count(items, IsMatched),
         mismatch := Count(items, IsMismatch), accessFailed := Count(items, IsAccessFailed))
  }

  // --- the ledger's invariant ---

  ghost predicate DistinctKeys(items: seq<Item>) {
    forall i, j :: 0 <= i < j < |items| ==> items[i].key != items[j].key
  }

  /** The counters agree with the items, and a completed run has only final items. */
  ghost predicate Balanced(l: Ledger) {
    && DistinctKeys(l.items)
    && l.run.total == |l.items|
    && l.run == Refresh(l.run, l.items)
    && (l.run.status == Completed ==> forall i :: 0 <= i < |l.items| ==> !Open(l.items[i].status))
  }

  lemma BalancedMeans(l: Ledger)
    requires Balanced(l)
    ensures l.run.total == |l.items|
    ensures l.run.completed == l.run.matched + l.run.mismatch + l.run.accessFailed
    ensures l.run.completed == l.run.total <==> forall i :: 0 <= i < |l.items| ==> !Open(l.items[i].status)
  {
    CountSplits(l.items);
    CountAll(l.items, IsFinal);
  }

  // --- enrolment ---

  predicate HasKey(items: seq<Item>, key: string) {
    exists i :: 0 <= i < |items| && items[i].key == key
  }

  function Missing(items: seq<Item>, manifest: seq<string>): seq<string> {
    if manifest == [] then []
    else
      var rest := Missing(items, manifest[1..]);
      if HasKey(items, manifest[0]) then rest else [manifest[0]] + rest
  }

  function Fresh(keys: seq<string>): seq<Item> {
    seq(|keys|, i requires 0 <= i < |keys| => Item(keys[i], Evidence.Pending, false, 0))
  }

  /** Manifest rows that the run does not have yet become pending items; a completed run is reopened. */
  function Enroll(l: Ledger, manifest: seq<string>): Ledger {
    var missing := Missing(l.items, manifest);
    if missing == [] then l
    else
      var items := l.items + Fresh(missing);
      l.(items := items, run :=
        l.run.(total := |items|, status := if l.run.status == Completed then Queued else l.run.status))
  }

  ghost predicate Distinct(keys: seq<string>) {
    forall i, j :: 0 <= i < j < |keys| ==> keys[i] != keys[j]
  }

  lemma {:induction false} MissingMeans(items: seq<Item>, manifest: seq<string>)
    ensures forall k :: k in Missing(items, manifest) <==> k in manifest && !HasKey(items, k)
    ensures Distinct(manifest) ==> Distinct(Missing(items, manifest))
  {
    if manifest != [] {
      MissingMeans(items, manifest[1..]);
      assert manifest == [manifest[0]] + manifest[1..];
      if Distinct(manifest) {
        assert forall i :: 0 <= i < |manifest[1..]| ==> manifest[1..][i] == manifest[i + 1];
        assert manifest[0] !in manifest[1..];
        var rest := Missing(items, manifest[1..]);
        assert Distinct(rest) && manifest[0] !in rest;
        assert forall i :: 0 <= i < |rest| ==> ([manifest[0]] + rest)[i + 1] == rest[i];
      }
    }
  }

  lemma {:induction false} MissingAppend(items: seq<Item>, manifest: seq<string>, key: string)
    ensures Missing(items, manifest + [key]) == Missing(items, manifest) + if HasKey(items, key) then [] else [key]
  {
    if manifest == [] {
      assert [] + [key] == [key] && [key][1..] == [];
    } else {
      assert (manifest + [key])[1..] == manifest[1..] + [key];
      MissingAppend(items, manifest[1..], key);
    }
  }

  lemma EnrollKeepsBalanced(l: Ledger, manifest: seq<string>)
    requires Balanced(l) && Distinct(manifest)
    ensures var e := Enroll(l, manifest);
      && Balanced(e) && e.job == l.job && l.items <= e.items
      && (forall k :: k in manifest ==> HasKey(e.items, k))
      && (e.run.status == Completed ==> l.run.status == Completed && e == l)
      && (e.run.status != l.run.status ==> l.run.status == Completed && e.run.status == Queued)
      && e.run.pauseAsked == l.run.pauseAsked
  {
    var missing := Missing(l.items, manifest);
    var added := Fresh(missing);
    MissingMeans(l.items, manifest);
    var e := Enroll(l, manifest);
    CountAppend(l.items, added, IsFinal);
    CountAppend(l.items, added, IsMatched);
    CountAppend(l.items, added, IsMismatch);
    CountAppend(l.items, added, IsAccessFailed);
    forall k | k in manifest ensures HasKey(e.items, k) {
      if HasKey(l.items, k) {
        var i :| 0 <= i < |l.items| && l.items[i].key == k;
        assert e.items[i].key == k;
      } else {
        var i :| 0 <= i < |missing| && missing[i] == k;
        assert e.items[|l.items| + i].key == k;
      }
    }
    EnrollKeepsKeysDistinct(l.items, missing);
    hide Count;
  }

  lemma EnrollKeepsKeysDistinct(items: seq<Item>, missing: seq<string>)
    requires DistinctKeys(items) && Distinct(missing) && forall k :: k in missing ==> !HasKey(items, k)
    ensures DistinctKeys(items + Fresh(missing))
  {
    var all := items + Fresh(missing);
    forall i, j | 0 <= i < j < |all| ensures all[i].key != all[j].key {
      if i < |items| <= j {
        assert missing[j - |items|] in missing;
        assert all[i] == items[i];
      }
    }
  }

  // --- one batch ---

  datatype Outcome = Observed(status: Status) | Raised(reason: bool)

  predicate Verdict(s: Status) {
    !Open(s) && !s.AccessFailed?
  }

  ghost predicate GoodOracle(inspect: (string, nat) -> Outcome) {
    forall k, n :: inspect(k, n).Observed? ==> Verdict(inspect(k, n).status)
  }

  predicate LacksReason(it: Item) {
    Verdict(it.status) && !it.reason
  }

  predicate Repairs(it: Item, repaired: Option<Status>) {
    Verdict(it.status) && it.reason && repaired.Some? && Verdict(repaired.value) && repaired.value != it.status
  }

  function Recover(it: Item, repaired: Option<Status>): Item {
    if it.status.Running? || LacksReason(it) then it.(status := Evidence.Pending)
    else if Repairs(it, repaired) then it.(status := repaired.value)
    else it
  }

  function RecoverAll(items: seq<Item>, repaired: nat -> Option<Status>): seq<Item> {
    seq(|items|, i requires 0 <= i < |items| => Recover(items[i], repaired(i)))
  }

  /** The opening transaction: enrol, take interrupted items back, requeue old evidence, repair summaries. */
  function Begin(l: Ledger, manifest: seq<string>, repaired: nat -> Option<Status>): Ledger {
    var e := Enroll(l, manifest);
    var items := RecoverAll(e.items, repaired);
    var touched := exists i :: 0 <= i < |e.items| && (LacksReason(e.items[i]) || Repairs(e.items[i], repaired(i)));
    e.(items := items, run := (if touched then Refresh(e.run, items) else e.run).(status := Running))
  }

  function FirstPending(items: seq<Item>, from: nat): (i: Option<nat>)
    requires from <= |items|
    ensures i.Some? ==> from <= i.value < |items| && items[i.value].status.Pending?
    ensures i.None? ==> forall k :: from <= k < |items| ==> !items[k].status.Pending?
    ensures i.Some? ==> forall k :: from <= k < i.value ==> !items[k].status.Pending?
    decreases |items| - from
  {
    if from == |items| then None
    else if items[from].status.Pending? then Some(from)
    else FirstPending(items, from + 1)
  }

  function StartItem(l: Ledger, i: nat): Ledger
    requires i < |l.items|
  {
    l.(items := l.items[i := l.items[i].(status := Evidence.Running)])
  }

  function Judged(it: Item, o: Outcome): Item {
    match o
    case Observed(s) => it.(status := s, reason := true, looks := it.looks + 1)
    case Raised(r) => it.(status := Evidence.AccessFailed, reason := r, looks := it.looks + 1)
  }

  function FinishItem(l: Ledger, i: nat, o: Outcome): Ledger
    requires i < |l.items|
  {
    var items := l.items[i := Judged(l.items[i], o)];
    l.(items := items, run := Refresh(l.run, items))
  }

  function InspectItem(l: Ledger, i: nat, inspect: (string, nat) -> Outcome): Ledger
    requires i < |l.items|
  {
    FinishItem(StartItem(l, i), i, inspect(l.items[i].key, l.items[i].looks))
  }

  /** The item loop: the first pending item each time, until none is left or the batch's budget is spent. */
  function Work(l: Ledger, inspect: (string, nat) -> Outcome, budget: nat): Ledger
    decreases budget
  {
    if budget == 0 then l
    else match FirstPending(l.items, 0)
      case None => l
      case Some(i) => Work(InspectItem(l, i, inspect), inspect, budget - 1)
  }

  function RetryFailures(items: seq<Item>): seq<Item> {
    seq(|items|, i requires 0 <= i < |items| =>
      if items[i].status.AccessFailed? then items[i].(status := Evidence.Pending) else items[i])
  }

  function Round(l: Ledger): nat {
    if l.job.Some? then l.job.value.retryRound else 0
  }

  /** The closing transaction: one more round for items that could not be reached, or completion. */
  function Close(l: Ledger): Ledger {
    if Count(l.items, IsAccessFailed) > 0 && Round(l) < 1 then
      var items := RetryFailures(l.items);
      Ledger(Refresh(l.run, items).(status := Queued), items, if l.job.Some? then Some(Job(1)) else None)
    else l.(run := Refresh(l.run, l.items).(status := Completed))
  }

  /** One call of `execute_audit`. */
  function Execute(l: Ledger, manifest: seq<string>, repaired: nat -> Option<Status>,
      inspect: (string, nat) -> Outcome, budget: nat): Ledger {
    var b := Begin(l, manifest, repaired);
    if b.run.pauseAsked then b.(run := b.run.(status := Paused))
    else
      var w := Enroll(Work(b, inspect, budget), manifest);
      if FirstPending(w.items, 0).Some? then w.(run := w.run.(status := Queued)) else Close(w)
  }

  // --- what happens from outside ---

  function ItemIndex(items: seq<Item>, key: string, from: nat): (i: Option<nat>)
    requires from <= |items|
    ensures i.Some? ==> i.value < |items| && items[i.value].key == key
    ensures i.None? ==> forall k :: from <= k < |items| ==> items[k].key != key
    decreases |items| - from
  {
    if from == |items| then None else if items[from].key == key then Some(from) else ItemIndex(items, key, from + 1)
  }

  function Reopen(l: Ledger, i: nat): Ledger
    requires i < |l.items|
  {
    var items := l.items[i := l.items[i].(status := Evidence.Pending, reason := false)];
    var run := Refresh(l.run, items);
    l.(items := items, run := if run.status in {Paused, PauseRequested} then run else run.(status := Queued))
  }

  /** A supplement was downloaded: a missing-download item goes back to the queue. */
  function RequeueSupplemented(l: Ledger, key: string): Ledger {
    match ItemIndex(l.items, key, 0)
    case Some(i) => if l.items[i].status.MissingDownload? then Reopen(l, i) else l
    case None => l
  }

  /** An item was captured again: whatever final status it had is void. */
  function RequeueChanged(l: Ledger, key: string, manifest: seq<string>): Ledger {
    if l.run.status in {Failed, Superseded} then l
    else
      var e := Enroll(l, manifest);
      match ItemIndex(e.items, key, 0)
      case Some(i) => if Open(e.items[i].status) then e else Reopen(e, i)
      case None => e
  }

  // --- every step keeps the balance ---

  ghost predicate NoneRunning(items: seq<Item>) {
    forall i :: 0 <= i < |items| ==> !items[i].status.Running?
  }

  /** Replacing items and refreshing the counters restores the balance, if completion is not claimed too early. */
  lemma RefreshBalances(l: Ledger, items: seq<Item>, status: RunStatus)
    requires Balanced(l) && |items| == |l.items| && forall i :: 0 <= i < |items| ==> items[i].key == l.items[i].key
    requires status == Completed ==> forall i :: 0 <= i < |items| ==> !Open(items[i].status)
    ensures Balanced(l.(items := items, run := Refresh(l.run, items).(status := status)))
  {
  }

  lemma UntouchedCounts(l: Ledger, repaired: nat -> Option<Status>)
    requires Balanced(l)
    requires !exists i :: 0 <= i < |l.items| && (LacksReason(l.items[i]) || Repairs(l.items[i], repaired(i)))
    ensures Refresh(l.run, RecoverAll(l.items, repaired)) == l.run
  {
    var items := RecoverAll(l.items, repaired);
    CountFrame(l.items, items, IsFinal);
    CountFrame(l.items, items, IsMatched);
    CountFrame(l.items, items, IsMismatch);
    CountFrame(l.items, items, IsAccessFailed);
  }

  lemma RecoverKeepsKeys(items: seq<Item>, repaired: nat -> Option<Status>)
    ensures var r := RecoverAll(items, repaired);
      |r| == |items| && NoneRunning(r) && forall i :: 0 <= i < |items| ==> r[i].key == items[i].key
  {
    var r := RecoverAll(items, repaired);
    forall i | 0 <= i < |items| ensures !r[i].status.Running? && r[i].key == items[i].key {
      assert r[i] == Recover(items[i], repaired(i));
    }
  }

  lemma BeginKeepsBalanced(l: Ledger, manifest: seq<string>, repaired: nat -> Option<Status>)
    requires Balanced(l) && Distinct(manifest)
    ensures var b := Begin(l, manifest, repaired);
      && Balanced(b) && b.run.status == Running && NoneRunning(b.items) && b.job == l.job
      && b.run.pauseAsked == l.run.pauseAsked
      && b.items == RecoverAll(Enroll(l, manifest).items, repaired)
      && (forall k :: k in manifest ==> HasKey(b.items, k))
  {
    EnrollKeepsBalanced(l, manifest);
    var e := Enroll(l, manifest);
    hide Enroll, Count, Recover;
    RecoverKeepsKeys(e.items, repaired);
    var items := RecoverAll(e.items, repaired);
    RefreshBalances(e, items, Running);
    if !exists i :: 0 <= i < |e.items| && (LacksReason(e.items[i]) || Repairs(e.items[i], repaired(i))) {
      UntouchedCounts(e, repaired);
    }
    forall k | k in manifest ensures HasKey(items, k) {
      var i :| 0 <= i < |e.items| && e.items[i].key == k;
      assert items[i].key == k;
    }
  }

  /** Between the two transactions of an inspection the counters are right as well. */
  lemma StartKeepsBalanced(l: Ledger, i: nat)
    requires Balanced(l) && l.run.status != Completed && i < |l.items| && l.items[i].status.Pending?
    ensures Balanced(StartItem(l, i))
  {
    var items := StartItem(l, i).items;
    CountFrame(l.items, items, IsFinal);
    CountFrame(l.items, items, IsMatched);
    CountFrame(l.items, items, IsMismatch);
    CountFrame(l.items, items, IsAccessFailed);
  }

  lemma InspectKeepsBalanced(l: Ledger, i: nat, inspect: (string, nat) -> Outcome)
    requires Balanced(l) && l.run.status != Completed && GoodOracle(inspect) && NoneRunning(l.items)
    requires i < |l.items| && l.items[i].status.Pending?
    ensures var w := InspectItem(l, i, inspect);
      Balanced(w) && NoneRunning(w.items) && w.run.status == l.run.status && w.job == l.job &&
        w.run.pauseAsked == l.run.pauseAsked
  {
    StartKeepsBalanced(l, i);
    var m := StartItem(l, i);
    RefreshBalances(m, InspectItem(l, i, inspect).items, l.run.status);
    hide Count;
  }

  lemma {:induction false} WorkKeepsBalanced(l: Ledger, inspect: (string, nat) -> Outcome, budget: nat)
    requires Balanced(l) && l.run.status != Completed && GoodOracle(inspect) && NoneRunning(l.items)
    ensures var w := Work(l, inspect, budget);
      Balanced(w) && NoneRunning(w.items) && w.run.status == l.run.status && w.job == l.job &&
        w.run.pauseAsked == l.run.pauseAsked
    decreases budget
  {
    hide InspectItem, Balanced;
    if budget > 0 {
      match FirstPending(l.items, 0)
      case None =>
      case Some(i) =>
        InspectKeepsBalanced(l, i, inspect);
        WorkKeepsBalanced(InspectItem(l, i, inspect), inspect, budget - 1);
    }
  }

  /** The closing step is honest exactly when no item is open; a requeue slipping in before it is not noticed. */
  lemma CloseIsHonestIff(l: Ledger)
    requires Balanced(l)
    ensures Close(l).run.status in {Queued, Completed}
    ensures Close(l).run.status == Completed <==> Count(l.items, IsAccessFailed) == 0 || Round(l) >= 1
    ensures Close(l).run.status == Queued ==> Balanced(Close(l))
    ensures Close(l).run.status == Completed ==>
      (Balanced(Close(l)) <==> forall i :: 0 <= i < |l.items| ==> !Open(l.items[i].status))
  {
    RefreshBalances(l, RetryFailures(l.items), Queued);
    hide Count;
  }

  /** A batch, whatever the inspections bring, ends with a balanced ledger. */
  lemma ExecuteKeepsBalanced(l: Ledger, manifest: seq<string>, repaired: nat -> Option<Status>,
      inspect: (string, nat) -> Outcome, budget: nat)
    requires Balanced(l) && Distinct(manifest) && GoodOracle(inspect)
    ensures Balanced(Execute(l, manifest, repaired, inspect, budget))
  {
    BeginKeepsBalanced(l, manifest, repaired);
    var b := Begin(l, manifest, repaired);
    hide Begin, Enroll, Count, Close, Work;
    if !b.run.pauseAsked {
      WorkKeepsBalanced(b, inspect, budget);
      var w := Work(b, inspect, budget);
      EnrollKeepsBalanced(w, manifest);
      EnrollAddsNoRunning(w, manifest);
      CloseIsHonestIff(Enroll(w, manifest));
    }
  }

  lemma EnrollAddsNoRunning(w: Ledger, manifest: seq<string>)
    requires NoneRunning(w.items)
    ensures NoneRunning(Enroll(w, manifest).items)
  {
  }

  lemma ReopenKeepsBalanced(l: Ledger, i: nat)
    requires Balanced(l) && i < |l.items|
    ensures Balanced(Reopen(l, i)) && Reopen(l, i).run.status != Completed
  {
    RefreshBalances(l, Reopen(l, i).items, Reopen(l, i).run.status);
  }

  /** Requeues from outside keep the balance too; a reopened run is no longer completed. */
  lemma RequeuesKeepBalanced(l: Ledger, key: string, manifest: seq<string>)
    requires Balanced(l) && Distinct(manifest)
    ensures Balanced(RequeueSupplemented(l, key)) && Balanced(RequeueChanged(l, key, manifest))
  {
    EnrollKeepsBalanced(l, manifest);
    var e := Enroll(l, manifest);
    hide Reopen, Enroll, Balanced;
    if ItemIndex(l.items, key, 0).Some? {
      ReopenKeepsBalanced(l, ItemIndex(l.items, key, 0).value);
    }
    if ItemIndex(e.items, key, 0).Some? {
      ReopenKeepsBalanced(e, ItemIndex(e.items, key, 0).value);
    }
  }
}
