/**
What an audit records is what its inspections saw (src/oa_knowledge/online_audit.py): in one call, with
others acting in between, and over the batches of a whole audit, down to the counters of the run.
*/
module AuditTruth {
  import opened Sequences
  import opened Wrappers
  import Evidence = AuditEvidence
  import opened AuditLedger
  import opened AuditTermination
  import opened AuditProtocol
  import opened AuditBatch

  /** The status says what the inspection saw, or that it saw nothing. */
  predicate Says(s: Status, o: Outcome) {
    match o
    case Observed(t) => s == t
    case Raised(_) => s == Evidence.AccessFailed
  }

  // --- one call ---

  /** A final status is that of the item's last look, or one that the call was given to repair it with. */
  predicate Recorded(it: Item, i: nat, x: Input) {
    Open(it.status) || (it.looks > 0 && Says(it.status, x.inspect(it.key, it.looks - 1))) ||
      x.repaired(i) == Some(it.status)
  }

  ghost predicate AllRecorded(items: seq<Item>, x: Input) {
    forall i :: 0 <= i < |items| ==> Recorded(items[i], i, x)
  }

  lemma OutsideKeepsRecorded(l: Ledger, e: Event, x: Input)
    requires AllRecorded(l.items, x)
    ensures AllRecorded(OutsideStep(l, e).items, x)
  {
    hide Recorded, Count, Missing;
    var items := OutsideStep(l, e).items;
    forall i | 0 <= i < |items| ensures Recorded(items[i], i, x) {
      if i < |l.items| && items[i] == l.items[i] {
        assert Recorded(l.items[i], i, x);
      } else {
        OpenIsRecorded(items[i], i, x);
      }
    }
  }

  lemma OpenIsRecorded(it: Item, i: nat, x: Input)
    requires Open(it.status)
    ensures Recorded(it, i, x)
  {
  }

  lemma {:induction false} OutsideAllKeepsRecorded(l: Ledger, events: seq<Event>, x: Input)
    requires AllRecorded(l.items, x)
    ensures AllRecorded(OutsideAll(l, events).items, x)
  {
    hide OutsideStep, AllRecorded;
    if events != [] {
      OutsideAllKeepsRecorded(l, events[..|events| - 1], x);
      OutsideKeepsRecorded(OutsideAll(l, events[..|events| - 1]), events[|events| - 1], x);
    }
  }

  lemma EnrollKeepsRecorded(l: Ledger, manifest: seq<string>, x: Input)
    requires AllRecorded(l.items, x)
    ensures AllRecorded(Enroll(l, manifest).items, x)
  {
    OutsideKeepsRecorded(l, EnrollRows(manifest), x);
  }

  lemma CloseKeepsRecorded(l: Ledger, x: Input)
    requires AllRecorded(l.items, x)
    ensures AllRecorded(Close(l).items, x)
  {
    hide Count;
    var items := Close(l).items;
    forall i | 0 <= i < |items| ensures Recorded(items[i], i, x) {
      assert Recorded(l.items[i], i, x);
    }
  }

  lemma FinishKeepsRecorded(l: Ledger, i: nat, x: Input)
    requires AllRecorded(l.items, x) && i < |l.items|
    ensures AllRecorded(FinishItem(l, i, x.inspect(l.items[i].key, l.items[i].looks)).items, x)
  {
    hide Count;
  }

  lemma NextKeepsRecorded(s: State, x: Input, tick: nat)
    requires AllRecorded(s.ledger.items, x) && s.phase != Idle
    ensures AllRecorded(Next(s, x, tick).ledger.items, x)
  {
    OutsideAllKeepsRecorded(s.ledger, x.others(tick), x);
    var l := OutsideAll(s.ledger, x.others(tick));
    hide OutsideAll, Enroll, Close, Recorded, FinishItem;
    match s.phase
    case Looping(_) =>
      if FirstPending(l.items, 0).Some? {
        var i := FirstPending(l.items, 0).value;
        OpenIsRecorded(StartItem(l, i).items[i], i, x);
      }
    case Inspecting(_, i) =>
      if i < |l.items| {
        FinishKeepsRecorded(l, i, x);
      }
    case Checking => EnrollKeepsRecorded(l, x.manifest, x);
    case Closing => CloseKeepsRecorded(l, x);
  }

  lemma {:induction false} RestKeepsRecorded(s: State, x: Input, tick: nat)
    requires AllRecorded(s.ledger.items, x)
    ensures AllRecorded(Rest(s, x, tick).ledger.items, x)
    decreases Rank(s.phase, x.budget)
  {
    hide Next, AllRecorded;
    if s.phase != Idle && Rank(Next(s, x, tick).phase, x.budget) < Rank(s.phase, x.budget) {
      NextKeepsRecorded(s, x, tick);
      RestKeepsRecorded(Next(s, x, tick), x, tick + 1);
    }
  }

  lemma BeginKeepsRecorded(l: Ledger, x: Input)
    requires AllRecorded(l.items, x)
    ensures AllRecorded(AuditLedger.Begin(l, x.manifest, x.repaired).items, x)
  {
    EnrollKeepsRecorded(l, x.manifest, x);
    var e := Enroll(l, x.manifest);
    var items := AuditLedger.Begin(l, x.manifest, x.repaired).items;
    hide Enroll, Count;
    forall i | 0 <= i < |items| ensures Recorded(items[i], i, x) {
      assert Recorded(e.items[i], i, x);
      assert items[i] == Recover(e.items[i], x.repaired(i));
    }
  }

  /**
  The opening transaction takes an item back that was interrupted or has a verdict without a reason, gives one
  with a reason the verdict it is repaired with, and leaves every other item as it was.
  */
  lemma OpeningMeans(l: Ledger, manifest: seq<string>, repaired: nat -> Option<Status>, i: nat)
    requires i < |Enroll(l, manifest).items|
    ensures var (it, after) := (Enroll(l, manifest).items[i], AuditLedger.Begin(l, manifest, repaired).items[i]);
      && after == it.(status := after.status)
      && (it.status.Running? || (Verdict(it.status) && !it.reason) ==> after.status.Pending?)
      && (Verdict(it.status) && it.reason && repaired(i).Some? && Verdict(repaired(i).value) ==>
            after.status == repaired(i).value)
      && (Verdict(it.status) && it.reason && !(repaired(i).Some? && Verdict(repaired(i).value)) ==>
            after.status == it.status)
      && (it.status.Pending? || it.status.AccessFailed? ==> after.status == it.status)
  {
    var items, repairs := Enroll(l, manifest).items, RecoverAll(Enroll(l, manifest).items, repaired);
    hide Enroll, Count;
    assert repairs[i] == Recover(items[i], repaired(i));
  }

  /**
  Whatever others do meanwhile, the final statuses a call leaves are those its looks came to, or repairs it was
  given.
  */
  lemma CallRecordsLooks(l: Ledger, x: Input)
    requires AllRecorded(l.items, x)
    ensures AllRecorded(Batch(l, x).ledger.items, x)
  {
    FirstTransaction(l, x);
    BeginKeepsRecorded(l, x);
    hide AuditLedger.Begin, AllRecorded, Batch;
    RestKeepsRecorded(State(AuditLedger.Begin(l, x.manifest, x.repaired), Looping(0)), x, 0);
  }

  // --- a whole audit ---

  /** The look that counts: the first, or the second when the first one saw nothing. */
  function LastLook(inspect: (string, nat) -> Outcome, key: string): Outcome {
    if inspect(key, 0).Observed? then inspect(key, 0) else inspect(key, 1)
  }

  /** How an item stands in the first round or in the retry round. */
  predicate Told(it: Item, round: nat, inspect: (string, nat) -> Outcome) {
    if it.status.Pending? then it.looks == round && (round == 0 || inspect(it.key, 0).Raised?)
    else
      && !it.status.Running? && (it.reason || it.status.AccessFailed?)
      && if it.looks == 1 then Says(it.status, inspect(it.key, 0)) && (round == 0 || inspect(it.key, 0).Observed?)
         else it.looks == 2 && round == 1 && inspect(it.key, 0).Raised? && Says(it.status, inspect(it.key, 1))
  }

  ghost predicate AllTold(l: Ledger, manifest: seq<string>, inspect: (string, nat) -> Outcome) {
    && l.job.Some? && Round(l) <= 1 && !l.run.pauseAsked && |l.items| == |manifest|
    && forall i :: 0 <= i < |manifest| ==> l.items[i].key == manifest[i] && Told(l.items[i], Round(l), inspect)
  }

  ghost predicate NoRepairs(repaired: nat -> Option<Status>) {
    forall i :: repaired(i).None?
  }

  lemma EnrolledAlready(l: Ledger, manifest: seq<string>, inspect: (string, nat) -> Outcome)
    requires AllTold(l, manifest, inspect)
    ensures Enroll(l, manifest) == l
  {
    hide Told;
    forall k | k in manifest ensures HasKey(l.items, k) {
      var i :| 0 <= i < |manifest| && manifest[i] == k;
      assert l.items[i].key == k;
    }
    NothingMissing(l.items, manifest);
  }

  lemma BeginKeepsTold(l: Ledger, manifest: seq<string>, repaired: nat -> Option<Status>,
      inspect: (string, nat) -> Outcome)
    requires AllTold(l, manifest, inspect) && NoRepairs(repaired)
    ensures AllTold(AuditLedger.Begin(l, manifest, repaired), manifest, inspect)
  {
    EnrolledAlready(l, manifest, inspect);
    hide Enroll, Count;
    var b := AuditLedger.Begin(l, manifest, repaired);
    forall i | 0 <= i < |manifest| ensures b.items[i] == l.items[i] {
      assert Told(l.items[i], Round(l), inspect);
      assert b.items[i] == Recover(l.items[i], repaired(i));
    }
  }

  lemma InspectKeepsTold(l: Ledger, i: nat, manifest: seq<string>, inspect: (string, nat) -> Outcome)
    requires AllTold(l, manifest, inspect) && GoodOracle(inspect) && i < |l.items| && l.items[i].status.Pending?
    ensures AllTold(InspectItem(l, i, inspect), manifest, inspect)
  {
    hide Count;
    assert Told(l.items[i], Round(l), inspect);
    var w := InspectItem(l, i, inspect);
    forall k | 0 <= k < |manifest| ensures w.items[k].key == manifest[k] && Told(w.items[k], Round(w), inspect) {
      assert Told(l.items[k], Round(l), inspect);
    }
  }

  lemma {:induction false} WorkKeepsTold(l: Ledger, manifest: seq<string>, inspect: (string, nat) -> Outcome,
      budget: nat)
    requires AllTold(l, manifest, inspect) && GoodOracle(inspect)
    ensures AllTold(Work(l, inspect, budget), manifest, inspect)
    decreases budget
  {
    hide InspectItem, AllTold;
    if budget > 0 {
      match FirstPending(l.items, 0)
      case None =>
      case Some(i) =>
        InspectKeepsTold(l, i, manifest, inspect);
        WorkKeepsTold(InspectItem(l, i, inspect), manifest, inspect, budget - 1);
    }
  }

  lemma CloseKeepsTold(l: Ledger, manifest: seq<string>, inspect: (string, nat) -> Outcome)
    requires AllTold(l, manifest, inspect) && GoodOracle(inspect) && FirstPending(l.items, 0).None?
    ensures AllTold(Close(l), manifest, inspect)
    ensures Close(l).run.status == Completed ==> AllSeen(Close(l), manifest, inspect)
  {
    NoneFailed(l.items);
    hide Count;
    var w := Close(l);
    forall i | 0 <= i < |manifest| ensures w.items[i].key == manifest[i] && Told(w.items[i], Round(w), inspect) {
      assert Told(l.items[i], Round(l), inspect);
    }
    if w.run.status == Completed {
      forall i | 0 <= i < |manifest| ensures Says(w.items[i].status, LastLook(inspect, manifest[i])) {
        assert Told(l.items[i], Round(l), inspect) && !l.items[i].status.Pending?;
      }
    }
  }

  lemma {:induction false} NoneFailed(items: seq<Item>)
    ensures Count(items, IsAccessFailed) == 0 ==> forall i :: 0 <= i < |items| ==> !items[i].status.AccessFailed?
  {
    if items != [] {
      NoneFailed(items[..|items| - 1]);
      assert forall i :: 0 <= i < |items| - 1 ==> items[..|items| - 1][i] == items[i];
    }
  }

  /** Each item of the run is a manifest row, with the status of the look that counts. */
  ghost predicate AllSeen(l: Ledger, manifest: seq<string>, inspect: (string, nat) -> Outcome) {
    |l.items| == |manifest| && forall i :: 0 <= i < |manifest| ==>
      l.items[i].key == manifest[i] && Says(l.items[i].status, LastLook(inspect, manifest[i]))
  }

  lemma ExecuteKeepsTold(l: Ledger, manifest: seq<string>, turn: AuditTermination.Turn,
      inspect: (string, nat) -> Outcome)
    requires AllTold(l, manifest, inspect) && GoodOracle(inspect) && NoRepairs(turn.repaired)
    ensures var x := Execute(l, manifest, turn.repaired, inspect, turn.budget);
      AllTold(x, manifest, inspect) && (x.run.status == Completed ==> AllSeen(x, manifest, inspect))
  {
    BeginKeepsTold(l, manifest, turn.repaired, inspect);
    var b := AuditLedger.Begin(l, manifest, turn.repaired);
    WorkKeepsTold(b, manifest, inspect, turn.budget);
    var w := Work(b, inspect, turn.budget);
    EnrolledAlready(w, manifest, inspect);
    if FirstPending(w.items, 0).None? {
      CloseKeepsTold(w, manifest, inspect);
    }
    hide AuditLedger.Begin, Work, Enroll, Close, Told, AllSeen;
  }

  lemma {:induction false} AuditKeepsTold(l: Ledger, manifest: seq<string>, turns: nat -> AuditTermination.Turn,
      inspect: (string, nat) -> Outcome, k: nat)
    requires Balanced(l) && Distinct(manifest) && GoodOracle(inspect) && (forall i :: turns(i).budget > 0)
    requires AllTold(l, manifest, inspect) && forall i :: NoRepairs(turns(i).repaired)
    ensures AllSeen(Audit(l, manifest, turns, inspect, k), manifest, inspect)
    decreases if Round(l) < 1 then 1 else 0, Left(l, manifest)
  {
    hide Execute, AllSeen, Told, Balanced, Left;
    var x := Execute(l, manifest, turns(k).repaired, inspect, turns(k).budget);
    BatchProgresses(l, manifest, turns(k), inspect);
    ExecuteKeepsTold(l, manifest, turns(k), inspect);
    if x.run.status != Completed {
      AuditKeepsTold(x, manifest, turns, inspect, k + 1);
    }
  }

  // --- the counters ---

  lemma {:induction false} CountsAreKeys(items: seq<Item>, manifest: seq<string>, p: Status -> bool, q: string -> bool)
    requires |items| == |manifest| && Distinct(manifest)
    requires forall i :: 0 <= i < |items| ==> p(items[i].status) == q(manifest[i])
    ensures Count(items, p) == |Those(manifest, q)|
  {
    hide Those;
    if items == [] {
      NoneOf(q);
    } else {
      var front, key := manifest[..|manifest| - 1], manifest[|manifest| - 1];
      CountsAreKeys(items[..|items| - 1], front, p, q);
      assert manifest == front + [key];
      ThoseAppend(front, key, q);
    }
  }

  lemma NoneOf(q: string -> bool)
    ensures |Those([], q)| == 0
  {
  }

  /**
  A new audit ends with the manifest rows as its items, each with the status that its first look observed, or the
  second when the first one failed, and `access_failed` only when both did. Its counters are the numbers of
  manifest rows of which that look says so: they do not depend on how the work was cut into batches.
  */
  lemma AuditTellsTheTruth(manifest: seq<string>, turns: nat -> AuditTermination.Turn,
      inspect: (string, nat) -> Outcome)
    requires Distinct(manifest) && GoodOracle(inspect) && (forall i :: turns(i).budget > 0)
    requires forall i :: NoRepairs(turns(i).repaired)
    ensures Balanced(NewAudit(manifest)) && NewAudit(manifest).job.Some? && !NewAudit(manifest).run.pauseAsked
    ensures var r := Audit(NewAudit(manifest), manifest, turns, inspect, 0);
      && AllSeen(r, manifest, inspect)
      && r.run.matched == |Those(manifest, k => LastLook(inspect, k) == Observed(Evidence.Matched))|
      && r.run.mismatch
         == |Those(manifest, k => LastLook(inspect, k).Observed? && LastLook(inspect, k).status != Evidence.Matched)|
      && r.run.accessFailed == |Those(manifest, k => inspect(k, 0).Raised? && inspect(k, 1).Raised?)|
  {
    NewAuditIsBalanced(manifest);
    NewAuditHasJob(manifest);
    var l := NewAudit(manifest);
    assert AllTold(l, manifest, inspect);
    AuditKeepsTold(l, manifest, turns, inspect, 0);
    hide Audit, NewAudit, Those, AllTold;
    SeenCounts(Audit(l, manifest, turns, inspect, 0), manifest, inspect);
  }

  lemma SeenCounts(r: Ledger, manifest: seq<string>, inspect: (string, nat) -> Outcome)
    requires Balanced(r) && AllSeen(r, manifest, inspect) && Distinct(manifest) && GoodOracle(inspect)
    ensures r.run.matched == |Those(manifest, k => LastLook(inspect, k) == Observed(Evidence.Matched))|
    ensures r.run.mismatch
         == |Those(manifest, k => LastLook(inspect, k).Observed? && LastLook(inspect, k).status != Evidence.Matched)|
    ensures r.run.accessFailed == |Those(manifest, k => inspect(k, 0).Raised? && inspect(k, 1).Raised?)|
  {
    hide Count, Those;
    CountsAreKeys(r.items, manifest, IsMatched, k => LastLook(inspect, k) == Observed(Evidence.Matched));
    CountsAreKeys(r.items, manifest, IsMismatch,
      k => LastLook(inspect, k).Observed? && LastLook(inspect, k).status != Evidence.Matched);
    CountsAreKeys(r.items, manifest, IsAccessFailed, k => inspect(k, 0).Raised? && inspect(k, 1).Raised?);
  }
}
