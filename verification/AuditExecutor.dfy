/**
An audit batch as the program performs it: the run's row, its items and its job row, each updated
in place (src/oa_knowledge/online_audit.py).
*/
module AuditExecutor {
  import opened Wrappers
  import Evidence = AuditEvidence
  import opened AuditLedger
  import opened AuditProtocol
  import opened AuditBatch
  import opened AuditTruth

  class AuditRun {
    var run: Run
    var items: seq<Item>
    var job: Option<Job>

    function Contents(): Ledger
      reads this
    {
      Ledger(run, items, job)
    }

    /** One pass over the statuses, as the grouped query delivers them. */
    method RefreshRunCounts()
      modifies this`run
      ensures run == Refresh(old(run), items)
    {
      var final, matched, mismatch, failed := 0, 0, 0, 0;
      var i := 0;
      while i < |items|
        invariant i <= |items|
        invariant final == Count(items[..i], IsFinal) && matched == Count(items[..i], IsMatched)
        invariant mismatch == Count(items[..i], IsMismatch) && failed == Count(items[..i], IsAccessFailed)
      {
        var s := items[i].status;
        if !Open(s) { final := final + 1; }
        if s.Matched? { matched := matched + 1; }
        if Mismatch(s) { mismatch := mismatch + 1; }
        if s.AccessFailed? { failed := failed + 1; }
        assert items[..i + 1][..i] == items[..i];
        i := i + 1;
      }
      assert items[..|items|] == items;
      run := run.(completed := final, matched := matched, mismatch := mismatch, accessFailed := failed);
    }

    /** Adds the manifest rows that the run does not have, as pending items; afterwards it has all of them. */
    method EnrollNewManifestItems(manifest: seq<string>) returns (added: nat)
      modifies this`run, this`items
      ensures Contents() == Enroll(old(Contents()), manifest)
      ensures added == |items| - |old(items)|
      ensures Balanced(old(Contents())) && Distinct(manifest) ==>
        Balanced(Contents()) && forall k :: k in manifest ==> HasKey(items, k)
    {
      if Balanced(Contents()) && Distinct(manifest) {
        EnrollKeepsBalanced(Contents(), manifest);
      }
      var missing := MissingRows(manifest);
      if missing == [] {
        return 0;
      }
      ghost var start := items;
      for n := 0 to |missing|
        invariant run == old(run) && items == start + Fresh(missing[..n])
      {
        assert missing[..n + 1] == missing[..n] + [missing[n]];
        items := items + [Item(missing[n], Evidence.Pending, false, 0)];
      }
      assert missing[..|missing|] == missing;
      run := run.(total := |items|);
      if run.status == Completed {
        run := run.(status := Queued);
      }
      added := |missing|;
    }

    method MissingRows(manifest: seq<string>) returns (missing: seq<string>)
      ensures missing == Missing(items, manifest)
    {
      missing := [];
      for n := 0 to |manifest|
        invariant missing == Missing(items, manifest[..n])
      {
        MissingAppend(items, manifest[..n], manifest[n]);
        assert manifest[..n + 1] == manifest[..n] + [manifest[n]];
        var enrolled := exists i :: 0 <= i < |items| && items[i].key == manifest[n];
        if !enrolled {
          missing := missing + [manifest[n]];
        }
      }
      assert manifest[..|manifest|] == manifest;
    }

    method BeginBatch(manifest: seq<string>, repaired: nat -> Option<Status>)
      modifies this
      ensures Contents() == AuditLedger.Begin(old(Contents()), manifest, repaired)
    {
      hide Count, Refresh, Enroll, Balanced;
      var _ := EnrollNewManifestItems(manifest);
      ghost var e := Contents();
      var requeued, repairs := 0, 0;
      var i := 0;
      while i < |items|
        invariant i <= |items| == |e.items| && run == e.run && job == e.job
        invariant forall k :: 0 <= k < i ==> items[k] == Recover(e.items[k], repaired(k))
        invariant forall k :: i <= k < |items| ==> items[k] == e.items[k]
        invariant requeued + repairs > 0 <==>
          exists k :: 0 <= k < i && (LacksReason(e.items[k]) || Repairs(e.items[k], repaired(k)))
      {
        var it := items[i];
        if it.status.Running? {
          it := it.(status := Evidence.Pending);
        } else if LacksReason(it) {
          it := it.(status := Evidence.Pending);
          requeued := requeued + 1;
        } else if Repairs(it, repaired(i)) {
          it := it.(status := repaired(i).value);
          repairs := repairs + 1;
        }
        items := items[i := it];
        i := i + 1;
      }
      assert items == RecoverAll(e.items, repaired);
      if requeued + repairs > 0 {
        RefreshRunCounts();
      }
      run := run.(status := Running);
    }

    /**
    Records what came of an inspection: the item has the observed status, or that of an item that could not
    be reached, and one look more; the others are as they were, and the counters are right again.
    */
    method FinishInspection(i: nat, outcome: Outcome)
      requires i < |items| && (outcome.Observed? ==> Verdict(outcome.status))
      modifies this`run, this`items
      ensures Contents() == FinishItem(old(Contents()), i, outcome)
      ensures |items| == |old(items)| && !Open(items[i].status) && items[i].looks == old(items[i].looks) + 1
      ensures Says(items[i].status, outcome) && items[i].key == old(items[i].key)
      ensures items[i].reason <==> outcome.Observed? || outcome.reason
      ensures forall k :: 0 <= k < |items| && k != i ==> items[k] == old(items[k])
      ensures Balanced(old(Contents())) && old(run.status) != Completed ==> Balanced(Contents())
    {
      ghost var before := Contents();
      var it := items[i];
      match outcome {
        case Observed(s) => it := it.(status := s, reason := true, looks := it.looks + 1);
        case Raised(r) => it := it.(status := Evidence.AccessFailed, reason := r, looks := it.looks + 1);
      }
      items := items[i := it];
      RefreshRunCounts();
      if Balanced(before) && before.run.status != Completed {
        RefreshBalances(before, items, before.run.status);
      }
    }

    /** The last transaction: a retry round for the items that could not be reached, or completion. */
    method CloseRun()
      modifies this
      ensures Contents() == Close(old(Contents()))
      ensures run.status in {Queued, Completed}
      ensures run.status == Completed ==> items == old(items)
      ensures run.status == Queued ==> forall i :: 0 <= i < |items| ==> !items[i].status.AccessFailed?
      ensures Balanced(old(Contents())) ==>
        (Balanced(Contents()) <==> !(run.status == Completed && exists i :: 0 <= i < |items| && Open(items[i].status)))
    {
      ghost var before := Contents();
      if Balanced(before) {
        CloseIsHonestIff(before);
      }
      var round := if job.Some? then job.value.retryRound else 0;
      var failed := CountFailed();
      if failed > 0 && round < 1 {
        RetryItems();
        RefreshRunCounts();
        run := run.(status := Queued);
        if job.Some? {
          job := Some(Job(1));
        }
        return;
      }
      RefreshRunCounts();
      run := run.(status := Completed);
    }

    method CountFailed() returns (failed: nat)
      ensures failed == Count(items, IsAccessFailed)
    {
      failed := 0;
      for i := 0 to |items|
        invariant failed == Count(items[..i], IsAccessFailed)
      {
        assert items[..i + 1][..i] == items[..i];
        if items[i].status.AccessFailed? {
          failed := failed + 1;
        }
      }
      assert items[..|items|] == items;
    }

    method RetryItems()
      modifies this`items
      ensures items == RetryFailures(old(items))
      ensures forall i :: 0 <= i < |items| ==> !items[i].status.AccessFailed?
    {
      ghost var want := RetryFailures(items);
      for i := 0 to |items|
        invariant |items| == |old(items)|
        invariant forall k :: 0 <= k < i ==> items[k] == want[k]
        invariant forall k :: i <= k < |items| ==> items[k] == old(items)[k]
      {
        if items[i].status.AccessFailed? {
          items := items[i := items[i].(status := Evidence.Pending)];
        }
      }
      assert items == want;
    }

    /** What others did to the run since the executor's last transaction. */
    method Interfere(events: seq<Event>)
      modifies this
      ensures Contents() == OutsideAll(old(Contents()), events)
    {
      for n := 0 to |events|
        invariant Contents() == OutsideAll(old(Contents()), events[..n])
      {
        assert events[..n + 1][..n] == events[..n];
        var l := OutsideStep(Contents(), events[n]);
        run, items, job := l.run, l.items, l.job;
      }
      assert events[..|events|] == events;
    }

    /** Before an item: pause if that is wanted, take the first pending item, or leave the loop. */
    method LoopOnce(x: Input, done: nat, tick: nat) returns (phase: Phase)
      modifies this
      ensures State(Contents(), phase) == Next(State(old(Contents()), Looping(done)), x, tick)
    {
      Interfere(x.others(tick));
      if run.pauseAsked {
        run := run.(status := Paused);
        return Idle;
      }
      var next := FirstPending(items, 0);
      if next.None? {
        return Checking;
      }
      items := items[next.value := items[next.value].(status := Evidence.Running)];
      phase := Inspecting(done, next.value);
    }

    method InspectOnce(x: Input, done: nat, i: nat, tick: nat) returns (phase: Phase)
      requires GoodOracle(x.inspect) && i < |OutsideAll(Contents(), x.others(tick)).items|
      modifies this
      ensures State(Contents(), phase) == Next(State(old(Contents()), Inspecting(done, i)), x, tick)
    {
      hide Refresh;
      Interfere(x.others(tick));
      var outcome := x.inspect(items[i].key, items[i].looks);
      FinishInspection(i, outcome);
      phase := if done + 1 >= x.budget then Checking else Looping(done + 1);
    }

    method CheckOnce(x: Input, tick: nat) returns (phase: Phase)
      modifies this
      ensures State(Contents(), phase) == Next(State(old(Contents()), Checking), x, tick)
    {
      hide Enroll, Balanced;
      Interfere(x.others(tick));
      var _ := EnrollNewManifestItems(x.manifest);
      if FirstPending(items, 0).None? {
        return Closing;
      }
      run := run.(status := Queued);
      phase := Idle;
    }

    /** One call: others act before each of its transactions, and it looks for a wanted pause before each item. */
    method ExecuteAudit(x: Input)
      requires Balanced(Contents()) && ProperInput(x)
      modifies this
      ensures State(Contents(), Idle) == Batch(old(Contents()), x)
      ensures Balanced(Contents()) <==>
        !(run.status == Completed && exists i :: 0 <= i < |items| && Open(items[i].status))
      ensures AllRecorded(old(items), x) ==> AllRecorded(items, x)
    {
      assert GoodOracle(x.inspect);
      hide *;
      ghost var was := Contents();
      assert AllRecorded(was.items, x) ==> AllRecorded(Batch(was, x).ledger.items, x) by {
        if AllRecorded(was.items, x) {
          CallRecordsLooks(was, x);
        }
      }
      BatchIsBalanced(was, x);
      BatchStarts(was, x);
      BeginBatch(x.manifest, x.repaired);
      var phase, tick := Looping(0), 0;
      while phase.Looping?
        invariant phase != Idle ==> Good(State(Contents(), phase))
        invariant Rest(State(Contents(), phase), x, tick) == Batch(was, x)
        invariant !phase.Inspecting? && !phase.Closing?
        decreases Rank(phase, x.budget)
      {
        RestGoesOn(State(Contents(), phase), x, tick);
        phase := LoopOnce(x, phase.done, tick);
        tick := tick + 1;
        if phase.Inspecting? {
          RestGoesOn(State(Contents(), phase), x, tick);
          phase := InspectOnce(x, phase.done, phase.item, tick);
          tick := tick + 1;
        }
      }
      if phase.Checking? {
        RestGoesOn(State(Contents(), phase), x, tick);
        phase := CheckOnce(x, tick);
        tick := tick + 1;
        if phase.Closing? {
          RestGoesOn(State(Contents(), phase), x, tick);
          Interfere(x.others(tick));
          CloseRun();
          phase := Idle;
        }
      }
      RestEnds(Contents(), x, tick);
    }
  }
}
