/**
What others may ask of an audit and what comes of it (src/oa_knowledge/online_audit.py): looking at an item
again after a supplement or a recapture, pausing, and resuming.
*/
module AuditRequests {
  import opened Wrappers
  import Evidence = AuditEvidence
  import opened AuditLedger
  import opened AuditProtocol

  /** The item with the key is pending again, without a reason, and the others are as they were. */
  ghost predicate LooksAgain(before: seq<Item>, after: seq<Item>, key: string) {
    && |after| == |before|
    && forall i :: 0 <= i < |before| ==>
         after[i] == if before[i].key == key then before[i].(status := Evidence.Pending, reason := false) else before[i]
  }

  predicate HasIn(items: seq<Item>, key: string, p: Status -> bool) {
    exists i :: 0 <= i < |items| && items[i].key == key && p(items[i].status)
  }

  /** The run goes on with the item, unless it is paused or about to be. */
  function GoesOn(status: RunStatus): RunStatus {
    if status in {Paused, PauseRequested} then status else Queued
  }

  lemma FoundIsOnly(items: seq<Item>, key: string)
    requires DistinctKeys(items)
    ensures var i := ItemIndex(items, key, 0);
      if i.Some? then forall k :: 0 <= k < |items| ==> (items[k].key == key <==> k == i.value)
      else forall k :: 0 <= k < |items| ==> items[k].key != key
  {
    var i := ItemIndex(items, key, 0);
    if i.Some? {
      forall k | 0 <= k < |items| ensures items[k].key == key <==> k == i.value {
        assert k != i.value ==> items[k].key != items[i.value].key;
      }
    }
  }

  lemma ReopenMeans(l: Ledger, key: string)
    requires DistinctKeys(l.items) && ItemIndex(l.items, key, 0).Some?
    ensures var u := Reopen(l, ItemIndex(l.items, key, 0).value);
      LooksAgain(l.items, u.items, key) && u.run.status == GoesOn(l.run.status) && u.job == l.job &&
      u.run.pauseAsked == l.run.pauseAsked
  {
    FoundIsOnly(l.items, key);
    hide Count, DistinctKeys, ItemIndex;
  }

  /** After a supplement the item is looked at again exactly if it was missing a download. */
  lemma SupplementMeans(l: Ledger, key: string)
    requires DistinctKeys(l.items)
    ensures var u := RequeueSupplemented(l, key);
      if HasIn(l.items, key, (s: Status) => s.MissingDownload?)
      then LooksAgain(l.items, u.items, key) && u.run.status == GoesOn(l.run.status)
      else u == l
  {
    FoundIsOnly(l.items, key);
    hide Reopen, DistinctKeys, LooksAgain, ItemIndex;
    var i := ItemIndex(l.items, key, 0);
    if i.Some? {
      ReopenMeans(l, key);
      if HasIn(l.items, key, (s: Status) => s.MissingDownload?) {
        var k :| 0 <= k < |l.items| && l.items[k].key == key && l.items[k].status.MissingDownload?;
      }
    }
  }

  /**
  After a recapture the missing manifest rows are enrolled, and the item is looked at again exactly if its
  status was final; a failed or superseded run is left alone.
  */
  lemma RecaptureMeans(l: Ledger, key: string, manifest: seq<string>)
    requires Balanced(l) && Distinct(manifest)
    ensures var (u, e) := (RequeueChanged(l, key, manifest), Enroll(l, manifest));
      if l.run.status in {Failed, Superseded} then u == l
      else if HasIn(e.items, key, (s: Status) => !Open(s))
      then LooksAgain(e.items, u.items, key) && u.run.status == GoesOn(e.run.status)
      else u == e
  {
    EnrollKeepsBalanced(l, manifest);
    var e := Enroll(l, manifest);
    assert DistinctKeys(e.items);
    hide Reopen, DistinctKeys, LooksAgain, Enroll, Balanced, ItemIndex;
    FoundIsOnly(e.items, key);
    var i := ItemIndex(e.items, key, 0);
    if i.Some? {
      ReopenMeans(e, key);
      if HasIn(e.items, key, (s: Status) => !Open(s)) {
        var k :| 0 <= k < |e.items| && e.items[k].key == key && !Open(e.items[k].status);
      }
    }
  }

  /** Enrolled items are pending, without a look or a reason, and have the missing keys. */
  lemma EnrolledMeans(l: Ledger, manifest: seq<string>)
    ensures var e := Enroll(l, manifest);
      && l.items <= e.items
      && forall i :: |l.items| <= i < |e.items| ==>
        && e.items[i] == Item(e.items[i].key, Evidence.Pending, false, 0)
        && e.items[i].key in manifest && !HasKey(l.items, e.items[i].key)
  {
    var e, missing := Enroll(l, manifest), Missing(l.items, manifest);
    MissingMeans(l.items, manifest);
    hide HasKey, Missing;
    forall i | |l.items| <= i < |e.items| ensures e.items[i].key in missing {
      assert e.items[i].key == missing[i - |l.items|];
    }
  }

  /** A pause is asked of a queued or running audit only, and it is paused at once while its job is waiting. */
  lemma PauseMeans(l: Ledger, jobQueued: bool)
    ensures var u := OutsideStep(l, AskPause(jobQueued));
      && u.items == l.items && u.job == l.job
      && u.run.pauseAsked == (l.run.pauseAsked || l.run.status in {RunStatus.Queued, RunStatus.Running})
      && u.run.status == (if l.run.status !in {RunStatus.Queued, RunStatus.Running} then l.run.status
                          else if jobQueued then Paused else PauseRequested)
  {
  }

  /**
  What was paused, is about to be, or has failed goes on when it is resumed, if it has its job; nothing else
  does.
  */
  lemma ResumeMeans(l: Ledger)
    ensures var u := OutsideStep(l, Resume);
      if l.run.status in {Paused, PauseRequested, RunStatus.Failed} && l.job.Some?
      then u == l.(run := l.run.(pauseAsked := false, status := RunStatus.Queued))
      else u == l
  {
  }

  /** Starting a new audit supersedes a run that is not over, and no other. */
  lemma SupersedeMeans(l: Ledger)
    ensures var u := OutsideStep(l, Supersede);
      if l.run.status in {Completed, RunStatus.Failed, Superseded} then u == l
      else u == l.(run := l.run.(status := Superseded))
  {
    var s := l.run.status;
    assert s.Queued? || s.Running? || s.PauseRequested? || s.Paused? || s.Completed? || s.Failed? || s.Superseded?;
  }
}
