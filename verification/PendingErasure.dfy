/**
When a cleanup erases what is shown of a pending item (src/oa_knowledge/pending_cleanup.py): over any
run, once, and after a failure only when asked again.
*/
module PendingErasure {
  import opened Wrappers
  import opened PendingSync

  /** The policy lets this kind of cleanup run. */
  predicate Permitted(p: Policy, force: bool) {
    if force then p.allowForce else p.auto
  }

  predicate Cleanable(c: CleanupStatus, force: bool, retry: bool) {
    c in {NotEligible, PendingCleanup} || (c == CleanupFailed && (force || retry))
  }

  /** A delivered, permitted cleanup without a fault erases exactly what has not been cleaned yet. */
  lemma ErasesIff(l: Ledger, key: string, p: Policy, force: bool, retry: bool)
    requires key in l.rows && l.rows[key].shown.Some? && Permitted(p, force)
    ensures Cleanup(l, key, Some(Sent), p, force, retry, false).rows[key].shown == None
            <==> Cleanable(l.rows[key].cleanup, force, retry)
  {
  }

  // --- what a run has done to a row ---

  /** The event is a cleanup of the row that is allowed to go ahead. */
  predicate GoesAhead(l: Ledger, e: Event, key: string) {
    && e.CleanupEvent? && e.key == key && key in l.rows
    && Eligibility(l.rows[key], e.delivery, e.policy, e.force, e.retry).None?
  }

  predicate CleansRow(l: Ledger, e: Event, key: string) {
    GoesAhead(l, e, key) && !e.fault
  }

  predicate FailsRow(l: Ledger, e: Event, key: string) {
    GoesAhead(l, e, key) && e.fault
  }

  ghost predicate CleanedAt(l: Ledger, events: seq<Event>, key: string, n: int) {
    0 <= n < |events| && CleansRow(Run(l, events[..n]), events[n], key)
  }

  ghost predicate FailedAt(l: Ledger, events: seq<Event>, key: string, n: int) {
    0 <= n < |events| && FailsRow(Run(l, events[..n]), events[n], key)
  }

  /** Some event of the run cleaned the row. */
  ghost predicate EverCleaned(l: Ledger, events: seq<Event>, key: string) {
    exists n :: CleanedAt(l, events, key, n)
  }

  ghost predicate EverFailed(l: Ledger, events: seq<Event>, key: string) {
    exists n :: FailedAt(l, events, key, n)
  }

  lemma AtInPrefix(l: Ledger, events: seq<Event>, key: string, n: nat)
    requires n < |events|
    ensures var init := events[..|events| - 1];
      if n < |init| then
        && (CleanedAt(l, init, key, n) <==> CleanedAt(l, events, key, n))
        && (FailedAt(l, init, key, n) <==> FailedAt(l, events, key, n))
      else
        && (CleanedAt(l, events, key, n) <==> CleansRow(Run(l, init), events[n], key))
        && (FailedAt(l, events, key, n) <==> FailsRow(Run(l, init), events[n], key))
  {
    hide CleansRow, FailsRow, Run;
    var init := events[..|events| - 1];
    if n < |init| {
      assert init[..n] == events[..n];
    }
  }

  lemma EverStep(l: Ledger, events: seq<Event>, key: string)
    requires events != []
    ensures var init, e := events[..|events| - 1], events[|events| - 1];
      && (EverCleaned(l, events, key) <==> EverCleaned(l, init, key) || CleansRow(Run(l, init), e, key))
      && (EverFailed(l, events, key) <==> EverFailed(l, init, key) || FailsRow(Run(l, init), e, key))
  {
    hide CleansRow, FailsRow, Run;
    forall n: nat | n < |events| {
      AtInPrefix(l, events, key, n);
    }
  }

  /** The cleanup column of a row, from what the run did to it. */
  ghost predicate ColumnSays(c: CleanupStatus, cleaned: bool, failed: bool) {
    if cleaned then c == CleanedUp else if failed then c == CleanupFailed else c in {NotEligible, PendingCleanup}
  }

  lemma StepColumn(l: Ledger, e: Event, key: string, cleaned: bool, failed: bool)
    requires key in l.rows ==> ColumnSays(l.rows[key].cleanup, cleaned, failed)
    requires key !in l.rows ==> !cleaned && !failed
    ensures var u := Step(l, e);
      && (key in l.rows ==> key in u.rows)
      && (key in u.rows ==> ColumnSays(u.rows[key].cleanup, cleaned || CleansRow(l, e, key), failed ||
        FailsRow(l, e, key)))
      && (key !in u.rows ==> !CleansRow(l, e, key) && !FailsRow(l, e, key))
  {
    if e.SyncEvent? {
      SyncColumn(l, e.items, e.mode, |e.items|, key);
      hide SyncItems;
    }
  }

  /** A synchronisation leaves the column of a row, and a new row starts without one. */
  lemma {:induction false} SyncColumn(l: Ledger, items: seq<Item>, mode: Mode, n: nat, key: string)
    requires n <= |items|
    ensures var u := SyncItems(l, items, mode, n).0;
      if key in l.rows then key in u.rows && u.rows[key].cleanup == l.rows[key].cleanup
      else key in u.rows ==> u.rows[key].cleanup == NotEligible
  {
    if n > 0 {
      SyncColumn(l, items, mode, n - 1, key);
    }
  }

  /** The column says exactly whether the run has cleaned the row, or tried to and failed. */
  lemma {:induction false} ColumnIsHistory(l: Ledger, events: seq<Event>, key: string)
    requires key !in l.rows
    ensures var u := Run(l, events);
      && (key in u.rows ==> ColumnSays(u.rows[key].cleanup, EverCleaned(l, events, key), EverFailed(l, events, key)))
      && (key !in u.rows ==> !EverCleaned(l, events, key) && !EverFailed(l, events, key))
  {
    if events != [] {
      var init, e := events[..|events| - 1], events[|events| - 1];
      ColumnIsHistory(l, init, key);
      EverStep(l, events, key);
      hide Step, CleansRow, FailsRow, ColumnSays, EverCleaned, EverFailed;
      StepColumn(Run(l, init), e, key, EverCleaned(l, init, key), EverFailed(l, init, key));
    }
  }

  /**
  After any run, a delivered and permitted cleanup without a fault erases what is shown of a row if
  and only if the run has not cleaned it before, and has not failed to unless the cleanup is forced or
  a retry. A row that is discovered again after its cleanup is therefore never erased again.
  */
  lemma ErasesOverRunsIff(l: Ledger, events: seq<Event>, key: string, p: Policy, force: bool, retry: bool)
    requires key !in l.rows && key in Run(l, events).rows && Run(l, events).rows[key].shown.Some? && Permitted(p, force)
    ensures Cleanup(Run(l, events), key, Some(Sent), p, force, retry, false).rows[key].shown == None
            <==> !EverCleaned(l, events, key) && (EverFailed(l, events, key) ==> force || retry)
  {
    ColumnIsHistory(l, events, key);
    ErasesIff(Run(l, events), key, p, force, retry);
    hide Run, Cleanup, EverCleaned, EverFailed;
  }

  /** Whatever is erased was delivered, and the policy permits it. */
  lemma ErasedMeansDelivered(l: Ledger, e: Event, key: string)
    requires GoesAhead(l, e, key)
    ensures e.delivery == Some(Sent) && Permitted(e.policy, e.force) && Cleanable(l.rows[key].cleanup, e.force, e.retry)
  {
  }
}
