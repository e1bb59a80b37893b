/**
The pending ledger in place (src/oa_knowledge/pending_sync.py, src/oa_knowledge/pending_cleanup.py).
*/
module PendingStore {
  import opened Wrappers
  import opened PendingSync

  class Store {
    var rows: map<string, Occurrence>
    var tasks: seq<Task>

    constructor ()
      ensures Contents() == Ledger(map[], [])
    {
      rows, tasks := map[], [];
    }

    function Contents(): Ledger
      reads this
    {
      Ledger(rows, tasks)
    }

    method SyncPendingDiscovery(items: seq<Item>, mode: Mode, authoritative: bool) returns (t: Tally)
      modifies this
      ensures (Contents(), t) == Sync(old(Contents()), items, mode, authoritative)
    {
      hide SyncItem, TallyItem;
      t := Tally(0, 0, 0, 0, 0);
      for n := 0 to |items|
        invariant (Contents(), t) == SyncItems(old(Contents()), items, mode, n)
      {
        t := Discover(items[n], mode, t);
      }
      if authoritative {
        var listed := set i | i in items :: KeyOf(i);
        assert listed == Listed(items);
        var closed := CloseMissing(listed);
        t := t.(closed := closed);
      }
    }

    /** One item of the list: its row, and a task if it is new or changed. */
    method Discover(item: Item, mode: Mode, sofar: Tally) returns (t: Tally)
      modifies this
      ensures Contents() == SyncItem(old(Contents()), item, mode)
      ensures t == TallyItem(sofar, old(Contents()), item)
    {
      t := sofar;
      var key := KeyOf(item);
      var occurrence := Occurrence(true, Active, None, None, NotEligible);
      var enqueue := true;
      if key !in rows {
        t := t.(created := t.created + 1);
      } else {
        occurrence := rows[key];
        if occurrence.status != Active {
          occurrence := occurrence.(status := Active);
          t := t.(reactivated := t.reactivated + 1);
        }
        enqueue := occurrence.hash != Some(item.content);
        if enqueue {
          t := t.(updated := t.updated + 1);
        } else {
          t := t.(same := t.same + 1);
        }
      }
      occurrence := occurrence.(shown := Some(item.content), hash := Some(item.content));
      rows := rows[key := occurrence];
      if mode != Disabled && enqueue && !HasTask(tasks, key, item.content) {
        tasks := tasks + [Task(key, item.content, mode == Normal, mode == Baseline)];
      }
    }

    /** The rows that the list does not name, one after the other. */
    method CloseMissing(listed: set<string>) returns (closed: nat)
      modifies this`rows
      ensures rows == Close(old(rows), listed)
      ensures closed == |ActiveKeys(old(rows)) - listed|
    {
      rows, closed := CloseEach(rows, listed);
    }

    /** Erases what was shown, or says why not; a fault while removing files is kept as a failed cleanup. */
    method PerformCleanup(key: string, delivery: Option<Delivery>, policy: Policy, force: bool, retry: bool,
        fault: bool) returns (refusal: Option<Refusal>)
      requires key in rows
      modifies this`rows
      ensures Contents() == Cleanup(old(Contents()), key, delivery, policy, force, retry, fault)
      ensures refusal == Eligibility(old(rows)[key], delivery, policy, force, retry)
      ensures refusal.Some? ==> rows == old(rows)
      ensures refusal.None? ==> delivery == Some(Sent) && (if force then policy.allowForce else policy.auto)
      ensures refusal.None? ==>
        rows[key].cleanup == (if fault then CleanupFailed else CleanedUp) &&
          rows[key].shown == (if fault then old(rows)[key].shown else None) &&
          rows[key].status == (if fault then old(rows)[key].status else Cleaned)
      ensures rows.Keys == old(rows).Keys && rows[key].hash == old(rows)[key].hash
      ensures forall k :: k in rows && k != key ==> rows[k] == old(rows)[k]
    {
      refusal := Eligibility(rows[key], delivery, policy, force, retry);
      if refusal.Some? {
        return;
      }
      var occurrence := rows[key].(cleanup := Cleaning);
      if fault {
        occurrence := occurrence.(cleanup := CleanupFailed);
      } else {
        occurrence := occurrence.(shown := None);
        occurrence := occurrence.(cleanup := CleanedUp, status := Cleaned);
      }
      rows := rows[key := occurrence];
    }
  }

  method CloseEach(before: map<string, Occurrence>, listed: set<string>)
      returns (rows: map<string, Occurrence>, closed: nat)
    ensures rows == Close(before, listed)
    ensures closed == |ActiveKeys(before) - listed|
  {
    hide Close, ActiveKeys, ClosedSome;
    rows, closed := before, 0;
    var active := ActiveKeys(before);
    ghost var done: set<string> := {};
    NoneClosed(before, listed);
    while active != {}
      invariant active !! done && active + done == ActiveKeys(before)
      invariant rows == ClosedSome(before, done, listed)
      invariant closed == |done - listed|
      decreases |active|
    {
      var k :| k in active;
      ActiveIsRow(before, k);
      CloseOne(before, done, listed, k);
      active := active - {k};
      if k !in listed {
        rows := rows[k := rows[k].(status := Inactive)];
        closed := closed + 1;
      }
      done := done + {k};
    }
    assert done == ActiveKeys(before);
    AllClosed(before, listed);
  }

  lemma ActiveIsRow(rows: map<string, Occurrence>, k: string)
    requires k in ActiveKeys(rows)
    ensures k in rows
  {
  }

  /** The rows when the active ones in `done` have been looked at. */
  ghost function ClosedSome(rows: map<string, Occurrence>, done: set<string>, listed: set<string>): map<string,
      Occurrence> {
    map k | k in rows :: if k in done && k !in listed then rows[k].(status := Inactive) else rows[k]
  }

  lemma NoneClosed(rows: map<string, Occurrence>, listed: set<string>)
    ensures ClosedSome(rows, {}, listed) == rows
  {
  }

  lemma CloseOne(rows: map<string, Occurrence>, done: set<string>, listed: set<string>, k: string)
    requires k in rows && k !in done
    ensures k in ClosedSome(rows, done, listed) && ClosedSome(rows, done, listed)[k] == rows[k]
    ensures ClosedSome(rows, done + {k}, listed)
            == if k in listed then ClosedSome(rows, done, listed)
              else ClosedSome(rows, done, listed)[k := rows[k].(status := Inactive)]
    ensures |done + {k} - listed| == |done - listed| + if k in listed then 0 else 1
  {
    assert done + {k} - listed == if k in listed then done - listed else done - listed + {k};
  }

  lemma AllClosed(rows: map<string, Occurrence>, listed: set<string>)
    ensures ClosedSome(rows, ActiveKeys(rows), listed) == Close(rows, listed)
  {
  }
}
