/**
Exactly-once work for pending items (src/oa_knowledge/pending_sync.py): over any run of
synchronisations and cleanups, which tasks exist is a function of what was seen, in which order and mode.
*/
module PendingHistory {
  import opened Sequences
  import opened Wrappers
  import opened PendingSync

  /** One item as it was seen. */
  datatype Sighting = Sighting(key: string, content: string, mode: Mode)

  function Sightings(items: seq<Item>, mode: Mode): (r: seq<Sighting>)
    ensures |r| == |items|
  {
    if items == [] then []
    else Sightings(items[..|items| - 1], mode) + [Sighting(KeyOf(items[|items| - 1]), items[|items| - 1].content, mode)]
  }

  /** Everything seen in a run. */
  function Seen(events: seq<Event>): seq<Sighting> {
    if events == [] then []
    else
      var e := events[|events| - 1];
      Seen(events[..|events| - 1]) + if e.SyncEvent? then Sightings(e.items, e.mode) else []
  }

  /** What was seen last under a key, in whatever mode. */
  function LastSeen(seen: seq<Sighting>, key: string): Option<string> {
    if seen == [] then None
    else if seen[|seen| - 1].key == key then Some(seen[|seen| - 1].content)
    else LastSeen(seen[..|seen| - 1], key)
  }

  /** A sighting that starts work: not in disabled mode, and different from what was seen last. */
  predicate Starts(seen: seq<Sighting>, i: int)
    requires 0 <= i < |seen|
  {
    seen[i].mode != Disabled && LastSeen(seen[..i], seen[i].key) != Some(seen[i].content)
  }

  predicate Of(s: Sighting, key: string, content: string) {
    s.key == key && s.content == content
  }

  ghost predicate Started(seen: seq<Sighting>, n: nat, key: string, content: string)
    requires n <= |seen|
  {
    exists i :: 0 <= i < n && Of(seen[i], key, content) && Starts(seen, i)
  }

  /** One task for each pair that started, in the order of the first start. */
  ghost function Work(seen: seq<Sighting>, n: nat): seq<Task>
    requires n <= |seen|
  {
    if n == 0 then []
    else
      var s := seen[n - 1];
      Work(seen, n - 1)
        + if Starts(seen, n - 1) && !Started(seen, n - 1, s.key, s.content)
          then [Task(s.key, s.content, s.mode == Normal, s.mode == Baseline)] else []
  }

  // --- the ledger agrees with the history ---

  /** Nothing pending yet. */
  ghost predicate Fresh(l: Ledger) {
    l.tasks == [] && forall k :: k in l.rows ==> !("pending:" <= k)
  }

  ghost predicate Agrees(l: Ledger, seen: seq<Sighting>) {
    && l.tasks == Work(seen, |seen|)
    && forall k :: "pending:" <= k ==> RowAgrees(l, seen, k)
  }

  ghost predicate RowAgrees(l: Ledger, seen: seq<Sighting>, k: string) {
    if k in l.rows then l.rows[k].hash.Some? && l.rows[k].hash == LastSeen(seen, k) else LastSeen(seen, k) == None
  }

  lemma {:induction false} WorkHas(seen: seq<Sighting>, n: nat, key: string, content: string)
    requires n <= |seen|
    ensures HasTask(Work(seen, n), key, content) <==> Started(seen, n, key, content)
  {
    if n > 0 {
      WorkHas(seen, n - 1, key, content);
      var before, after := Work(seen, n - 1), Work(seen, n);
      assert before <= after;
      hide Starts;
      StartedStep(seen, n, key, content);
      if HasTask(before, key, content) {
        var i :| 0 <= i < |before| && before[i].key == key && before[i].hash == content;
        assert after[i].key == key;
      } else if Of(seen[n - 1], key, content) && Starts(seen, n - 1) {
        assert after[|before|].key == key && after[|before|].hash == content;
      }
    }
  }

  lemma StartedStep(seen: seq<Sighting>, n: nat, key: string, content: string)
    requires 0 < n <= |seen|
    ensures Started(seen, n, key, content) <==>
      Started(seen, n - 1, key, content) || (Of(seen[n - 1], key, content) && Starts(seen, n - 1))
  {
    hide Starts;
  }

  /** Seeing more does not change what was started before. */
  lemma {:induction false} WorkGrows(seen: seq<Sighting>, more: seq<Sighting>, n: nat)
    requires n <= |seen|
    ensures Work(seen + more, n) == Work(seen, n)
    ensures forall k, c :: Started(seen + more, n, k, c) <==> Started(seen, n, k, c)
  {
    if n > 0 {
      WorkGrows(seen, more, n - 1);
      assert (seen + more)[..n - 1] == seen[..n - 1];
      assert Starts(seen + more, n - 1) <==> Starts(seen, n - 1);
      hide Starts;
      forall k, c ensures Started(seen + more, n, k, c) <==> Started(seen, n, k, c) {
        StartedStep(seen, n, k, c);
        StartedStep(seen + more, n, k, c);
      }
    }
  }

  lemma LastSeenAppend(seen: seq<Sighting>, s: Sighting, key: string)
    ensures LastSeen(seen + [s], key) == if s.key == key then Some(s.content) else LastSeen(seen, key)
  {
    assert (seen + [s])[..|seen|] == seen;
  }

  /** One item of a list. */
  lemma ItemAgrees(l: Ledger, seen: seq<Sighting>, i: Item, mode: Mode)
    requires Agrees(l, seen)
    ensures Agrees(SyncItem(l, i, mode), seen + [Sighting(KeyOf(i), i.content, mode)])
  {
    ItemKey(i);
    var s := Sighting(KeyOf(i), i.content, mode);
    var after, n := seen + [s], |seen|;
    assert RowAgrees(l, seen, s.key);
    WorkGrows(seen, [s], n);
    WorkHas(seen, n, s.key, s.content);
    assert after[..n] == seen;
    hide KeyOf, HasTask, Started;
    assert Starts(after, n) <==> mode != Disabled && Moves(l, i);
    forall k | "pending:" <= k ensures RowAgrees(SyncItem(l, i, mode), after, k) {
      LastSeenAppend(seen, s, k);
      assert RowAgrees(l, seen, k);
    }
  }

  lemma {:induction false} ItemsAgree(l: Ledger, seen: seq<Sighting>, items: seq<Item>, mode: Mode, n: nat)
    requires Agrees(l, seen) && n <= |items|
    ensures Agrees(SyncItems(l, items, mode, n).0, seen + Sightings(items[..n], mode))
  {
    hide Agrees, SyncItem, TallyItem;
    if n == 0 {
      assert seen + Sightings(items[..0], mode) == seen;
    } else {
      ItemsAgree(l, seen, items, mode, n - 1);
      ItemAgrees(SyncItems(l, items, mode, n - 1).0, seen + Sightings(items[..n - 1], mode), items[n - 1], mode);
      assert items[..n][..n - 1] == items[..n - 1];
      Associate(seen, Sightings(items[..n - 1], mode), [Sighting(KeyOf(items[n - 1]), items[n - 1].content, mode)]);
    }
  }

  /** Steps that leave tasks and hashes alone. */
  lemma SameAgrees(l: Ledger, u: Ledger, seen: seq<Sighting>)
    requires Agrees(l, seen) && u.tasks == l.tasks && u.rows.Keys == l.rows.Keys && forall k :: k in l.rows ==>
      u.rows[k].hash == l.rows[k].hash
    ensures Agrees(u, seen)
  {
    forall k | "pending:" <= k ensures RowAgrees(u, seen, k) {
      assert RowAgrees(l, seen, k);
      assert k in u.rows.Keys <==> k in l.rows.Keys;
    }
  }

  lemma StepAgrees(l: Ledger, seen: seq<Sighting>, e: Event)
    requires Agrees(l, seen)
    ensures Agrees(Step(l, e), seen + if e.SyncEvent? then Sightings(e.items, e.mode) else [])
  {
    match e
    case SyncEvent(items, mode, authoritative) =>
      ItemsAgree(l, seen, items, mode, |items|);
      assert items[..|items|] == items;
      hide Agrees, SyncItems, ActiveKeys;
      SameAgrees(SyncItems(l, items, mode, |items|).0, Step(l, e), seen + Sightings(items, mode));
    case CleanupEvent(key, delivery, policy, force, retry, fault) =>
      if key in l.rows {
        ErasedOnlyWhenSent(l, key, delivery, policy, force, retry, fault);
      }
      hide Agrees, Eligibility;
      SameAgrees(l, Step(l, e), seen);
      assert seen + [] == seen;
    case DeferCleanup(key) =>
      hide Agrees;
      SameAgrees(l, Step(l, e), seen);
      assert seen + [] == seen;
  }

  /** After any run, the tasks are exactly those that the sightings started. */
  lemma {:induction false} RunAgrees(l: Ledger, events: seq<Event>)
    requires Fresh(l)
    ensures Agrees(Run(l, events), Seen(events))
  {
    if events != [] {
      RunAgrees(l, events[..|events| - 1]);
      hide Agrees;
      StepAgrees(Run(l, events[..|events| - 1]), Seen(events[..|events| - 1]), events[|events| - 1]);
    }
  }

  // --- what this means ---

  predicate FirstSighting(seen: seq<Sighting>, i: int)
    requires 0 <= i < |seen|
  {
    forall j :: 0 <= j < i ==> !Of(seen[j], seen[i].key, seen[i].content)
  }

  lemma {:induction false} LastSeenWasSeen(seen: seq<Sighting>, key: string)
    ensures LastSeen(seen, key).Some? ==> exists i :: 0 <= i < |seen| && Of(seen[i], key, LastSeen(seen, key).value)
  {
    if seen != [] && seen[|seen| - 1].key != key {
      LastSeenWasSeen(seen[..|seen| - 1], key);
      if LastSeen(seen, key).Some? {
        var i :| 0 <= i < |seen| - 1 && Of(seen[..|seen| - 1][i], key, LastSeen(seen, key).value);
        assert Of(seen[i], key, LastSeen(seen, key).value);
      }
    } else if seen != [] {
      assert Of(seen[|seen| - 1], key, LastSeen(seen, key).value);
    }
  }

  lemma FirstSightingStarts(seen: seq<Sighting>, i: nat)
    requires i < |seen| && FirstSighting(seen, i) && seen[i].mode != Disabled
    ensures Starts(seen, i)
  {
    LastSeenWasSeen(seen[..i], seen[i].key);
    var last := LastSeen(seen[..i], seen[i].key);
    if last.Some? {
      var j :| 0 <= j < i && Of(seen[..i][j], seen[i].key, last.value);
      assert Of(seen[j], seen[i].key, last.value);
    }
  }

  /** The first sighting of a pair in the given prefix settles its one task. */
  lemma {:induction false} OneTaskEach(seen: seq<Sighting>, n: nat, i: nat, j: nat)
    requires n <= |seen| && i < j < |Work(seen, n)|
    ensures Work(seen, n)[i].key != Work(seen, n)[j].key || Work(seen, n)[i].hash != Work(seen, n)[j].hash
  {
    var before := Work(seen, n - 1);
    if j < |before| {
      OneTaskEach(seen, n - 1, i, j);
    } else {
      var s := seen[n - 1];
      WorkHas(seen, n - 1, s.key, s.content);
      hide Starts, Started;
      assert Work(seen, n)[i] == before[i];
      assert !HasTask(before, s.key, s.content);
    }
  }

  lemma {:induction false} TaskOfFirst(seen: seq<Sighting>, n: nat, i: nat)
    requires i < n <= |seen| && FirstSighting(seen, i) && seen[i].mode != Disabled
    ensures Task(seen[i].key, seen[i].content, seen[i].mode == Normal, seen[i].mode == Baseline) in Work(seen, n)
  {
    if i < n - 1 {
      TaskOfFirst(seen, n - 1, i);
    } else {
      FirstSightingStarts(seen, i);
    }
  }

  /**
  Without disabled synchronisations there is exactly one task for every pair of item and content that
  was ever seen, and whether it notifies was fixed by the mode in which the pair was seen first.
  */
  lemma ExactlyOnce(l: Ledger, events: seq<Event>, key: string, content: string)
    requires Fresh(l) && forall i :: 0 <= i < |Seen(events)| ==> Seen(events)[i].mode != Disabled
    ensures var tasks, seen := Run(l, events).tasks, Seen(events);
      && (HasTask(tasks, key, content) <==> exists i :: 0 <= i < |seen| && Of(seen[i], key, content))
      && (forall i :: 0 <= i < |seen| && FirstSighting(seen, i) ==> TaskFrom(seen[i]) in tasks)
      && (forall i, j :: 0 <= i < j < |tasks| ==> tasks[i].key != tasks[j].key || tasks[i].hash != tasks[j].hash)
  {
    var tasks, seen := Run(l, events).tasks, Seen(events);
    RunAgrees(l, events);
    WorkHas(seen, |seen|, key, content);
    hide Run, Work, Seen;
    if exists i :: 0 <= i < |seen| && Of(seen[i], key, content) {
      var i := FindFirst(seen, key, content);
      FirstSightingStarts(seen, i);
    }
    forall i | 0 <= i < |seen| && FirstSighting(seen, i) ensures TaskFrom(seen[i]) in tasks {
      TaskOfFirst(seen, |seen|, i);
    }
    forall i, j | 0 <= i < j < |tasks| ensures tasks[i].key != tasks[j].key || tasks[i].hash != tasks[j].hash {
      OneTaskEach(seen, |seen|, i, j);
    }
  }

  function TaskFrom(s: Sighting): Task {
    Task(s.key, s.content, s.mode == Normal, s.mode == Baseline)
  }

  lemma {:induction false} FindFirst(seen: seq<Sighting>, key: string, content: string) returns (i: nat)
    requires exists j :: 0 <= j < |seen| && Of(seen[j], key, content)
    ensures i < |seen| && Of(seen[i], key, content) && FirstSighting(seen, i)
  {
    i := 0;
    while !Of(seen[i], key, content)
      invariant i < |seen| && forall j :: 0 <= j < i ==> !Of(seen[j], key, content)
      decreases |seen| - i
    {
      i := i + 1;
    }
  }

  /**
  With them, a pair has a task exactly when one of its sightings was in another mode and followed a different
  content.
  */
  lemma TaskIff(l: Ledger, events: seq<Event>, key: string, content: string)
    requires Fresh(l)
    ensures HasTask(Run(l, events).tasks, key, content) <==> Started(Seen(events), |Seen(events)|, key, content)
  {
    RunAgrees(l, events);
    WorkHas(Seen(events), |Seen(events)|, key, content);
  }

  /** A disabled synchronisation takes the sighting away: the next normal one finds nothing new. */
  lemma DisabledEatsSighting()
    ensures var item := Item("1", "a");
      Run(Ledger(map[], []), [SyncEvent([item], Disabled, false), SyncEvent([item], Normal, true)]).tasks == []
  {
    var item := Item("1", "a");
    var e1, e2 := SyncEvent([item], Disabled, false), SyncEvent([item], Normal, true);
    var start := Ledger(map[], []);
    OneItem(start, item, Disabled);
    var u := Step(start, e1);
    OneItem(u, item, Normal);
    assert [e1, e2][..1] == [e1] && [e1][..0] == [];
    assert Run(start, [e1]) == Step(Run(start, []), e1);
    assert Run(start, [e1, e2]) == Step(Run(start, [e1]), e2);
  }

  lemma OneItem(l: Ledger, i: Item, mode: Mode)
    ensures SyncItems(l, [i], mode, 1).0 == SyncItem(l, i, mode)
  {
    assert SyncItems(l, [i], mode, 0).0 == l;
  }
}
