/**
What the tallies of a synchronisation count (src/oa_knowledge/pending_sync.py), read off the list and the
rows of before: an item is new, changed or the same by what its row held when the list came to it.
*/
module PendingTallies {
  import opened Sequences
  import opened Wrappers
  import opened PendingSync

  /** The key is among the first `n` items. */
  predicate ListedBefore(items: seq<Item>, n: nat, key: string)
    requires n <= |items|
  {
    exists j :: 0 <= j < n && KeyOf(items[j]) == key
  }

  /** The content last known under a key before item number `n`. */
  function Known(rows: map<string, Occurrence>, items: seq<Item>, n: nat, key: string): Option<string>
    requires n <= |items|
  {
    if n == 0 then (if key in rows then rows[key].hash else None)
    else if KeyOf(items[n - 1]) == key then Some(items[n - 1].content)
    else Known(rows, items, n - 1, key)
  }

  predicate IsNew(rows: map<string, Occurrence>, items: seq<Item>, i: int) {
    0 <= i < |items| && KeyOf(items[i]) !in rows && !ListedBefore(items, i, KeyOf(items[i]))
  }

  predicate IsChanged(rows: map<string, Occurrence>, items: seq<Item>, i: int) {
    0 <= i < |items| && !IsNew(rows, items, i) && Known(rows, items, i, KeyOf(items[i])) != Some(items[i].content)
  }

  predicate IsSame(rows: map<string, Occurrence>, items: seq<Item>, i: int) {
    0 <= i < |items| && Known(rows, items, i, KeyOf(items[i])) == Some(items[i].content)
  }

  predicate ComesBack(rows: map<string, Occurrence>, items: seq<Item>, i: int) {
    && 0 <= i < |items| && KeyOf(items[i]) in rows && rows[KeyOf(items[i])].status != Active
    && !ListedBefore(items, i, KeyOf(items[i]))
  }

  /** The row of a key when the list has come to item number `n`. */
  lemma {:induction false} RowWhenMet(l: Ledger, items: seq<Item>, mode: Mode, n: nat, key: string)
    requires n <= |items|
    ensures var rows := SyncItems(l, items, mode, n).0.rows;
      && (key in rows <==> key in l.rows || ListedBefore(items, n, key))
      && (key in rows ==>
        && rows[key].hash == Known(l.rows, items, n, key)
        && rows[key].status == if ListedBefore(items, n, key) then Active else l.rows[key].status)
  {
    hide KeyOf;
    if n > 0 {
      RowWhenMet(l, items, mode, n - 1, key);
      assert ListedBefore(items, n, key) <==> ListedBefore(items, n - 1, key) || KeyOf(items[n - 1]) == key;
      hide SyncItems, ListedBefore;
      assert SyncItems(l, items, mode, n).0 == SyncItem(SyncItems(l, items, mode, n - 1).0, items[n - 1], mode)
      by { OneStep(l, items, mode, n); }
    }
  }

  lemma OneStep(l: Ledger, items: seq<Item>, mode: Mode, n: nat)
    requires 0 < n <= |items|
    ensures var (u, t) := SyncItems(l, items, mode, n - 1);
      SyncItems(l, items, mode, n) == (SyncItem(u, items[n - 1], mode), TallyItem(t, u, items[n - 1]))
  {
  }

  lemma {:induction false} UnknownIsNone(rows: map<string, Occurrence>, items: seq<Item>, n: nat, key: string)
    requires n <= |items|
    ensures key !in rows && !ListedBefore(items, n, key) ==> Known(rows, items, n, key).None?
  {
    hide KeyOf;
    if n > 0 {
      UnknownIsNone(rows, items, n - 1, key);
    }
  }

  /** The tallies are the numbers of items that are new, changed, the same, and back after an absence. */
  lemma {:induction false} TalliesMean(l: Ledger, items: seq<Item>, mode: Mode, n: nat)
    requires n <= |items|
    ensures var t := SyncItems(l, items, mode, n).1;
      && t.created == |Places(n, i => IsNew(l.rows, items, i))|
      && t.updated == |Places(n, i => IsChanged(l.rows, items, i))|
      && t.same == |Places(n, i => IsSame(l.rows, items, i))|
      && t.reactivated == |Places(n, i => ComesBack(l.rows, items, i))|
  {
    hide SyncItem, KeyOf, Places, ListedBefore, Known;
    if n == 0 {
      NoPlaces(i => IsNew(l.rows, items, i));
      NoPlaces(i => IsChanged(l.rows, items, i));
      NoPlaces(i => IsSame(l.rows, items, i));
      NoPlaces(i => ComesBack(l.rows, items, i));
    } else {
      TalliesMean(l, items, mode, n - 1);
      PlacesNext(n - 1, i => IsNew(l.rows, items, i));
      PlacesNext(n - 1, i => IsChanged(l.rows, items, i));
      PlacesNext(n - 1, i => IsSame(l.rows, items, i));
      PlacesNext(n - 1, i => ComesBack(l.rows, items, i));
      RowWhenMet(l, items, mode, n - 1, KeyOf(items[n - 1]));
      UnknownIsNone(l.rows, items, n - 1, KeyOf(items[n - 1]));
      OneStep(l, items, mode, n);
      hide SyncItems;
    }
  }

  /** With an authoritative list the closed rows are those that were active before and are not on it. */
  lemma ClosedMeans(l: Ledger, items: seq<Item>, mode: Mode)
    requires Channels(l.rows)
    ensures Sync(l, items, mode, true).1.closed == |ActiveKeys(l.rows) - Listed(items)|
    ensures Sync(l, items, mode, true).1.(closed := 0) == SyncItems(l, items, mode, |items|).1
    ensures Sync(l, items, mode, false).1 == SyncItems(l, items, mode, |items|).1
  {
    ItemsCount(l, items, mode, |items|);
    assert items[..|items|] == items;
    hide SyncItems, ActiveKeys, Listed;
    var active, listed := ActiveKeys(l.rows), Listed(items);
    assert active + listed - listed == active - listed;
  }
}
