/**
Pending discovery (src/oa_knowledge/pending_sync.py) and the erasure of what was delivered
(src/oa_knowledge/pending_cleanup.py), as steps on the ledger of occurrences and tasks.

The serialised item stands for its hash and for the columns shown from it.
*/
module PendingSync {
  import opened Wrappers

  datatype Mode = Normal | Baseline | Disabled

  datatype Item = Item(affair: string, content: string)

  datatype Status = Active | Inactive | Cleaned

  datatype CleanupStatus = NotEligible | PendingCleanup | Cleaning | CleanedUp | CleanupFailed

  datatype Occurrence = Occurrence(pending: bool, status: Status, hash: Option<string>, shown: Option<string>,
    cleanup: CleanupStatus)

  datatype Task = Task(key: string, hash: string, notify: bool, baseline: bool)

  datatype Ledger = Ledger(rows: map<string, Occurrence>, tasks: seq<Task>)

  /** The tallies of one synchronisation. */
  datatype Tally = Tally(created: nat, updated: nat, same: nat, closed: nat, reactivated: nat)

  function KeyOf(i: Item): string {
    "pending:" + i.affair
  }

  predicate HasTask(tasks: seq<Task>, key: string, hash: string) {
    exists i :: 0 <= i < |tasks| && tasks[i].key == key && tasks[i].hash == hash
  }

  /** Whether the discovery of the item moves it into the pipeline: it is new, or it changed. */
  predicate Moves(l: Ledger, i: Item) {
    KeyOf(i) !in l.rows || l.rows[KeyOf(i)].hash != Some(i.content)
  }

  function Refreshed(l: Ledger, i: Item): Occurrence {
    if KeyOf(i) in l.rows then l.rows[KeyOf(i)].(status := Active, hash := Some(i.content), shown := Some(i.content))
    else Occurrence(true, Active, Some(i.content), Some(i.content), NotEligible)
  }

  function TaskFor(i: Item, mode: Mode): Task {
    Task(KeyOf(i), i.content, mode == Normal, mode == Baseline)
  }

  function SyncItem(l: Ledger, i: Item, mode: Mode): Ledger {
    var tasks := if mode != Disabled && Moves(l, i) && !HasTask(l.tasks, KeyOf(i), i.content)
      then l.tasks + [TaskFor(i, mode)] else l.tasks;
    Ledger(l.rows[KeyOf(i) := Refreshed(l, i)], tasks)
  }

  function TallyItem(t: Tally, l: Ledger, i: Item): Tally {
    if KeyOf(i) !in l.rows then t.(created := t.created + 1)
    else
      var u := if l.rows[KeyOf(i)].status != Active then t.(reactivated := t.reactivated + 1) else t;
      if Moves(l, i) then u.(updated := u.updated + 1) else u.(same := u.same + 1)
  }

  /** The first `n` items of a list. */
  function SyncItems(l: Ledger, items: seq<Item>, mode: Mode, n: nat): (Ledger, Tally)
    requires n <= |items|
  {
    if n == 0 then (l, Tally(0, 0, 0, 0, 0))
    else
      var (u, t) := SyncItems(l, items, mode, n - 1);
      (SyncItem(u, items[n - 1], mode), TallyItem(t, u, items[n - 1]))
  }

  function Listed(items: seq<Item>): set<string> {
    set i | i in items :: KeyOf(i)
  }

  function ActiveKeys(rows: map<string, Occurrence>): set<string> {
    set k | k in rows && rows[k].pending && rows[k].status == Active
  }

  /** Rows that an authoritative list does not name any more become inactive. */
  function Close(rows: map<string, Occurrence>, listed: set<string>): map<string, Occurrence> {
    map k | k in rows :: if k in ActiveKeys(rows) && k !in listed then rows[k].(status := Inactive) else rows[k]
  }

  function Sync(l: Ledger, items: seq<Item>, mode: Mode, authoritative: bool): (Ledger, Tally) {
    var (u, t) := SyncItems(l, items, mode, |items|);
    if authoritative then
      (u.(rows := Close(u.rows, Listed(items))), t.(closed := |ActiveKeys(u.rows) - Listed(items)|))
    else (u, t)
  }

  // --- counts ---

  /** Keys with the prefix of pending items belong to that channel. */
  ghost predicate Channels(rows: map<string, Occurrence>) {
    forall k :: k in rows && "pending:" <= k ==> rows[k].pending
  }

  lemma ItemKey(i: Item)
    ensures "pending:" <= KeyOf(i)
  {
  }

  lemma SyncKeepsChannels(l: Ledger, i: Item, mode: Mode)
    requires Channels(l.rows)
    ensures Channels(SyncItem(l, i, mode).rows)
    ensures ActiveKeys(SyncItem(l, i, mode).rows) == ActiveKeys(l.rows) + {KeyOf(i)}
  {
    ItemKey(i);
  }

  lemma OneItemCounts(l: Ledger, t: Tally, i: Item, mode: Mode)
    requires Channels(l.rows)
    ensures var (u, v) := (SyncItem(l, i, mode), TallyItem(t, l, i));
      && |ActiveKeys(u.rows)| - v.created - v.reactivated == |ActiveKeys(l.rows)| - t.created - t.reactivated
      && v.created + v.updated + v.same == t.created + t.updated + t.same + 1 && v.closed == t.closed
  {
    ItemKey(i);
    SyncKeepsChannels(l, i, mode);
    hide SyncItem, Moves;
    assert KeyOf(i) in ActiveKeys(l.rows) <==> KeyOf(i) in l.rows && l.rows[KeyOf(i)].status == Active;
    if KeyOf(i) in ActiveKeys(l.rows) {
      assert ActiveKeys(l.rows) + {KeyOf(i)} == ActiveKeys(l.rows);
    }
  }

  /** Every item is counted once, and active rows appear only by being created or reactivated. */
  lemma {:induction false} ItemsCount(l: Ledger, items: seq<Item>, mode: Mode, n: nat)
    requires n <= |items| && Channels(l.rows)
    ensures var (u, t) := SyncItems(l, items, mode, n);
      && Channels(u.rows) && t.closed == 0 && t.created + t.updated + t.same == n
      && |ActiveKeys(u.rows)| == |ActiveKeys(l.rows)| + t.created + t.reactivated
      && ActiveKeys(u.rows) == ActiveKeys(l.rows) + Listed(items[..n])
  {
    hide SyncItem, TallyItem, KeyOf, Listed, Channels, ActiveKeys;
    if n == 0 {
      NothingListed(items);
    } else {
      ItemsCount(l, items, mode, n - 1);
      var (u, t) := SyncItems(l, items, mode, n - 1);
      SyncKeepsChannels(u, items[n - 1], mode);
      OneItemCounts(u, t, items[n - 1], mode);
      ListedGrows(items, n);
    }
  }

  lemma NothingListed(items: seq<Item>)
    ensures Listed(items[..0]) == {}
  {
  }

  lemma ListedGrows(items: seq<Item>, n: nat)
    requires 0 < n <= |items|
    ensures Listed(items[..n]) == Listed(items[..n - 1]) + {KeyOf(items[n - 1])}
  {
    assert items[..n] == items[..n - 1] + [items[n - 1]];
  }

  /**
  The active rows change by what the tallies say; after an authoritative list they are exactly the
  listed ones.
  */
  lemma SyncCounts(l: Ledger, items: seq<Item>, mode: Mode, authoritative: bool)
    requires Channels(l.rows)
    ensures var (u, t) := Sync(l, items, mode, authoritative);
      && t.created + t.updated + t.same == |items|
      && |ActiveKeys(u.rows)| == |ActiveKeys(l.rows)| + t.created + t.reactivated - t.closed
      && (authoritative ==> ActiveKeys(u.rows) == Listed(items))
      && (!authoritative ==> ActiveKeys(u.rows) == ActiveKeys(l.rows) + Listed(items))
      && Channels(u.rows)
  {
    hide SyncItems, Listed, Close, ActiveKeys, Channels;
    ItemsCount(l, items, mode, |items|);
    assert items[..|items|] == items;
    var u := SyncItems(l, items, mode, |items|).0;
    if authoritative {
      CloseMeans(u.rows, Listed(items));
      CountInside(ActiveKeys(u.rows), Listed(items));
    }
  }

  lemma CloseMeans(rows: map<string, Occurrence>, listed: set<string>)
    ensures ActiveKeys(Close(rows, listed)) == ActiveKeys(rows) * listed
    ensures Channels(rows) ==> Channels(Close(rows, listed))
  {
  }

  lemma CountInside(active: set<string>, listed: set<string>)
    requires listed <= active
    ensures active * listed == listed && |listed| == |active| - |active - listed|
  {
    assert active == (active - listed) + listed;
  }

  /** Every listed row is active and shows what was listed last, also after its columns had been erased. */
  lemma {:induction false} ListedIsShown(l: Ledger, items: seq<Item>, mode: Mode, n: nat, k: nat)
    requires k < n <= |items| && forall j :: k < j < n ==> KeyOf(items[j]) != KeyOf(items[k])
    ensures var rows := SyncItems(l, items, mode, n).0.rows;
      && KeyOf(items[k]) in rows && rows[KeyOf(items[k])].status == Active
      && rows[KeyOf(items[k])].shown == Some(items[k].content) && rows[KeyOf(items[k])].hash == Some(items[k].content)
  {
    if k < n - 1 {
      ListedIsShown(l, items, mode, n - 1, k);
      hide KeyOf;
      assert KeyOf(items[n - 1]) != KeyOf(items[k]);
    }
  }

  // --- cleaning up ---

  datatype Delivery = Sent | NotSent

  datatype Policy = Policy(auto: bool, allowForce: bool)

  datatype Refusal =
    | AlreadyCleaned | AlreadyCleaning | PreviousFailed | NoDelivery | DeliveryNotSent | ForceDisabled | AutoDisabled

  function Eligibility(o: Occurrence, delivery: Option<Delivery>, p: Policy, force: bool,
      retry: bool): Option<Refusal> {
    if o.cleanup == CleanedUp then Some(AlreadyCleaned)
    else if o.cleanup == Cleaning then Some(AlreadyCleaning)
    else if o.cleanup == CleanupFailed && !(force || retry) then Some(PreviousFailed)
    else if delivery.None? then Some(NoDelivery)
    else if delivery.value != Sent then Some(DeliveryNotSent)
    else if force then (if p.allowForce then None else Some(ForceDisabled))
    else if !p.auto then Some(AutoDisabled)
    else None
  }

  /** Erasing what was delivered; `fault` says that a file could not be removed. */
  function Cleanup(l: Ledger, key: string, delivery: Option<Delivery>, p: Policy, force: bool, retry: bool,
      fault: bool): Ledger {
    if key !in l.rows || Eligibility(l.rows[key], delivery, p, force, retry).Some? then l
    else if fault then l.(rows := l.rows[key := l.rows[key].(cleanup := CleanupFailed)])
    else l.(rows := l.rows[key := l.rows[key].(status := Cleaned, shown := None, cleanup := CleanedUp)])
  }

  /** Nothing is erased without a confirmed delivery, and nothing twice. */
  lemma ErasedOnlyWhenSent(l: Ledger, key: string, delivery: Option<Delivery>, p: Policy, force: bool, retry: bool,
      fault: bool)
    requires key in l.rows
    ensures var u := Cleanup(l, key, delivery, p, force, retry, fault);
      && u.tasks == l.tasks && u.rows.Keys == l.rows.Keys &&
        (forall k :: k in l.rows ==> u.rows[k].hash == l.rows[k].hash)
      && (u != l ==> delivery == Some(Sent) && (if force then p.allowForce else p.auto))
      && (l.rows[key].cleanup in {CleanedUp, Cleaning} ==> u == l)
  {
  }

  // --- runs ---

  datatype Event =
    | SyncEvent(items: seq<Item>, mode: Mode, authoritative: bool)
    | CleanupEvent(key: string, delivery: Option<Delivery>, policy: Policy, force: bool, retry: bool, fault: bool)
    | DeferCleanup(key: string)

  function Step(l: Ledger, e: Event): Ledger {
    match e
    case SyncEvent(items, mode, authoritative) => Sync(l, items, mode, authoritative).0
    case CleanupEvent(key, delivery, policy, force, retry, fault) => Cleanup(l, key, delivery, policy, force, retry,
      fault)
    case DeferCleanup(key) =>
      if key in l.rows && l.rows[key].cleanup in {NotEligible, PendingCleanup}
        then l.(rows := l.rows[key := l.rows[key].(cleanup := PendingCleanup)])
      else l
  }

  function Run(l: Ledger, events: seq<Event>): Ledger {
    if events == [] then l else Step(Run(l, events[..|events| - 1]), events[|events| - 1])
  }

  /** Once cleaned, always cleaned: a row that is discovered again is shown again and never erased again. */
  lemma {:induction false} CleanedStays(l: Ledger, events: seq<Event>, key: string)
    requires key in l.rows && l.rows[key].cleanup == CleanedUp
    ensures key in Run(l, events).rows && Run(l, events).rows[key].cleanup == CleanedUp
  {
    if events != [] {
      CleanedStays(l, events[..|events| - 1], key);
      var u, e := Run(l, events[..|events| - 1]), events[|events| - 1];
      if e.SyncEvent? {
        SyncKeepsCleanup(u, e.items, e.mode, |e.items|, key);
      }
    }
  }

  lemma {:induction false} SyncKeepsCleanup(l: Ledger, items: seq<Item>, mode: Mode, n: nat, key: string)
    requires n <= |items| && key in l.rows
    ensures key in SyncItems(l, items, mode, n).0.rows &&
      SyncItems(l, items, mode, n).0.rows[key].cleanup == l.rows[key].cleanup
  {
    if n > 0 {
      SyncKeepsCleanup(l, items, mode, n - 1, key);
    }
  }
}
