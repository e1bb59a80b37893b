/**
Attachment evidence of the online audit (src/oa_knowledge/online_audit.py).

A row names one attachment by role and key, with its size and content hash where they are known.
A known size is a natural number and a known hash is not empty, as the columns guarantee; then the
sort key separates distinct rows. A digest stands for the text it was computed from.
*/
module AuditEvidence {
  import opened Wrappers
  import opened TextOrder

  datatype Evidence = Evidence(role: string, key: string, size: Option<nat>, sha: Option<string>)

  predicate KnownHash(e: Evidence) {
    e.sha.Some? ==> e.sha.value != ""
  }

  predicate Sane(rows: seq<Evidence>) {
    forall i :: 0 <= i < |rows| ==> KnownHash(rows[i])
  }

  function SizeKey(size: Option<nat>): int {
    match size case None => -1 case Some(n) => n
  }

  function ShaKey(sha: Option<string>): string {
    match sha case None => "" case Some(s) => s
  }

  /** The sort key's order. */
  predicate Before(a: Evidence, b: Evidence) {
    if a.role != b.role then Less(a.role, b.role)
    else if a.key != b.key then Less(a.key, b.key)
    else if SizeKey(a.size) != SizeKey(b.size) then SizeKey(a.size) < SizeKey(b.size)
    else Less(ShaKey(a.sha), ShaKey(b.sha))
  }

  lemma BeforeIsStrict(a: Evidence, b: Evidence)
    requires Before(a, b)
    ensures a != b && !Before(b, a)
  {
    LessAsymmetric(a.role, b.role);
    LessAsymmetric(a.key, b.key);
    LessAsymmetric(ShaKey(a.sha), ShaKey(b.sha));
    LessIrreflexive(ShaKey(a.sha));
  }

  lemma BeforeTransitive(a: Evidence, b: Evidence, c: Evidence)
    requires Before(a, b) && Before(b, c)
    ensures Before(a, c)
  {
    LessAsymmetric(a.role, b.role);
    LessAsymmetric(a.key, b.key);
    if Less(a.role, b.role) && Less(b.role, c.role) { LessTransitive(a.role, b.role, c.role); }
    if Less(a.key, b.key) && Less(b.key, c.key) { LessTransitive(a.key, b.key, c.key); }
    if Less(ShaKey(a.sha), ShaKey(b.sha)) && Less(ShaKey(b.sha), ShaKey(c.sha)) {
      LessTransitive(ShaKey(a.sha), ShaKey(b.sha), ShaKey(c.sha));
    }
  }

  lemma BeforeTotal(a: Evidence, b: Evidence)
    requires KnownHash(a) && KnownHash(b)
    ensures a == b || Before(a, b) || Before(b, a)
  {
    LessTotal(a.role, b.role);
    LessTotal(a.key, b.key);
    LessTotal(ShaKey(a.sha), ShaKey(b.sha));
  }

  // --- sorting without duplicates ---

  function RowSet(rows: seq<Evidence>): set<Evidence> {
    set i | 0 <= i < |rows| :: rows[i]
  }

  function InsertRow(e: Evidence, rows: seq<Evidence>): seq<Evidence> {
    if rows == [] then [e]
    else if rows[0] == e then rows
    else if Before(e, rows[0]) then [e] + rows
    else [rows[0]] + InsertRow(e, rows[1..])
  }

  /** The distinct rows in the order of the sort key. */
  function SortedEvidence(rows: seq<Evidence>): seq<Evidence> {
    if rows == [] then [] else InsertRow(rows[0], SortedEvidence(rows[1..]))
  }

  ghost predicate Ascending(rows: seq<Evidence>) {
    forall i, j :: 0 <= i < j < |rows| ==> Before(rows[i], rows[j])
  }

  lemma RowSetCons(e: Evidence, rows: seq<Evidence>)
    ensures RowSet([e] + rows) == {e} + RowSet(rows)
  {
    var s := [e] + rows;
    assert s[0] == e && forall i :: 0 <= i < |rows| ==> s[i + 1] == rows[i];
    forall x | x in RowSet(rows) ensures x in RowSet(s) {
      var i :| 0 <= i < |rows| && rows[i] == x;
      assert s[i + 1] == x;
    }
    forall x | x in RowSet(s) ensures x in {e} + RowSet(rows) {
      var i :| 0 <= i < |s| && s[i] == x;
      assert i > 0 ==> rows[i - 1] == x;
    }
  }

  lemma AscendingCons(e: Evidence, rows: seq<Evidence>)
    requires Ascending(rows) && (rows != [] ==> Before(e, rows[0]))
    ensures Ascending([e] + rows)
  {
    forall j | 0 <= j < |rows| ensures Before(e, rows[j]) {
      if j > 0 {
        BeforeTransitive(e, rows[0], rows[j]);
      }
    }
  }

  lemma {:induction false} InsertKeepsOrder(e: Evidence, rows: seq<Evidence>)
    requires Ascending(rows) && Sane(rows) && KnownHash(e)
    ensures var r := InsertRow(e, rows);
      && Ascending(r) && Sane(r) && RowSet(r) == {e} + RowSet(rows)
      && (r != [] && (r[0] == e || (rows != [] && r[0] == rows[0])))
  {
    if rows == [] {
      RowSetCons(e, []);
    } else {
      assert rows == [rows[0]] + rows[1..];
      RowSetCons(rows[0], rows[1..]);
      if rows[0] != e {
        if Before(e, rows[0]) {
          AscendingCons(e, rows);
          RowSetCons(e, rows);
        } else {
          BeforeTotal(e, rows[0]);
          var tail := InsertRow(e, rows[1..]);
          InsertKeepsOrder(e, rows[1..]);
          AscendingCons(rows[0], tail);
          RowSetCons(rows[0], tail);
        }
      }
    }
  }

  lemma {:induction false} SortedIsOrdered(rows: seq<Evidence>)
    requires Sane(rows)
    ensures Ascending(SortedEvidence(rows)) && Sane(SortedEvidence(rows)) &&
      RowSet(SortedEvidence(rows)) == RowSet(rows)
  {
    if rows != [] {
      assert rows == [rows[0]] + rows[1..];
      SortedIsOrdered(rows[1..]);
      InsertKeepsOrder(rows[0], SortedEvidence(rows[1..]));
      RowSetCons(rows[0], rows[1..]);
    }
  }

  /** Two ascending lists of the same rows are the same list. */
  lemma {:induction false} AscendingIsUnique(a: seq<Evidence>, b: seq<Evidence>)
    requires Ascending(a) && Ascending(b) && RowSet(a) == RowSet(b)
    ensures a == b
  {
    if a != [] {
      SomeRow(a);
    }
    if b != [] {
      SomeRow(b);
    }
    if a != [] {
      FirstIsLeast(a, b);
      FirstIsLeast(b, a);
      assert a[0] == b[0] by {
        if Before(a[0], b[0]) {
          BeforeIsStrict(a[0], b[0]);
        }
      }
      TailRows(a);
      TailRows(b);
      AscendingIsUnique(a[1..], b[1..]);
      assert a == [a[0]] + a[1..] && b == [b[0]] + b[1..];
    }
  }

  lemma SomeRow(a: seq<Evidence>)
    requires a != []
    ensures RowSet(a) != {}
  {
    assert a[0] in RowSet(a);
  }

  lemma FirstIsLeast(a: seq<Evidence>, b: seq<Evidence>)
    requires Ascending(a) && a != [] && b != [] && RowSet(b) == RowSet(a)
    ensures a[0] == b[0] || Before(a[0], b[0])
  {
    assert b[0] in RowSet(a);
    var i :| 0 <= i < |a| && a[i] == b[0];
  }

  lemma TailRows(a: seq<Evidence>)
    requires Ascending(a) && a != []
    ensures RowSet(a[1..]) == RowSet(a) - {a[0]}
  {
    assert a == [a[0]] + a[1..];
    RowSetCons(a[0], a[1..]);
    if a[0] in RowSet(a[1..]) {
      var i :| 0 <= i < |a[1..]| && a[1..][i] == a[0];
      BeforeIsStrict(a[0], a[i + 1]);
    }
  }

  /** Sorting sees only the set of rows: neither their order nor their repetition. */
  lemma SortedDependsOnSet(a: seq<Evidence>, b: seq<Evidence>)
    requires Sane(a) && Sane(b)
    ensures SortedEvidence(a) == SortedEvidence(b) <==> RowSet(a) == RowSet(b)
  {
    SortedIsOrdered(a);
    SortedIsOrdered(b);
    if RowSet(a) == RowSet(b) {
      AscendingIsUnique(SortedEvidence(a), SortedEvidence(b));
    }
  }

  lemma SortedTwice(a: seq<Evidence>)
    requires Sane(a)
    ensures Sane(SortedEvidence(a)) && SortedEvidence(SortedEvidence(a)) == SortedEvidence(a)
  {
    SortedIsOrdered(a);
    SortedDependsOnSet(a, SortedEvidence(a));
  }

  // --- explaining a difference ---

  datatype Reason =
    | ExactMatch | HistoryKept | ContentChanged | IdentityChanged | RoleChanged | MetadataChanged | InventoryChanged

  /** Sorted lists of projected rows are equal exactly when these multisets are. */
  function Views<T>(rows: seq<Evidence>, view: Evidence -> T): multiset<T> {
    if rows == [] then multiset{} else multiset{view(rows[0])} + Views(rows[1..], view)
  }

  function NameOf(e: Evidence): (string, string) {
    (e.role, e.key)
  }

  function BytesInRole(e: Evidence): (string, Option<nat>, Option<string>) {
    (e.role, e.size, e.sha)
  }

  function BytesUnderKey(e: Evidence): (string, Option<nat>, Option<string>) {
    (e.key, e.size, e.sha)
  }

  function BytesOf(e: Evidence): (Option<nat>, Option<string>) {
    (e.size, e.sha)
  }

  predicate HistoricalSubset(online: seq<Evidence>, local: seq<Evidence>) {
    RowSet(SortedEvidence(online)) != RowSet(SortedEvidence(local)) &&
      RowSet(SortedEvidence(online)) <= RowSet(SortedEvidence(local))
  }

  function Explain(online: seq<Evidence>, local: seq<Evidence>): Reason {
    var o, l := SortedEvidence(online), SortedEvidence(local);
    if o == l then ExactMatch
    else if HistoricalSubset(o, l) then HistoryKept
    else if Views(o, NameOf) == Views(l, NameOf) then ContentChanged
    else if Views(o, BytesInRole) == Views(l, BytesInRole) then IdentityChanged
    else if Views(o, BytesUnderKey) == Views(l, BytesUnderKey) then RoleChanged
    else if Views(o, BytesOf) == Views(l, BytesOf) then MetadataChanged
    else InventoryChanged
  }

  lemma HistoricalSubsetMeans(online: seq<Evidence>, local: seq<Evidence>)
    requires Sane(online) && Sane(local)
    ensures HistoricalSubset(online, local) <==> RowSet(online) < RowSet(local)
  {
    SortedIsOrdered(online);
    SortedIsOrdered(local);
  }

  /** The verdict depends on the two sets of rows only, and its two good outcomes are equality and proper inclusion. */
  lemma ExplainDependsOnSets(online: seq<Evidence>, local: seq<Evidence>, online': seq<Evidence>, local': seq<Evidence>)
    requires Sane(online) && Sane(local) && Sane(online') && Sane(local')
    requires RowSet(online) == RowSet(online') && RowSet(local) == RowSet(local')
    ensures Explain(online, local) == Explain(online', local')
    ensures Explain(online, local) == ExactMatch <==> RowSet(online) == RowSet(local)
    ensures Explain(online, local) == HistoryKept <==> RowSet(online) < RowSet(local)
  {
    hide Views;
    SortedDependsOnSet(online, online');
    SortedDependsOnSet(local, local');
    SortedDependsOnSet(online, local);
    SortedIsOrdered(online);
    SortedIsOrdered(local);
    HistoricalSubsetMeans(SortedEvidence(online), SortedEvidence(local));
  }

  /** The rows of a set that look like this. */
  function Alike<T(==)>(rows: set<Evidence>, view: Evidence -> T, v: T): set<Evidence> {
    set e | e in rows && view(e) == v
  }

  /** Seen like this, the two sets have as many rows of every kind. */
  ghost predicate SameSeen<T(!new)>(a: set<Evidence>, b: set<Evidence>, view: Evidence -> T) {
    forall v :: |Alike(a, view, v)| == |Alike(b, view, v)|
  }

  lemma {:induction false} ViewsCount<T(!new)>(rows: seq<Evidence>, view: Evidence -> T, v: T)
    requires Ascending(rows)
    ensures Views(rows, view)[v] == |Alike(RowSet(rows), view, v)|
  {
    hide Alike, Ascending, RowSet;
    if rows == [] {
      NoneAlike(view, v);
    } else {
      TailAscends(rows);
      ViewsCount(rows[1..], view, v);
      TailRows(rows);
      FirstRow(rows);
      OneMoreAlike(RowSet(rows), rows[0], view, v);
    }
  }

  lemma TailAscends(rows: seq<Evidence>)
    requires Ascending(rows) && rows != []
    ensures Ascending(rows[1..])
  {
    hide Before;
  }

  lemma FirstRow(rows: seq<Evidence>)
    requires rows != []
    ensures rows[0] in RowSet(rows)
  {
  }

  lemma NoneAlike<T>(view: Evidence -> T, v: T)
    ensures |Alike(RowSet([]), view, v)| == 0
  {
    assert Alike(RowSet([]), view, v) == {};
  }

  lemma OneMoreAlike<T>(rows: set<Evidence>, e: Evidence, view: Evidence -> T, v: T)
    requires e in rows
    ensures |Alike(rows, view, v)| == |Alike(rows - {e}, view, v)| + if view(e) == v then 1 else 0
  {
    var rest := Alike(rows - {e}, view, v);
    assert Alike(rows, view, v) == if view(e) == v then rest + {e} else rest;
  }

  lemma SameViewsIff<T(!new)>(a: seq<Evidence>, b: seq<Evidence>, view: Evidence -> T)
    requires Sane(a) && Sane(b)
    ensures Views(SortedEvidence(a), view) == Views(SortedEvidence(b), view) <==> SameSeen(RowSet(a), RowSet(b), view)
  {
    SortedIsOrdered(a);
    SortedIsOrdered(b);
    var s, t := SortedEvidence(a), SortedEvidence(b);
    hide SortedEvidence, Views, Alike, Ascending, RowSet;
    forall v ensures Views(s, view)[v] == |Alike(RowSet(a), view, v)| &&
      Views(t, view)[v] == |Alike(RowSet(b), view, v)| {
      ViewsCount(s, view, v);
      ViewsCount(t, view, v);
    }
    if SameSeen(RowSet(a), RowSet(b), view) {
      forall v ensures Views(s, view)[v] == Views(t, view)[v] {
        assert |Alike(RowSet(a), view, v)| == |Alike(RowSet(b), view, v)|;
      }
      assert Views(s, view) == Views(t, view);
    }
  }

  /** What the views see of a row. */
  lemma ViewsSee(a: Evidence, b: Evidence)
    ensures NameOf(a) == NameOf(b) <==> a.role == b.role && a.key == b.key
    ensures BytesOf(a) == BytesOf(b) <==> a.size == b.size && a.sha == b.sha
    ensures BytesInRole(a) == BytesInRole(b) <==> a.role == b.role && BytesOf(a) == BytesOf(b)
    ensures BytesUnderKey(a) == BytesUnderKey(b) <==> a.key == b.key && BytesOf(a) == BytesOf(b)
  {
  }

  /**
  What the other verdicts say of two sets of rows of which neither of the good ones holds: the first of four
  views in which the sets agree, row for row, names what has changed besides.
  */
  lemma ExplainMeans(online: seq<Evidence>, local: seq<Evidence>)
    requires Sane(online) && Sane(local)
    ensures var (o, l, r) := (RowSet(online), RowSet(local), Explain(online, local));
      if o <= l then r == (if o == l then ExactMatch else HistoryKept)
      else if SameSeen(o, l, NameOf) then r == ContentChanged
      else if SameSeen(o, l, BytesInRole) then r == IdentityChanged
      else if SameSeen(o, l, BytesUnderKey) then r == RoleChanged
      else r == if SameSeen(o, l, BytesOf) then MetadataChanged else InventoryChanged
  {
    ExplainDependsOnSets(online, local, online, local);
    var s, t := SortedEvidence(online), SortedEvidence(local);
    SameViewsIff(online, local, NameOf);
    SameViewsIff(online, local, BytesInRole);
    SameViewsIff(online, local, BytesUnderKey);
    SameViewsIff(online, local, BytesOf);
    hide SortedEvidence, RowSet, SameSeen, Views;
  }

  // --- fingerprints and their persisted form ---

  type Inventory = seq<(string, string)>

  function Names(rows: seq<Evidence>): Inventory {
    seq(|rows|, i requires 0 <= i < |rows| => (rows[i].role, rows[i].key))
  }

  predicate AllHashed(rows: seq<Evidence>) {
    forall i :: 0 <= i < |rows| ==> rows[i].sha.Some?
  }

  datatype Prints = Prints(inventory: Inventory, content: Option<seq<Evidence>>)

  function Fingerprint(rows: seq<Evidence>): Prints {
    var s := SortedEvidence(rows);
    Prints(Names(s), if AllHashed(s) then Some(s) else None)
  }

  /** Fingerprints depend on the set of rows only; a content fingerprint determines it. */
  lemma FingerprintDependsOnSet(a: seq<Evidence>, b: seq<Evidence>)
    requires Sane(a) && Sane(b)
    ensures RowSet(a) == RowSet(b) ==> Fingerprint(a) == Fingerprint(b)
    ensures Fingerprint(a).content.Some? && Fingerprint(a).content == Fingerprint(b).content ==> RowSet(a) == RowSet(b)
  {
    SortedDependsOnSet(a, b);
  }

  /** What the database holds in an evidence column. */
  datatype Stored = Absent | Malformed | Rows(rows: seq<Evidence>)

  function Serialize(rows: seq<Evidence>): Stored {
    Rows(SortedEvidence(rows))
  }

  function Deserialize(s: Stored): Option<seq<Evidence>> {
    match s
    case Absent => Some([])
    case Malformed => None
    case Rows(rows) => Some(rows)
  }

  lemma PersistedEvidenceIsEnough(rows: seq<Evidence>)
    requires Sane(rows)
    ensures var back := Deserialize(Serialize(rows));
      && back.Some? && Sane(back.value) && RowSet(back.value) == RowSet(rows)
      && Fingerprint(back.value) == Fingerprint(rows)
      && Serialize(back.value) == Serialize(rows)
  {
    SortedIsOrdered(rows);
    SortedTwice(rows);
  }

  // --- classification and repair ---

  datatype Status =
    | Pending | Running
    | Matched | MissingDownload | HistoricalRetained | InventoryMismatch | ContentMismatch
    | ContentUnverified | DepthLimitReached | AccessFailed

  function Classify(recognized: nat, downloaded: nat, onlineInventory: Option<Inventory>,
      localInventory: Option<Inventory>,
                    onlineContent: Option<seq<Evidence>>, localContent: Option<seq<Evidence>>, depthLimit: bool): Status
  {
    if depthLimit then DepthLimitReached
    else if recognized > downloaded then MissingDownload
    else if onlineInventory.Some? && localInventory.Some? && onlineInventory != localInventory then InventoryMismatch
    else if recognized < downloaded then HistoricalRetained
    else if onlineContent.None? then ContentUnverified
    else if localContent.None? || onlineContent != localContent then ContentMismatch
    else Matched
  }

  /** `matched` is a statement about bytes: every row is hashed and both sides have the same rows. */
  lemma MatchedMeansSameRows(recognized: nat, downloaded: nat, online: seq<Evidence>, local: seq<Evidence>,
      depthLimit: bool)
    requires Sane(online) && Sane(local)
    ensures var o, l := Fingerprint(online), Fingerprint(local);
      var status :=
        Classify(recognized, downloaded, Some(o.inventory), Some(l.inventory), o.content, l.content, depthLimit);
      status == Matched <==>
      (!depthLimit && recognized == downloaded && RowSet(online) == RowSet(local) &&
        forall e :: e in RowSet(online) ==> e.sha.Some?)
  {
    FingerprintDependsOnSet(online, local);
    SortedIsOrdered(online);
    SortedIsOrdered(local);
    var s := SortedEvidence(online);
    if AllHashed(s) {
      forall e | e in RowSet(online) ensures e.sha.Some? {
        assert e in RowSet(s);
      }
    }
    if forall e :: e in RowSet(online) ==> e.sha.Some? {
      forall i | 0 <= i < |s| ensures s[i].sha.Some? {
        assert s[i] in RowSet(s);
      }
    }
  }

  datatype Summary = Summary(status: Status, reason: Option<Reason>,
    onlineInventory: Option<Inventory>, localInventory: Option<Inventory>,
    onlineContent: Option<seq<Evidence>>, localContent: Option<seq<Evidence>>)

  datatype AuditRow = AuditRow(summary: Summary, recognized: Option<nat>, downloaded: nat,
    online: Stored, local: Stored, depthLimit: bool)

  function Recomputed(recognized: nat, downloaded: nat, online: seq<Evidence>, local: seq<Evidence>, depthLimit: bool,
      depthFirst: bool): Summary {
    var o, l := Fingerprint(online), Fingerprint(local);
    var status := Classify(recognized, downloaded, Some(o.inventory), Some(l.inventory), o.content, l.content,
      depthLimit);
    Summary(
      if HistoricalSubset(online, local) && !(depthFirst && depthLimit) then HistoricalRetained else status,
      Some(Explain(online, local)),
      Some(o.inventory), Some(l.inventory), o.content, l.content)
  }

  /** What an inspection that brought full evidence writes into the row. */
  function Inspected(recognized: nat, downloaded: nat, online: seq<Evidence>, local: seq<Evidence>,
      depthLimit: bool): AuditRow {
    AuditRow(Recomputed(recognized, downloaded, online, local, depthLimit, true), Some(recognized), downloaded,
      Serialize(online), Serialize(local), depthLimit)
  }

  /**
  The repair of a row from its persisted evidence; unlike the inspection it does not look at the depth limit
  first.
  */
  function Repair(row: AuditRow): (AuditRow, bool) {
    if row.summary.reason.None? then (row, false)
    else match (Deserialize(row.online), Deserialize(row.local))
      case (Some(online), Some(local)) =>
        var recognized := if row.recognized.Some? then row.recognized.value else |online|;
        var after := Recomputed(recognized, row.downloaded, online, local, row.depthLimit, false);
        (row.(summary := after), after != row.summary)
      case _ => (row, false)
  }

  lemma RepairIsIdempotent(row: AuditRow)
    ensures !Repair(Repair(row).0).1
    ensures !Repair(row).1 ==> Repair(row).0 == row
  {
  }

  lemma RecomputedDependsOnSets(recognized: nat, downloaded: nat, online: seq<Evidence>, local: seq<Evidence>,
      depthLimit: bool, depthFirst: bool)
    requires Sane(online) && Sane(local)
    ensures Recomputed(recognized, downloaded, SortedEvidence(online), SortedEvidence(local), depthLimit, depthFirst)
            == Recomputed(recognized, downloaded, online, local, depthLimit, depthFirst)
  {
    SortedIsOrdered(online);
    SortedIsOrdered(local);
    SortedTwice(online);
    SortedTwice(local);
    ExplainDependsOnSets(online, local, SortedEvidence(online), SortedEvidence(local));
    hide Explain, Views;
  }

  /**
  A repair leaves a freshly inspected row alone, unless the row stopped at the depth limit and its
  online rows are properly included in the local ones: then it overwrites the depth-limit status.
  */
  lemma RepairOfInspectedRow(recognized: nat, downloaded: nat, online: seq<Evidence>, local: seq<Evidence>,
      depthLimit: bool)
    requires Sane(online) && Sane(local)
    ensures var row := Inspected(recognized, downloaded, online, local, depthLimit);
      && (!Repair(row).1 <==> !(depthLimit && RowSet(online) < RowSet(local)))
      && (Repair(row).1 ==>
        row.summary.status == DepthLimitReached && Repair(row).0.summary.status == HistoricalRetained)
  {
    RecomputedDependsOnSets(recognized, downloaded, online, local, depthLimit, false);
    HistoricalSubsetMeans(online, local);
    hide Explain, Fingerprint, HistoricalSubset, SortedEvidence;
  }

  /** For example: one online row, already kept locally beside an older one, found at the depth limit. */
  lemma RepairOverwritesDepthLimit()
    ensures var a, b := Evidence("official_body", "1", Some(1), Some("x")),
      Evidence("official_body", "2", Some(1), Some("y"));
      Repair(Inspected(1, 2, [a], [a, b], true)).0.summary.status == HistoricalRetained
  {
    var a, b := Evidence("official_body", "1", Some(1), Some("x")), Evidence("official_body", "2", Some(1), Some("y"));
    assert [a][0] == a && [a, b][0] == a && [a, b][1] == b;
    assert RowSet([a]) == {a} && b in RowSet([a, b]) && a in RowSet([a, b]) && a.key != b.key;
    assert RowSet([a]) < RowSet([a, b]);
    RepairOfInspectedRow(1, 2, [a], [a, b], true);
    hide Repair, Inspected;
  }

  class PersistedItem {
    var row: AuditRow

    /** Recomputes the summary columns of a row from its two evidence columns, in place. */
    method RepairFromPersistedEvidence() returns (changed: bool)
      modifies this
      ensures (row, changed) == Repair(old(row))
    {
      if row.summary.reason.None? {
        return false;
      }
      var online, local := Deserialize(row.online), Deserialize(row.local);
      if online.None? || local.None? {
        return false;
      }
      var o, l := Fingerprint(online.value), Fingerprint(local.value);
      var reason := Explain(online.value, local.value);
      var status := Classify(if row.recognized.Some? then row.recognized.value else |online.value|, row.downloaded,
        Some(o.inventory), Some(l.inventory), o.content, l.content, row.depthLimit);
      if HistoricalSubset(online.value, local.value) {
        status := HistoricalRetained;
      }
      var before := row.summary;
      var after := Summary(status, Some(reason), Some(o.inventory), Some(l.inventory), o.content, l.content);
      if before == after {
        return false;
      }
      row := row.(summary := after);
      changed := true;
    }
  }
}
