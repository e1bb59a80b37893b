/**
What the status of an inspected item says of the two sets of rows (src/oa_knowledge/online_audit.py,
classify_evidence), and which stored evidence the repair reads.
*/
module AuditVerdict {
  import opened Wrappers
  import opened TextOrder
  import opened AuditEvidence

  // --- equal inventories ---

  predicate NameBefore(x: (string, string), y: (string, string)) {
    if x.0 != y.0 then Less(x.0, y.0) else Less(x.1, y.1)
  }

  ghost predicate NamesSorted(names: Inventory) {
    forall i, j :: 0 <= i < j < |names| ==> !NameBefore(names[j], names[i])
  }

  lemma NameOrderIsStrict(x: (string, string), y: (string, string))
    ensures x == y || NameBefore(x, y) || NameBefore(y, x)
    ensures !(NameBefore(x, y) && NameBefore(y, x)) && !NameBefore(x, x)
  {
    LessTotal(x.0, y.0);
    LessTotal(x.1, y.1);
    LessAsymmetric(x.0, y.0);
    LessAsymmetric(x.1, y.1);
    LessIrreflexive(x.1);
  }

  lemma NamesAscend(rows: seq<Evidence>)
    requires Ascending(rows)
    ensures NamesSorted(Names(rows))
  {
    var names := Names(rows);
    forall i, j | 0 <= i < j < |names| ensures !NameBefore(names[j], names[i]) {
      assert Before(rows[i], rows[j]);
      LessAsymmetric(rows[i].role, rows[j].role);
      LessAsymmetric(rows[i].key, rows[j].key);
      LessIrreflexive(rows[i].key);
    }
  }

  lemma {:induction false} ViewsAreNames(rows: seq<Evidence>)
    ensures Views(rows, NameOf) == multiset(Names(rows))
  {
    if rows != [] {
      ViewsAreNames(rows[1..]);
      assert Names(rows) == [NameOf(rows[0])] + Names(rows[1..]);
    }
  }

  /** A sorted list of names is determined by how often each name is on it. */
  lemma {:induction false} SortedIsUnique(a: Inventory, b: Inventory)
    requires NamesSorted(a) && NamesSorted(b) && multiset(a) == multiset(b)
    ensures a == b
  {
    hide NamesSorted;
    assert |multiset(a)| == |a| && |multiset(b)| == |b|;
    if a != [] {
      SameFirst(a, b);
      TailIsSorted(a);
      TailIsSorted(b);
      SortedIsUnique(a[1..], b[1..]);
      assert a == [a[0]] + a[1..] && b == [b[0]] + b[1..];
    }
  }

  lemma TailIsSorted(a: Inventory)
    requires NamesSorted(a) && a != []
    ensures NamesSorted(a[1..]) && multiset(a[1..]) == multiset(a) - multiset{a[0]}
  {
    hide NameBefore;
    assert a == [a[0]] + a[1..];
  }

  lemma SameFirst(a: Inventory, b: Inventory)
    requires NamesSorted(a) && NamesSorted(b) && multiset(a) == multiset(b) && a != [] && b != []
    ensures a[0] == b[0]
  {
    hide NameBefore;
    assert a[0] in multiset(b) && b[0] in multiset(a);
    var i :| 0 <= i < |a| && a[i] == b[0];
    var j :| 0 <= j < |b| && b[j] == a[0];
    NameOrderIsStrict(a[0], b[0]);
  }

  /** The inventories of two sets are equal exactly when they have as many rows of each role and key. */
  lemma InventoriesEqualIff(a: seq<Evidence>, b: seq<Evidence>)
    requires Sane(a) && Sane(b)
    ensures Fingerprint(a).inventory == Fingerprint(b).inventory <==> SameSeen(RowSet(a), RowSet(b), NameOf)
  {
    SortedIsOrdered(a);
    SortedIsOrdered(b);
    SameViewsIff(a, b, NameOf);
    var s, t := SortedEvidence(a), SortedEvidence(b);
    ViewsAreNames(s);
    ViewsAreNames(t);
    NamesAscend(s);
    NamesAscend(t);
    hide SortedEvidence, SameSeen, Names, NamesSorted, Ascending, Views;
    if multiset(Names(s)) == multiset(Names(t)) {
      SortedIsUnique(Names(s), Names(t));
    }
  }

  // --- the status ---

  ghost predicate Hashed(rows: set<Evidence>) {
    forall e :: e in rows ==> e.sha.Some?
  }

  lemma ContentIff(rows: seq<Evidence>)
    requires Sane(rows)
    ensures Fingerprint(rows).content.Some? <==> Hashed(RowSet(rows))
  {
    SortedIsOrdered(rows);
    var s := SortedEvidence(rows);
    hide SortedEvidence, Ascending;
    if AllHashed(s) {
      forall e | e in RowSet(rows) ensures e.sha.Some? {
        assert e in RowSet(s);
      }
    }
    if Hashed(RowSet(rows)) {
      forall i | 0 <= i < |s| ensures s[i].sha.Some? {
        assert s[i] in RowSet(s);
      }
    }
  }

  function StatusOf(recognized: nat, downloaded: nat, online: seq<Evidence>, local: seq<Evidence>,
      depthLimit: bool): Status {
    var o, l := Fingerprint(online), Fingerprint(local);
    Classify(recognized, downloaded, Some(o.inventory), Some(l.inventory), o.content, l.content, depthLimit)
  }

  /**
  When each status is given: by the depth limit first; then by the two counts and the two sets of rows, whose
  roles and keys are compared before bytes are.
  */
  lemma StatusMeans(recognized: nat, downloaded: nat, online: seq<Evidence>, local: seq<Evidence>, depthLimit: bool)
    requires Sane(online) && Sane(local)
    ensures var s := StatusOf(recognized, downloaded, online, local, depthLimit);
      var (o, l) := (RowSet(online), RowSet(local));
      var named := SameSeen(o, l, NameOf);
      && s in {DepthLimitReached, MissingDownload, InventoryMismatch, HistoricalRetained, ContentUnverified,
               ContentMismatch, Matched}
      && (s == DepthLimitReached <==> depthLimit)
      && (s == MissingDownload <==> !depthLimit && recognized > downloaded)
      && (s == InventoryMismatch <==> !depthLimit && recognized <= downloaded && !named)
      && (s == HistoricalRetained <==> !depthLimit && recognized < downloaded && named)
      && (s == ContentUnverified <==> !depthLimit && recognized == downloaded && named && !Hashed(o))
      && (s == ContentMismatch <==> !depthLimit && recognized == downloaded && named && Hashed(o) && o != l)
  {
    InventoriesEqualIff(online, local);
    ContentIff(online);
    ContentIff(local);
    FingerprintDependsOnSet(online, local);
    hide Fingerprint, RowSet, SameSeen, Hashed;
  }

  // --- what the repair reads ---

  /** Evidence that was never stored counts as none; evidence that cannot be read leaves the row as it is. */
  lemma RepairReads(row: AuditRow)
    ensures row.online == Malformed || row.local == Malformed || row.summary.reason.None? ==>
      Repair(row) == (row, false)
    ensures row.online == Absent ==>
      Repair(row).0.summary == Repair(row.(online := Rows([]))).0.summary &&
        Repair(row).1 == Repair(row.(online := Rows([]))).1
    ensures row.local == Absent ==>
      Repair(row).0.summary == Repair(row.(local := Rows([]))).0.summary &&
        Repair(row).1 == Repair(row.(local := Rows([]))).1
    ensures var after := Repair(row).0; after == row.(summary := after.summary)
  {
    hide Recomputed;
  }

  /** A repaired row has the status and the reason that its stored rows have by the comparison. */
  lemma RepairedMeans(row: AuditRow, online: seq<Evidence>, local: seq<Evidence>)
    requires row.online == Rows(online) && row.local == Rows(local) && row.summary.reason.Some?
    requires Sane(online) && Sane(local)
    ensures var after := Repair(row).0.summary;
      var recognized := if row.recognized.Some? then row.recognized.value else |online|;
      && after.reason == Some(Explain(online, local))
      && after.status == (if RowSet(online) < RowSet(local) then HistoricalRetained
                          else StatusOf(recognized, row.downloaded, online, local, row.depthLimit))
      && (Repair(row).1 <==> after != row.summary)
  {
    HistoricalSubsetMeans(online, local);
    hide Fingerprint, Explain, HistoricalSubset;
  }
}
