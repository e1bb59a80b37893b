/**
The migration as the program performs it: an object holding the tree and the committed rows, a
working copy of the rows that only a commit publishes, and loops over the affected rows
(src/oa_knowledge/archive_reconciliation.py).
*/
module ArchiveMigrator {
  import opened Wrappers
  import opened ArchivePaths
  import opened ArchiveTree
  import opened ArchiveMigration
  import opened MigrationCampaign

  method RewriteFileRows(files: map<nat, FileRow>, id: nat, o: string, n: string) returns (rows: map<nat, FileRow>)
    ensures rows == RewriteFiles(files, id, o, n)
  {
    rows := files;
    var todo := files.Keys;
    while todo != {}
      invariant todo <= files.Keys == rows.Keys
      invariant forall f :: f in todo ==> rows[f] == files[f]
      invariant forall f :: f in files.Keys - todo ==> rows[f] == RewriteFiles(files, id, o, n)[f]
      decreases |todo|
    {
      var f :| f in todo;
      if rows[f].itemId == id {
        rows := rows[f := rows[f].(relpath := ReplacePrefix(rows[f].relpath, o, n))];
      }
      todo := todo - {f};
    }
  }

  method RewriteManifestRows(manifests: map<nat, ManifestRow>, key: string, o: string, n: string)
      returns (rows: map<nat, ManifestRow>)
    ensures rows == RewriteManifests(manifests, key, o, n)
  {
    rows := manifests;
    var todo := manifests.Keys;
    while todo != {}
      invariant todo <= manifests.Keys == rows.Keys
      invariant forall m :: m in todo ==> rows[m] == manifests[m]
      invariant forall m :: m in manifests.Keys - todo ==> rows[m] == RewriteManifests(manifests, key, o, n)[m]
      decreases |todo|
    {
      var m :| m in todo;
      if rows[m].key == key {
        rows := rows[m := rows[m].(relpath := ReplacePrefix(rows[m].relpath, o, n))];
      }
      todo := todo - {m};
    }
  }

  method RewriteBatchRows(batches: map<nat, BatchRow>, id: nat, o: string, n: string) returns (rows: map<nat, BatchRow>)
    ensures rows == RewriteBatches(batches, id, o, n)
  {
    rows := batches;
    var todo := batches.Keys;
    while todo != {}
      invariant todo <= batches.Keys == rows.Keys
      invariant forall b :: b in todo ==> rows[b] == batches[b]
      invariant forall b :: b in batches.Keys - todo ==> rows[b] == RewriteBatches(batches, id, o, n)[b]
      decreases |todo|
    {
      var b :| b in todo;
      if rows[b].itemId == Some(id) {
        rows := rows[b := rows[b].(relpath := ReplacePrefix(rows[b].relpath, o, n))];
      }
      todo := todo - {b};
    }
  }

  class Migrator {
    var tree: Tree
    var db: Database

    function Contents(): Store
      reads this
    {
      Store(tree, db)
    }

    /**
    Moves one item's directory. `fault` says which operation raises; every way out other than
    the commit leaves the committed rows alone, and after the rename it also tries to undo it.
    */
    method MigrateOneItem(id: nat, fault: Fault, undoWorks: bool) returns (r: Outcome)
      requires GoodStore(Contents()) && id in db.items && db.items[id].relpath.Some?
      modifies this
      ensures (Contents(), r) == MigrateOne(old(Contents()), id, fault, undoWorks)
    {
      hide Rename, Fingerprint, UndoMove, MarkdownTail, Rewrite, Move, Inspect, MakeDirs;
      var row := db.items[id];
      var route := Route(row);
      if route.Failure? {
        return route.error;
      }
      var (o, n) := route.value;
      if !(o in tree && tree[o].Dir?) {
        return Failed(SourceMissing);
      }
      if n in tree {
        return Failed(TargetExists);
      }
      var made := MakeDirs(tree, Parent(n));
      if made.None? {
        return Failed(TargetParentBlocked);
      }
      CheckGivesGoodPlan(Contents(), row);
      tree := made.value;
      r := MoveDirectory(id, o, n, fault, undoWorks);
    }

    method MoveDirectory(id: nat, o: Path, n: Path, fault: Fault, undoWorks: bool) returns (r: Outcome)
      requires id in db.items && Separate(o, n) && o != [] && Vacant(tree, n)
      modifies this
      ensures (Contents(), r) == Move(old(Contents()), id, o, n, Inspect(old(tree), o, n), fault, undoWorks)
    {
      hide Rename, Fingerprint, UndoMove, MarkdownTail, Rewrite;
      if fault.DeviceCheck? {
        return Failed(Interrupted);
      }
      var sourceFingerprint := Fingerprint(tree, o);
      if fault.FirstFingerprint? || sourceFingerprint.None? {
        return Failed(NotReadable);
      }
      if fault.RenameCall? {
        return Failed(Interrupted);
      }
      tree := Rename(tree, o, n);
      var ok := fault != SecondFingerprint && Fingerprint(tree, n) == sourceFingerprint;
      ok := ok && MarkdownTail(o).Some? && MarkdownTail(n).Some?;
      if ok {
        var working := RewriteRows(id, o, n);
        if fault == NoFault {
          db := working;
          return Migrated;
        }
      }
      if undoWorks {
        tree := UndoMove(tree, o, n);
      }
      r := Failed(Interrupted);
    }

    method RewriteRows(id: nat, o: Path, n: Path) returns (working: Database)
      requires id in db.items
      ensures working == Rewrite(db, id, o, n)
    {
      var from, to := AsPosix(o), AsPosix(n);
      var files := RewriteFileRows(db.files, id, from, to);
      var items := db.items[id := db.items[id].(relpath := Some(to))];
      var manifests := RewriteManifestRows(db.manifests, db.items[id].key, from, to);
      var batches := RewriteBatchRows(db.batches, id, from, to);
      working := Database(items, files, manifests, batches);
    }

    method Turn(id: nat, w: Weather, dryRun: bool, before: Counts) returns (counts: Counts)
      requires GoodStore(Contents()) && id in db.items && db.items[id].relpath.Some?
      modifies this
      ensures Contents() == TurnStore(old(Contents()), id, w, dryRun)
      ensures counts == TurnCounts(before, old(db).items[id], dryRun,
        MigrateOne(old(Contents()), id, w.fault, w.undoWorks).1)
    {
      var o := Parts(db.items[id].relpath.value);
      if IsCurrent(o) {
        counts := before.(alreadyCorrect := before.alreadyCorrect + 1);
      } else if !IsLegacy(o) {
        counts := before.(skipped := before.skipped + 1);
      } else if dryRun {
        counts := before.(migrated := before.migrated + 1);
      } else {
        var r := MigrateOneItem(id, w.fault, w.undoWorks);
        counts := Tally(before, r);
      }
    }

    /** The campaign: one commit or one undo per item, and a count of each way it went. */
    method MigrateArchivePaths(ids: seq<nat>, weather: nat -> Weather, dryRun: bool) returns (counts: Counts)
      requires GoodStore(Contents()) && Enumerates(Contents(), ids)
      modifies this
      ensures (Contents(), counts) == Campaign(old(Contents()), ids, weather, dryRun, |ids|)
      ensures counts.total == counts.migrated + counts.alreadyCorrect + counts.skipped + counts.failed
      ensures CountsMean(old(Contents()), Contents(), ids, dryRun, counts)
    {
      hide MigrateOne, TurnCounts, TurnStore, CountsMean;
      counts := Counts(|ids|, 0, 0, 0, 0);
      var k := 0;
      while k < |ids|
        invariant k <= |ids|
        invariant (Contents(), counts) == Campaign(old(Contents()), ids, weather, dryRun, k)
      {
        counts := Turn(ids[k], weather(k), dryRun, counts);
        k := k + 1;
      }
      CampaignCounts(old(Contents()), ids, weather, dryRun, |ids|);
      CampaignCountsMean(old(Contents()), ids, weather, dryRun, |ids|);
      assert ids[..|ids|] == ids;
    }
  }
}
