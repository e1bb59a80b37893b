/**
The campaign over all archived items (`migrate_archive_paths`), its counts, and why running it
again moves nothing (src/oa_knowledge/archive_reconciliation.py).
*/
module MigrationCampaign {
  import opened Sequences
  import opened Wrappers
  import opened ArchivePaths
  import opened ArchiveTree
  import opened ArchiveMigration

  /** What goes wrong during one step, if anything. */
  datatype Weather = Weather(fault: Fault, undoWorks: bool)

  datatype Counts = Counts(total: nat, migrated: nat, alreadyCorrect: nat, skipped: nat, failed: nat)

  predicate Selected(row: ItemRow) {
    row.channel in {"done", "pending"} && row.relpath.Some?
  }

  ghost predicate Enumerates(s: Store, ids: seq<nat>) {
    && (forall k :: 0 <= k < |ids| ==> ids[k] in s.db.items && Selected(s.db.items[ids[k]]))
    && (forall i, j :: 0 <= i < j < |ids| ==> ids[i] != ids[j])
  }

  predicate LegacyItem(row: ItemRow)
    requires row.relpath.Some?
  {
    var o := Parts(row.relpath.value);
    IsLegacy(o) && !IsCurrent(o)
  }

  function Tally(c: Counts, r: Outcome): Counts {
    match r
    case Migrated => c.(migrated := c.migrated + 1)
    case AlreadyCorrect => c.(alreadyCorrect := c.alreadyCorrect + 1)
    case Failed(_) => c.(failed := c.failed + 1)
  }

  /** One turn of the campaign's loop: its effect on the store, and on the counts. */
  function TurnStore(s: Store, id: nat, w: Weather, dryRun: bool): Store
    requires GoodStore(s) && id in s.db.items && s.db.items[id].relpath.Some?
  {
    if dryRun || !LegacyItem(s.db.items[id]) then s else MigrateOne(s, id, w.fault, w.undoWorks).0
  }

  function TurnCounts(c: Counts, row: ItemRow, dryRun: bool, r: Outcome): Counts
    requires row.relpath.Some?
  {
    if IsCurrent(Parts(row.relpath.value)) then c.(alreadyCorrect := c.alreadyCorrect + 1)
    else if !LegacyItem(row) then c.(skipped := c.skipped + 1)
    else if dryRun then c.(migrated := c.migrated + 1)
    else Tally(c, r)
  }

  /** What one undisturbed or disturbed step leaves alone. */
  ghost predicate Frame(s: Store, id: nat, s': Store) {
    && GoodStore(s') && s'.db.items.Keys == s.db.items.Keys
    && (forall j :: j in s.db.items && j != id ==> s'.db.items[j] == s.db.items[j])
    && (forall j :: j in s.db.items && Selected(s.db.items[j]) ==> Selected(s'.db.items[j]))
  }

  lemma StepOutcome(s: Store, id: nat, w: Weather)
    requires GoodStore(s) && id in s.db.items && s.db.items[id].relpath.Some? && LegacyItem(s.db.items[id])
    ensures MigrateOne(s, id, w.fault, w.undoWorks).1 != AlreadyCorrect
  {
    StepShape(s, id, w.fault, w.undoWorks);
  }

  lemma StepFrame(s: Store, id: nat, w: Weather)
    requires GoodStore(s) && id in s.db.items && s.db.items[id].relpath.Some?
    ensures Frame(s, id, MigrateOne(s, id, w.fault, w.undoWorks).0)
  {
    MigrationKeepsStore(s, id, w.fault, w.undoWorks);
    StepRows(s, id, w.fault, w.undoWorks);
  }

  lemma TurnFrame(s: Store, id: nat, w: Weather, dryRun: bool)
    requires GoodStore(s) && id in s.db.items && s.db.items[id].relpath.Some?
    ensures Frame(s, id, TurnStore(s, id, w, dryRun))
  {
    StepFrame(s, id, w);
  }

  lemma TurnKeepsFiles(s: Store, id: nat, w: Weather, dryRun: bool)
    requires GoodStore(s) && id in s.db.items && s.db.items[id].relpath.Some?
    ensures SameFiles(s.tree, TurnStore(s, id, w, dryRun).tree)
  {
    MigrationKeepsFiles(s, id, w.fault, w.undoWorks);
    SameFilesRefl(s.tree, s.tree);
  }

  /** The store and the counts after the first `k` items. */
  function Campaign(s: Store, ids: seq<nat>, weather: nat -> Weather, dryRun: bool, k: nat): (r: (Store, Counts))
    requires GoodStore(s) && Enumerates(s, ids) && k <= |ids|
    ensures GoodStore(r.0) && Enumerates(r.0, ids)
    ensures forall j :: k <= j < |ids| ==> r.0.db.items[ids[j]] == s.db.items[ids[j]]
    decreases k
  {
    if k == 0 then (s, Counts(|ids|, 0, 0, 0, 0))
    else
      var (u, c) := Campaign(s, ids, weather, dryRun, k - 1);
      var id, w := ids[k - 1], weather(k - 1);
      TurnFrame(u, id, w, dryRun);
      (TurnStore(u, id, w, dryRun), TurnCounts(c, u.db.items[id], dryRun, MigrateOne(u, id, w.fault, w.undoWorks).1))
  }

  function LegacyCount(s: Store, ids: seq<nat>, k: nat): nat
    requires Enumerates(s, ids) && k <= |ids|
  {
    if k == 0 then 0
    else LegacyCount(s, ids, k - 1) + if LegacyItem(s.db.items[ids[k - 1]]) then 1 else 0
  }

  /**
  Every item is counted once, and the items that are migrated or fail are exactly the legacy
  ones: so a dry run announces precisely what a real run will migrate or fail to migrate.
  */
  lemma {:induction false} CampaignCounts(s: Store, ids: seq<nat>, weather: nat -> Weather, dryRun: bool, k: nat)
    requires GoodStore(s) && Enumerates(s, ids) && k <= |ids|
    ensures var c := Campaign(s, ids, weather, dryRun, k).1;
      && c.total == |ids|
      && c.migrated + c.alreadyCorrect + c.skipped + c.failed == k
      && c.migrated + c.failed == LegacyCount(s, ids, k)
      && (dryRun ==> c.failed == 0)
  {
    hide MigrateOne, TurnStore, TurnCounts, WillMigrate, SameFiles, Parts;
    if k > 0 {
      CampaignCounts(s, ids, weather, dryRun, k - 1);
      var (u, c) := Campaign(s, ids, weather, dryRun, k - 1);
      if LegacyItem(u.db.items[ids[k - 1]]) {
        StepOutcome(u, ids[k - 1], weather(k - 1));
      }
      CountsStep(c, u.db.items[ids[k - 1]], dryRun,
        MigrateOne(u, ids[k - 1], weather(k - 1).fault, weather(k - 1).undoWorks).1);
    }
  }

  lemma CountsStep(c: Counts, row: ItemRow, dryRun: bool, r: Outcome)
    requires row.relpath.Some? && (LegacyItem(row) ==> r != AlreadyCorrect)
    ensures var d := TurnCounts(c, row, dryRun, r);
      && d.total == c.total
      && d.migrated + d.alreadyCorrect + d.skipped + d.failed == c.migrated + c.alreadyCorrect + c.skipped + c.failed +
        1
      && d.migrated + d.failed == c.migrated + c.failed + (if LegacyItem(row) then 1 else 0)
      && (dryRun ==> d.failed == c.failed)
  {
  }

  lemma DryRunPredictsRealRun(s: Store, ids: seq<nat>, weather: nat -> Weather)
    requires GoodStore(s) && Enumerates(s, ids)
    ensures var dry := Campaign(s, ids, weather, true, |ids|).1;
      var real_ := Campaign(s, ids, weather, false, |ids|).1;
      && dry.migrated == real_.migrated + real_.failed
      && dry.alreadyCorrect + dry.skipped == real_.alreadyCorrect + real_.skipped
      && real_.total == real_.migrated + real_.alreadyCorrect + real_.skipped + real_.failed
  {
    CampaignCounts(s, ids, weather, true, |ids|);
    CampaignCounts(s, ids, weather, false, |ids|);
  }

  // --- what the counts count ---

  predicate Named(s: Store, id: nat) {
    id in s.db.items && s.db.items[id].relpath.Some?
  }

  /** The item was in the legacy layout, and its path is a current one now. */
  predicate Moved(s: Store, u: Store, id: nat) {
    WasLegacy(s, id) && Named(u, id) && IsCurrent(Parts(u.db.items[id].relpath.value))
  }

  /** The item was in the legacy layout, and its path is still the same. */
  predicate Stayed(s: Store, u: Store, id: nat) {
    WasLegacy(s, id) && Named(u, id) && u.db.items[id].relpath == s.db.items[id].relpath
  }

  predicate WasLegacy(s: Store, id: nat) {
    Named(s, id) && IsLegacy(Parts(s.db.items[id].relpath.value)) && !IsCurrent(Parts(s.db.items[id].relpath.value))
  }

  predicate WasCurrent(s: Store, id: nat) {
    Named(s, id) && IsCurrent(Parts(s.db.items[id].relpath.value))
  }

  predicate WasNeither(s: Store, id: nat) {
    Named(s, id) && !IsLegacy(Parts(s.db.items[id].relpath.value)) && !IsCurrent(Parts(s.db.items[id].relpath.value))
  }

  /** The counts of a campaign from `s` to `u` over the items. */
  ghost predicate CountsMean(s: Store, u: Store, ids: seq<nat>, dryRun: bool, c: Counts) {
    && c.migrated == |Those(ids, id => if dryRun then WasLegacy(s, id) else Moved(s, u, id))|
    && c.failed == |Those(ids, id => !dryRun && Stayed(s, u, id))|
    && c.alreadyCorrect == |Those(ids, id => WasCurrent(s, id))|
    && c.skipped == |Those(ids, id => WasNeither(s, id))|
  }

  lemma TurnMoves(s: Store, id: nat, w: Weather)
    requires GoodStore(s) && Named(s, id)
    ensures var (u, r) := (TurnStore(s, id, w, false), MigrateOne(s, id, w.fault, w.undoWorks).1);
      WasLegacy(s, id) ==>
        && r != AlreadyCorrect
        && (Moved(s, u, id) <==> r.Migrated?) && (Stayed(s, u, id) <==> r.Failed?)
  {
    hide MigrateOne, Parts, IsLegacy, IsCurrent, GoodStore;
    if WasLegacy(s, id) {
      StepOutcome(s, id, w);
      PathAfterStep(s, id, w);
    }
  }

  lemma PathAfterStep(s: Store, id: nat, w: Weather)
    requires GoodStore(s) && Named(s, id)
    ensures var (u, r) := MigrateOne(s, id, w.fault, w.undoWorks);
      && (r.Failed? ==> u.db == s.db)
      && (r.Migrated? ==> Named(u, id) && IsCurrent(Parts(u.db.items[id].relpath.value)))
  {
    hide MigrateOne, Rename, Rewrite, GoodPlan, Check, Parts, IsCurrent;
    StepShape(s, id, w.fault, w.undoWorks);
    match Check(s, s.db.items[id])
    case Failure(_) => RefusedOutcome(s, s.db.items[id]);
    case Success(p) => NewPathReadsBack(s, id, p);
  }

  lemma RefusedOutcome(s: Store, row: ItemRow)
    requires row.relpath.Some? && Check(s, row).Failure?
    ensures Check(s, row).error == AlreadyCorrect || Check(s, row).error.Failed?
  {
  }

  lemma NewPathReadsBack(s: Store, id: nat, p: Plan)
    requires GoodStore(s) && Named(s, id) && Check(s, s.db.items[id]) == Success(p)
    ensures var db := Rewrite(s.db, id, p.from, p.to);
      id in db.items && db.items[id].relpath.Some? && IsCurrent(Parts(db.items[id].relpath.value))
  {
    CheckGivesGoodPlan(s, s.db.items[id]);
    PlanComponents(s, s.db.items[id], p);
    PartsOfPosix(p.to);
    hide Check, IsCurrent, RewriteFiles, RewriteManifests, RewriteBatches, Parts;
  }

  /**
  The counts of a real run are read off the items themselves: `migrated` are those whose legacy path has
  become a current one, `failed` those that still have their legacy path, `alreadyCorrect` and `skipped` those
  that began with a current path or with neither. A dry run announces every legacy item as migrated.
  */
  lemma {:induction false} CampaignCountsMean(s: Store, ids: seq<nat>, weather: nat -> Weather, dryRun: bool, k: nat)
    requires GoodStore(s) && Enumerates(s, ids) && k <= |ids|
    ensures var (u, c) := Campaign(s, ids, weather, dryRun, k);
      CountsMean(s, u, ids[..k], dryRun, c)
  {
    hide MigrateOne, TurnStore, TurnCounts, Parts, CountsMean, SameFiles;
    if k == 0 {
      NothingCounted(s, dryRun);
    } else {
      CampaignCountsMean(s, ids, weather, dryRun, k - 1);
      TurnInCampaign(s, ids, weather, dryRun, k);
    }
  }

  lemma NothingCounted(s: Store, dryRun: bool)
    ensures forall n :: CountsMean(s, s, [], dryRun, Counts(n, 0, 0, 0, 0))
  {
    hide Parts;
  }

  lemma TurnInCampaign(s: Store, ids: seq<nat>, weather: nat -> Weather, dryRun: bool, k: nat)
    requires GoodStore(s) && Enumerates(s, ids) && 0 < k <= |ids|
    requires var (u, c) := Campaign(s, ids, weather, dryRun, k - 1);
      CountsMean(s, u, ids[..k - 1], dryRun, c)
    ensures var (v, d) := Campaign(s, ids, weather, dryRun, k);
      CountsMean(s, v, ids[..k], dryRun, d)
  {
    hide MigrateOne, TurnStore, TurnCounts, Parts, CountsMean, SameFiles, WasLegacy, Moved, Stayed, GoodStore, LegacyItem,
      IsLegacy, IsCurrent;
    var (u, c) := Campaign(s, ids, weather, dryRun, k - 1);
    var v, id := Campaign(s, ids, weather, dryRun, k).0, ids[k - 1];
    var r := MigrateOne(u, id, weather(k - 1).fault, weather(k - 1).undoWorks).1;
    TurnFrame(u, id, weather(k - 1), dryRun);
    var front := ids[..k - 1];
    FrontStays(s, u, v, ids, k);
    TurnMoves(u, id, weather(k - 1));
    assert ids[..k] == front + [id];
    OneMoreCounted(s, u, v, front, id, dryRun, c, r);
  }

  lemma FrontStays(s: Store, u: Store, v: Store, ids: seq<nat>, k: nat)
    requires 0 < k <= |ids| && Enumerates(s, ids) && Enumerates(u, ids) && Frame(u, ids[k - 1], v)
    ensures Named(u, ids[k - 1]) && Named(v, ids[k - 1]) && ids[k - 1] !in ids[..k - 1]
    ensures forall j :: j in ids[..k - 1] ==> Named(u, j) && Named(v, j) && v.db.items[j] == u.db.items[j]
  {
    hide GoodStore;
    forall j | j in ids[..k - 1] ensures j != ids[k - 1] && j in u.db.items && Selected(u.db.items[j]) {
      var i :| 0 <= i < k - 1 && ids[i] == j;
    }
  }

  lemma OneMoreCounted(s: Store, u: Store, v: Store, ids: seq<nat>, id: nat, dryRun: bool, c: Counts, r: Outcome)
    requires CountsMean(s, u, ids, dryRun, c) && id !in ids && Named(s, id) && Named(u, id) && Named(v, id)
    requires u.db.items[id] == s.db.items[id]
    requires forall j :: j in ids ==> Named(u, j) && Named(v, j) && v.db.items[j] == u.db.items[j]
    requires !dryRun && WasLegacy(u, id) ==>
      r != AlreadyCorrect && (Moved(u, v, id) <==> r.Migrated?) && (Stayed(u, v, id) <==> r.Failed?)
    ensures CountsMean(s, v, ids + [id], dryRun, TurnCounts(c, u.db.items[id], dryRun, r))
  {
    hide Parts, IsLegacy, IsCurrent;
    ThoseAppend(ids, id, j => if dryRun then WasLegacy(s, j) else Moved(s, v, j));
    ThoseAppend(ids, id, j => !dryRun && Stayed(s, v, j));
    ThoseAppend(ids, id, j => WasCurrent(s, j));
    ThoseAppend(ids, id, j => WasNeither(s, j));
    ThoseAlike(ids, j => if dryRun then WasLegacy(s, j) else Moved(s, u, j),
      j => if dryRun then WasLegacy(s, j) else Moved(s, v, j));
    ThoseAlike(ids, j => !dryRun && Stayed(s, u, j), j => !dryRun && Stayed(s, v, j));
  }

  /** Whatever fails on the way, and even when items share a target, no file content is lost or copied. */
  lemma {:induction false} CampaignKeepsFiles(s: Store, ids: seq<nat>, weather: nat -> Weather, dryRun: bool, k: nat)
    requires GoodStore(s) && Enumerates(s, ids) && k <= |ids|
    ensures SameFiles(s.tree, Campaign(s, ids, weather, dryRun, k).0.tree)
  {
    hide MigrateOne, TurnStore, TurnCounts, WillMigrate, LegacyItem, SameFiles;
    if k == 0 {
      SameFilesRefl(s.tree, s.tree);
    } else {
      CampaignKeepsFiles(s, ids, weather, dryRun, k - 1);
      var (u, c) := Campaign(s, ids, weather, dryRun, k - 1);
      TurnKeepsFiles(u, ids[k - 1], weather(k - 1), dryRun);
      SameFilesTrans(s.tree, u.tree, Campaign(s, ids, weather, dryRun, k).0.tree);
    }
  }

  // --- a second run ---

  predicate WillMove(t: Tree, o: Path, n: Path)
    requires n != []
  {
    Prepare(t, o, n).Success? && Readable(Prepare(t, o, n).value, o) && MarkdownTail(o).Some? && MarkdownTail(n).Some?
  }

  /** Would an undisturbed step move this item? */
  predicate WillMigrate(t: Tree, row: ItemRow)
    requires row.relpath.Some?
  {
    Route(row).Success? && WillMove(t, Route(row).value.0, Route(row).value.1)
  }

  lemma MigratesIff(s: Store, id: nat, undoWorks: bool)
    requires GoodStore(s) && id in s.db.items && s.db.items[id].relpath.Some?
    ensures MigrateOne(s, id, NoFault, undoWorks).1 == Migrated <==> WillMigrate(s.tree, s.db.items[id])
  {
    hide Rename, Fingerprint, UndoMove, MarkdownTail, Rewrite, MakeDirs, Route, Prepare;
    var row := s.db.items[id];
    match Check(s, row)
    case Failure(_) => RefusalIsNotSuccess(s, row);
    case Success(p) =>
      CheckGivesGoodPlan(s, row);
      RenameKeepsFingerprint(p.tree, p.from, p.to);
      FingerprintIff(p.tree, p.from);
  }

  /** Creating a directory is blocked exactly by an entry on the way that is not a directory. */
  lemma {:induction false} MakeDirsBlocked(t: Tree, p: Path)
    requires WellFormed(t)
    ensures MakeDirs(t, p).None? <==> exists q :: q in t && q <= p && !t[q].Dir?
    decreases |p|
  {
    if IsDir(t, p) {
      forall q | q in t && q <= p ensures t[q].Dir? {
        if q != p {
          AncestorsAreDirs(t, p, q);
        }
      }
    } else if p !in t {
      MakeDirsBlocked(t, Parent(p));
      forall q | q in t && q <= p ensures q <= Parent(p) {
        ParentOf(q, p);
      }
      forall q | q in t && q <= Parent(p) ensures q <= p {
        ParentOf(q, p);
      }
    }
  }

  /** Entries outside `raw`, and entries no fingerprint accepts, stay; nothing appears below `raw`. */
  ghost predicate Harmless(t: Tree, t': Tree) {
    && WellFormed(t) && WellFormed(t')
    && (forall q :: q in t && q != [] && (q[0] != "raw" || t[q].Link? || t[q].Special?) ==> q in t' && t'[q] == t[q])
    && (forall q :: q in t' && q != [] && q[0] == "raw" ==> q in t && t[q] == t'[q])
  }

  lemma PreparingIsHarmless(t: Tree, p: Plan)
    requires WellFormed(t) && GoodPlan(t, p)
    ensures Harmless(t, p.tree)
  {
  }

  lemma MovingIsHarmless(t: Tree, p: Plan)
    requires WellFormed(t) && GoodPlan(t, p) && Readable(p.tree, p.from)
    ensures Harmless(t, Rename(p.tree, p.from, p.to))
  {
    hide Rename, Moved, MakeDirs;
    var t' := Rename(p.tree, p.from, p.to);
    RenameWellFormed(p.tree, p.from, p.to);
    forall q | q in t && q != [] && (q[0] != "raw" || t[q].Link? || t[q].Special?) ensures q in t' && t'[q] == t[q] {
      RenameIff(p.tree, p.from, p.to, q);
    }
    forall q | q in t' && q != [] && q[0] == "raw" ensures q in t && t[q] == t'[q] {
      RenameIff(p.tree, p.from, p.to, q);
    }
  }

  lemma StepIsHarmless(s: Store, id: nat, undoWorks: bool)
    requires GoodStore(s) && id in s.db.items && s.db.items[id].relpath.Some?
    ensures Harmless(s.tree, MigrateOne(s, id, NoFault, undoWorks).0.tree)
  {
    StepShape(s, id, NoFault, undoWorks);
    MigratesIff(s, id, undoWorks);
    match Check(s, s.db.items[id])
    case Failure(_) =>
    case Success(p) =>
      PreparingIsHarmless(s.tree, p);
      if Readable(p.tree, p.from) {
        MovingIsHarmless(s.tree, p);
      }
  }

  lemma BlockedStaysBlocked(t: Tree, t': Tree, o: Path, n: Path)
    requires Harmless(t, t') && IsLegacy(o) && IsCurrent(n)
    requires WillMove(t', o, n)
    ensures WillMove(t, o, n)
  {
    TargetStaysOpen(t, t', n);
    var u, u' := Prepare(t, o, n).value, Prepare(t', o, n).value;
    MakeDirsOnlyAdds(t, Parent(n));
    MakeDirsOnlyAdds(t', Parent(n));
    forall q | q in u && o <= q && q != o ensures u[q].Dir? || u[q].File? {
      if u[q].Link? || u[q].Special? {
        assert q in t && t[q] == u[q];
        assert u'[q] == t'[q] == t[q];
      }
    }
  }

  /** An item that will not migrate will not migrate after another item's step either. */
  lemma StuckStays(t: Tree, t': Tree, row: ItemRow)
    requires Harmless(t, t') && row.relpath.Some? && !WillMigrate(t, row)
    ensures !WillMigrate(t', row)
  {
    if WillMigrate(t', row) {
      BlockedStaysBlocked(t, t', Route(row).value.0, Route(row).value.1);
    }
  }

  lemma TargetStaysOpen(t: Tree, t': Tree, n: Path)
    requires Harmless(t, t') && IsCurrent(n) && MakeDirs(t', Parent(n)).Some?
    ensures MakeDirs(t, Parent(n)).Some?
  {
    MakeDirsBlocked(t', Parent(n));
    MakeDirsBlocked(t, Parent(n));
    forall q | q in t && q <= Parent(n) ensures t[q].Dir? {
      assert q != [] && q[0] == n[0];
    }
  }

  /** After its own undisturbed step an item will not migrate again. */
  lemma StuckAfterOwnStep(s: Store, id: nat, undoWorks: bool)
    requires GoodStore(s) && id in s.db.items && s.db.items[id].relpath.Some?
    ensures var s' := MigrateOne(s, id, NoFault, undoWorks).0;
            id in s'.db.items && s'.db.items[id].relpath.Some? && !WillMigrate(s'.tree, s'.db.items[id])
  {
    StepShape(s, id, NoFault, undoWorks);
    MigratesIff(s, id, undoWorks);
    StepIsHarmless(s, id, undoWorks);
    var s' := MigrateOne(s, id, NoFault, undoWorks).0;
    if WillMigrate(s.tree, s.db.items[id]) {
      var p := Check(s, s.db.items[id]).value;
      PlanComponents(s, s.db.items[id], p);
      MovedRowIsStuck(s'.tree, p.to, s'.db.items[id]);
    } else {
      StuckStays(s.tree, s'.tree, s.db.items[id]);
    }
  }

  lemma MovedRowIsStuck(t: Tree, n: Path, row: ItemRow)
    requires Components(n) && IsCurrent(n) && row.relpath == Some(AsPosix(n))
    ensures !WillMigrate(t, row)
  {
    PartsOfPosix(n);
  }

  ghost predicate Stuck(s: Store, id: nat) {
    id in s.db.items && s.db.items[id].relpath.Some? && !WillMigrate(s.tree, s.db.items[id])
  }

  lemma TurnKeepsStuck(u: Store, id: nat, w: Weather, other: nat)
    requires GoodStore(u) && id in u.db.items && u.db.items[id].relpath.Some? && w.fault == NoFault
    requires other in u.db.items && u.db.items[other].relpath.Some?
    requires other == id || Stuck(u, other)
    ensures Stuck(TurnStore(u, id, w, false), other)
  {
    if LegacyItem(u.db.items[id]) {
      StepFrame(u, id, w);
      if other == id {
        StuckAfterOwnStep(u, id, w.undoWorks);
      } else {
        StepIsHarmless(u, id, w.undoWorks);
        StuckStays(u.tree, TurnStore(u, id, w, false).tree, u.db.items[other]);
      }
    }
  }

  /** All of the first `k` items are stuck after `k` undisturbed turns. */
  lemma {:induction false} AllStuck(s: Store, ids: seq<nat>, weather: nat -> Weather, k: nat)
    requires GoodStore(s) && Enumerates(s, ids) && k <= |ids|
    requires forall i :: weather(i).fault == NoFault
    ensures forall j :: 0 <= j < k ==> Stuck(Campaign(s, ids, weather, false, k).0, ids[j])
  {
    hide MigrateOne, TurnStore, TurnCounts, WillMigrate, LegacyItem, SameFiles;
    if k > 0 {
      AllStuck(s, ids, weather, k - 1);
      var u := Campaign(s, ids, weather, false, k - 1).0;
      forall j | 0 <= j < k ensures Stuck(Campaign(s, ids, weather, false, k).0, ids[j]) {
        TurnKeepsStuck(u, ids[k - 1], weather(k - 1), ids[j]);
      }
    }
  }

  lemma StuckTurn(u: Store, c: Counts, id: nat, w: Weather)
    requires GoodStore(u) && Stuck(u, id) && w.fault == NoFault
    ensures TurnStore(u, id, w, false).db == u.db
    ensures TurnCounts(c, u.db.items[id], false, MigrateOne(u, id, w.fault, w.undoWorks).1).migrated == c.migrated
  {
    MigratesIff(u, id, w.undoWorks);
    StepShape(u, id, NoFault, w.undoWorks);
  }

  /** A run over stuck items migrates nothing. */
  lemma {:induction false} StuckRun(s: Store, ids: seq<nat>, weather: nat -> Weather, k: nat)
    requires GoodStore(s) && Enumerates(s, ids) && k <= |ids|
    requires forall i :: weather(i).fault == NoFault
    requires forall j :: 0 <= j < |ids| ==> Stuck(s, ids[j])
    ensures var (s', c) := Campaign(s, ids, weather, false, k);
            c.migrated == 0 && s'.db == s.db && forall j :: 0 <= j < |ids| ==> Stuck(s', ids[j])
  {
    hide MigrateOne, TurnStore, TurnCounts, WillMigrate, LegacyItem, SameFiles;
    if k > 0 {
      StuckRun(s, ids, weather, k - 1);
      var (u, c) := Campaign(s, ids, weather, false, k - 1);
      StuckTurn(u, c, ids[k - 1], weather(k - 1));
      forall j | 0 <= j < |ids| ensures Stuck(Campaign(s, ids, weather, false, k).0, ids[j]) {
        TurnKeepsStuck(u, ids[k - 1], weather(k - 1), ids[j]);
      }
    }
  }

  /** When nothing but the data itself stopped items in the first run, a second run migrates nothing. */
  lemma SecondRunMigratesNothing(s: Store, ids: seq<nat>, first: nat -> Weather, second: nat -> Weather)
    requires GoodStore(s) && Enumerates(s, ids)
    requires forall i :: first(i).fault == NoFault && second(i).fault == NoFault
    ensures var s' := Campaign(s, ids, first, false, |ids|).0;
            var (s'', c) := Campaign(s', ids, second, false, |ids|);
            c.migrated == 0 && s''.db == s'.db
  {
    AllStuck(s, ids, first, |ids|);
    StuckRun(Campaign(s, ids, first, false, |ids|).0, ids, second, |ids|);
  }
}
