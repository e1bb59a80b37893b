/**
Concrete inputs: where the code falls short of what one would expect of it, one that shows it; the
theorems named in each comment say exactly when this happens.
*/
module Witnesses {
  import opened Wrappers
  import ArchivePaths
  import ArchiveTree
  import Migration = ArchiveMigration
  import Campaign = MigrationCampaign
  import Evidence = AuditEvidence
  import Ledger = AuditLedger
  import Termination = AuditTermination
  import WithoutJob = AuditWithoutJob
  import Scan = InventoryScan
  import Parse = ParseArtifacts
  import Pending = PendingSync

  // --- archive paths (ArchivePaths.ReplaceMovesParts, ArchiveMigration.FailureRestores) ---

  const LEGACY: ArchivePaths.Path := ["raw", "done", "x"]
  const TARGET: ArchivePaths.Path := ["originals", "unknown", "unknown_t"]
  const TREE: ArchiveTree.Tree :=
    map[["raw"] := ArchiveTree.Dir, ["raw", "done"] := ArchiveTree.Dir, ["raw", "done", "x"] := ArchiveTree.Dir]
  const ROW := Migration.ItemRow("k", "done", "t", None, Some("raw/done/x"))

  lemma LegacyText()
    ensures ArchivePaths.AsPosix(LEGACY) == "raw/done/x" && ArchivePaths.Parts("raw/done/x") == LEGACY
  {
    hide ArchivePaths.Pieces, ArchivePaths.FirstSlash, ArchivePaths.Parts;
    var p := LEGACY;
    assert p[1..] == ["done", "x"] && p[1..][1..] == ["x"];
    ArchivePaths.PartsOfPosix(p);
  }

  /** A stored path with a doubled separator lies in the moved directory, and its text is not rewritten. */
  lemma DoubledSeparatorIsNotMoved()
    ensures ArchivePaths.Parts("raw//done/x") == LEGACY
    ensures ArchivePaths.ReplacePrefix(Some("raw//done/x"), ArchivePaths.AsPosix(LEGACY), "originals/y") ==
      Some("raw//done/x")
  {
    hide ArchivePaths.Pieces, ArchivePaths.FirstSlash, ArchivePaths.AsPosix;
    LegacyText();
    var v, w := "raw//done/x", "raw/done/x";
    assert v[4] != w[4];
    FirstPiece("raw", "/done/x");
    FirstPiece("", "done/x");
    FirstPiece("raw", "done/x");
    assert "raw" + "/" + "/done/x" == v && "raw" + "/" + "done/x" == w && "" + "/" + "done/x" == "/done/x";
    assert ArchivePaths.Pieces(v) == ["raw"] + ArchivePaths.Pieces("done/x");
    assert ArchivePaths.Pieces(w) == ["raw"] + ArchivePaths.Pieces("done/x");
  }

  lemma FirstPiece(c: string, rest: string)
    requires '/' !in c
    ensures ArchivePaths.Pieces(c + "/" + rest) == ArchivePaths.Keep(c) + ArchivePaths.Pieces(rest)
  {
    var s := c + "/" + rest;
    ArchivePaths.FirstSlashAfter(c, rest);
    assert s[..|c|] == c && s[|c| + 1..] == rest;
  }

  lemma TreeIsWellFormed()
    ensures ArchiveTree.WellFormed(TREE)
  {
    assert ArchiveTree.Parent(["raw"]) == [] && ArchiveTree.Parent(["raw", "done"]) == ["raw"] &&
      ArchiveTree.Parent(["raw", "done", "x"]) == ["raw", "done"];
  }

  lemma ParentsCanBeMade()
    ensures ArchiveTree.Parent(TARGET) == ["originals", "unknown"] &&
      !ArchiveTree.IsDir(TREE, ArchiveTree.Parent(TARGET))
    ensures ArchiveTree.MakeDirs(TREE, ArchiveTree.Parent(TARGET)).Some? && TARGET !in TREE
  {
    var top: ArchivePaths.Path, middle: ArchivePaths.Path := ["originals"], ["originals", "unknown"];
    assert top[0] != "raw" && middle[0] != "raw" && TARGET[0] != "raw";
    assert forall p :: p in TREE ==> p[0] == "raw";
    assert ArchiveTree.Parent(top) == [] && ArchiveTree.Parent(middle) == top && ArchiveTree.Parent(TARGET) == middle;
    assert ArchiveTree.MakeDirs(TREE, top).Some?;
    assert ArchiveTree.MakeDirs(TREE, middle).Some?;
  }

  lemma RouteOfRow()
    ensures Migration.Route(ROW) == Success((LEGACY, TARGET))
  {
    hide ArchivePaths.Parts, ArchivePaths.AsPosix;
    LegacyText();
    assert LEGACY[0] != "originals";
    assert "unknown_" + "t" == "unknown_t";
  }

  /** A migration that fails in its commit leaves the directories it made for the target. */
  lemma FailedMigrationLeavesParents()
    ensures var s := Migration.Store(TREE, Migration.Database(map[0 := ROW], map[], map[], map[]));
      && Migration.GoodStore(s)
      && Migration.MigrateOne(s, 0, Migration.Commit, true).1.Failed?
      && Migration.MigrateOne(s, 0, Migration.Commit, true).0.tree != TREE
  {
    hide Migration.MigrateOne, Migration.Route, ArchiveTree.MakeDirs, Migration.Move, ArchiveTree.WellFormed;
    var s := Migration.Store(TREE, Migration.Database(map[0 := ROW], map[], map[], map[]));
    TreeIsWellFormed();
    ParentsCanBeMade();
    RouteOfRow();
    assert Migration.Check(s, ROW).Success? && Migration.Check(s, ROW).value.to == TARGET;
    hide Migration.Check;
    Migration.StepShape(s, 0, Migration.Commit, true);
    Migration.FailureRestores(s, 0, Migration.Commit);
  }

  /** Two items in one directory: the first one's migration leaves the second one's path pointing at nothing. */
  lemma SharedDirectoryDangles()
    ensures var other := ROW.(key := "l");
      var s := Migration.Store(TREE, Migration.Database(map[0 := ROW, 1 := other], map[], map[], map[]));
      && Migration.GoodStore(s)
      && Migration.MigrateOne(s, 0, Migration.NoFault, true).1 == Migration.Migrated
      && var u := Migration.MigrateOne(s, 0, Migration.NoFault, true).0;
         && 1 in u.db.items && u.db.items[1].relpath == Some("raw/done/x")
         && LEGACY in s.tree && LEGACY !in u.tree
  {
    hide Migration.MigrateOne, Migration.Route, ArchiveTree.MakeDirs, ArchiveTree.WellFormed, Migration.OtherRowsStay;
    var other := ROW.(key := "l");
    var s := Migration.Store(TREE, Migration.Database(map[0 := ROW, 1 := other], map[], map[], map[]));
    TreeIsWellFormed();
    ParentsCanBeMade();
    RouteOfRow();
    LegacyCanMove();
    Campaign.MigratesIff(s, 0, true);
    assert Migration.Check(s, ROW).Success?;
    var p := Migration.Check(s, ROW).value;
    assert p.from == LEGACY;
    hide Migration.Check, Campaign.WillMigrate;
    Migration.StepRows(s, 0, Migration.NoFault, true);
    Migration.MigrationLeavesOthers(s, 0, p, true, LEGACY);
  }

  lemma LegacyCanMove()
    ensures Campaign.WillMigrate(TREE, ROW)
  {
    hide Migration.Route, ArchiveTree.MakeDirs;
    RouteOfRow();
    ParentsCanBeMade();
    var tree := ArchiveTree.MakeDirs(TREE, ArchiveTree.Parent(TARGET)).value;
    ArchiveTree.MakeDirsOnlyAdds(TREE, ArchiveTree.Parent(TARGET));
    assert ArchiveTree.Readable(tree, LEGACY);
    assert Migration.Prepare(TREE, LEGACY, TARGET) == Success(tree);
    assert LEGACY[0] != "originals" && LEGACY[1] == "done" && TARGET[0] == "originals";
    assert ".." !in LEGACY && ".." !in TARGET;
    assert ArchivePaths.TailStart(LEGACY, 1) == Some(1);
  }

  // --- inventory (InventoryRuns.ResumedScanEqualsOnePass) ---

  /** A source without pages: a batch that nothing disturbs fails. */
  lemma EmptySourceFails()
    ensures var m := Scan.Moment(Scan.Source(0, []), Scan.Works, false, false);
      var l := Scan.Ledger(Scan.Queued, Scan.FRESH_PARAMS, map[], []);
      Scan.Batch(l, t => m).status == Scan.Failed
  {
  }

  // --- audit (AuditLedger.CloseIsHonestIff, AuditWithoutJob.CompletesWithoutJobIff) ---

  /**
  An item requeued between the check for open items and the completing transaction: the run completes with it
  open.
  */
  lemma LateRequeueIsMissed()
    ensures var item := Ledger.Item("k", Evidence.Pending, true, 1);
      var run := Ledger.Run(Ledger.Running, false, 1, 0, 0, 0, 0);
      var l := Ledger.Ledger(run, [item], Some(Ledger.Job(0)));
      Ledger.Balanced(l) && Ledger.Close(l).run.status == Ledger.Completed && !Ledger.Balanced(Ledger.Close(l))
  {
    var items := [Ledger.Item("k", Evidence.Pending, true, 1)];
    assert items[..0] == [];
    forall p: Ledger.Status -> bool ensures Ledger.Count(items, p) == if p(Evidence.Pending) then 1 else 0 {
      assert Ledger.Count(items[..0], p) == 0;
    }
    var run := Ledger.Run(Ledger.Running, false, 1, 0, 0, 0, 0);
    var l := Ledger.Ledger(run, items, Some(Ledger.Job(0)));
    assert Ledger.Refresh(run, items) == run;
    Ledger.CloseIsHonestIff(l);
  }

  /** No job row, one item matched and one that cannot be reached: the batch does not complete the run. */
  lemma UnreachableWithoutJob(manifest: seq<string>, turn: Termination.Turn)
    ensures var items := [Ledger.Item("a", Evidence.Matched, true, 1), Ledger.Item("b", Evidence.Pending, true, 0)];
      var l := Ledger.Ledger(Ledger.Run(Ledger.Running, false, 2, 1, 1, 0, 0), items, None);
      var inspect := (k, n) => Ledger.Raised(true);
      Ledger.Execute(l, manifest, turn.repaired, inspect, turn.budget).run.status != Ledger.Completed
  {
    hide Ledger.Execute;
    var items := [Ledger.Item("a", Evidence.Matched, true, 1), Ledger.Item("b", Evidence.Pending, true, 0)];
    var l := Ledger.Ledger(Ledger.Run(Ledger.Running, false, 2, 1, 1, 0, 0), items, None);
    WithoutJob.OneLostItemIsEnough(l, manifest, turn, (k, n) => Ledger.Raised(true), 1);
  }

  // --- parse artifacts (ParseArtifacts.ActiveStaysValidIff) ---

  /** The product in use is parsed again below one half: it is rejected, and still the active one. */
  lemma RejectedStaysActive()
    ensures var identity := Parse.Identity(Parse.Markitdown, "1", "p", "c");
      var s := Parse.Store(map[7 := Parse.Artifact(3, identity, 5, Some(0.9), Parse.Valid)], map[3 := 7],
        map[5 := Parse.Job(3, Parse.Markitdown, Parse.Queued)]);
      && Parse.Sound(s)
      && var u := Parse.Finished(s, 5, 7, 3, Parse.Outcome(identity, 0.1));
         u.active == map[3 := 7] && u.artifacts[7].status == Parse.Rejected
  {
  }

  // --- pending items (PendingErasure.ErasesOverRunsIff) ---

  /** A cleaned row that is listed again shows its content, and no cleanup takes that away. */
  lemma CleanedIsShownAgain(delivery: Option<Pending.Delivery>, policy: Pending.Policy, force: bool, retry: bool,
      fault: bool)
    ensures var item := Pending.Item("1", "a");
      var key := Pending.KeyOf(item);
      var cleaned := Pending.Ledger(map[key :=
        Pending.Occurrence(true, Pending.Cleaned, Some("a"), None, Pending.CleanedUp)], []);
      var u := Pending.Cleanup(Pending.SyncItem(cleaned, item, Pending.Normal), key, delivery, policy, force, retry,
        fault);
      u.rows[key].shown == Some("a") && u.tasks == []
  {
  }
}
