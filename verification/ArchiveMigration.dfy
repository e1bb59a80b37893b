/**
Moving one archive directory and the rows that name it (src/oa_knowledge/archive_reconciliation.py).

`MigrateOne` is the whole step as a function of the store: the directory tree, the committed
rows, the operation that fails (if any), and whether the undo rename itself works.
*/
module ArchiveMigration {
  import opened Wrappers
  import opened ArchivePaths
  import opened ArchiveTree

  datatype ItemRow = ItemRow(key: string, channel: string, title: string, initiated: Option<Day>,
    relpath: Option<string>)
  datatype FileRow = FileRow(itemId: nat, relpath: Option<string>)
  datatype ManifestRow = ManifestRow(key: string, relpath: Option<string>)
  datatype BatchRow = BatchRow(itemId: Option<nat>, relpath: Option<string>)

  datatype Database = Database(
    items: map<nat, ItemRow>,
    files: map<nat, FileRow>,
    manifests: map<nat, ManifestRow>,
    batches: map<nat, BatchRow>)

  datatype Store = Store(tree: Tree, db: Database)

  /** The operation that raises, when one does. */
  datatype Fault =
    | NoFault | DeviceCheck | FirstFingerprint | RenameCall | SecondFingerprint | RowRewrite | Flush | Commit

  datatype Reason =
    | UnexpectedPrefix | MalformedPath | SourceMissing | TargetExists | TargetParentBlocked
    | NotReadable | Interrupted

  datatype Outcome = AlreadyCorrect | Migrated | Failed(reason: Reason)

  /** What the naming helper guarantees of titles and formatted dates. */
  predicate GoodItem(row: ItemRow) {
    && '/' !in row.title
    && (row.initiated.Some? ==>
          Component(row.initiated.value.year) && Component(row.initiated.value.month) &&
            Component(row.initiated.value.day))
  }

  ghost predicate GoodStore(s: Store) {
    WellFormed(s.tree) && forall i :: i in s.db.items ==> GoodItem(s.db.items[i])
  }

  function NewArchivePath(row: ItemRow, o: Path): Option<Path>
    requires IsLegacy(o)
  {
    if o[1] == "done" then Some(DoneDirectory(row.title, row.initiated))
    else if |o| == 4 then Some(PendingDirectory(o[2], o[3]))
    else None
  }

  lemma NewPathIsCurrent(row: ItemRow, o: Path)
    requires IsLegacy(o) && NewArchivePath(row, o).Some?
    ensures var n := NewArchivePath(row, o).value;
            IsCurrent(n) && n != [] && Separate(o, n) && !IsLegacy(n)
  {
  }

  function RewriteFiles(files: map<nat, FileRow>, id: nat, o: string, n: string): map<nat, FileRow> {
    map f | f in files ::
      if files[f].itemId == id then files[f].(relpath := ReplacePrefix(files[f].relpath, o, n)) else files[f]
  }

  function RewriteManifests(rows: map<nat, ManifestRow>, key: string, o: string, n: string): map<nat, ManifestRow> {
    map m | m in rows ::
      if rows[m].key == key then rows[m].(relpath := ReplacePrefix(rows[m].relpath, o, n)) else rows[m]
  }

  function RewriteBatches(rows: map<nat, BatchRow>, id: nat, o: string, n: string): map<nat, BatchRow> {
    map b | b in rows ::
      if rows[b].itemId == Some(id) then rows[b].(relpath := ReplacePrefix(rows[b].relpath, o, n)) else rows[b]
  }

  function Rewrite(db: Database, id: nat, o: Path, n: Path): Database
    requires id in db.items
  {
    var from, to := AsPosix(o), AsPosix(n);
    Database(
      db.items[id := db.items[id].(relpath := Some(to))],
      RewriteFiles(db.files, id, from, to),
      RewriteManifests(db.manifests, db.items[id].key, from, to),
      RewriteBatches(db.batches, id, from, to))
  }

  function UndoMove(t: Tree, o: Path, n: Path): Tree
    requires Separate(o, n) && o != []
  {
    if n in t && o !in t then
      match MakeDirs(t, Parent(o))
      case None => t
      case Some(u) => if VacantNow(u, o) then Rename(u, n, o) else t
    else t
  }

  predicate VacantNow(t: Tree, n: Path)
    ensures VacantNow(t, n) <==> Vacant(t, n)
  {
    forall q :: q in t ==> !(n <= q)
  }

  /** What the step found out on the way. */
  datatype Findings = Findings(readable: bool, sameListing: bool, markdownTails: bool)

  function Inspect(t: Tree, o: Path, n: Path): Findings
    requires Separate(o, n) && Vacant(t, n)
  {
    Findings(
      Fingerprint(t, o).Some?,
      Fingerprint(Rename(t, o, n), n) == Fingerprint(t, o),
      MarkdownTail(o).Some? && MarkdownTail(n).Some?)
  }

  /** The part of the step that follows the checks: `o` is a directory, `n` is free, its parent exists. */
  function Move(s: Store, id: nat, o: Path, n: Path, found: Findings, fault: Fault, undoWorks: bool): (Store, Outcome)
    requires id in s.db.items && Separate(o, n) && o != [] && Vacant(s.tree, n)
  {
    if fault.DeviceCheck? then (s, Failed(Interrupted))
    else if fault.FirstFingerprint? || !found.readable then (s, Failed(NotReadable))
    else if fault.RenameCall? then (s, Failed(Interrupted))
    else
      var u := Rename(s.tree, o, n);
      if fault != NoFault || !found.sameListing || !found.markdownTails then
        (Store(if undoWorks then UndoMove(u, o, n) else u, s.db), Failed(Interrupted))
      else
        (Store(u, Rewrite(s.db, id, o, n)), Migrated)
  }

  /** A step whose checks passed: it moves `from` to `to` in `tree`, where the parent of `to` now exists. */
  datatype Plan = Plan(from: Path, to: Path, tree: Tree)

  /** Old and new directory of a row, from its text alone. */
  function Route(row: ItemRow): Result<(Path, Path), Outcome>
    requires row.relpath.Some?
  {
    var o := Parts(row.relpath.value);
    if IsCurrent(o) then Failure(AlreadyCorrect)
    else if !IsLegacy(o) then Failure(Failed(UnexpectedPrefix))
    else match NewArchivePath(row, o)
      case None => Failure(Failed(MalformedPath))
      case Some(n) => Success((o, n))
  }

  /** The tree in which the rename will be done: the parent of the new directory exists. */
  function Prepare(t: Tree, o: Path, n: Path): Result<Tree, Outcome>
    requires n != []
  {
    if !(o in t && t[o].Dir?) then Failure(Failed(SourceMissing))
    else if n in t then Failure(Failed(TargetExists))
    else match MakeDirs(t, Parent(n))
      case None => Failure(Failed(TargetParentBlocked))
      case Some(u) => Success(u)
  }

  function Check(s: Store, row: ItemRow): Result<Plan, Outcome>
    requires row.relpath.Some?
  {
    match Route(row)
    case Failure(r) => Failure(r)
    case Success((o, n)) =>
      match Prepare(s.tree, o, n)
      case Failure(r) => Failure(r)
      case Success(t) => Success(Plan(o, n, t))
  }

  ghost predicate GoodPlan(t: Tree, p: Plan) {
    && IsLegacy(p.from) && IsCurrent(p.to) && p.to != [] && p.from != [] && Separate(p.from, p.to)
    && WellFormed(p.tree) && Vacant(p.tree, p.to) && IsDir(p.tree, Parent(p.to))
    && p.from in t && t[p.from].Dir? && p.from in p.tree && p.tree[p.from].Dir?
    && p.to !in t
    && (forall q :: q in t ==> q in p.tree && p.tree[q] == t[q])
    && (forall q :: q in p.tree && q !in t ==> p.tree[q] == Dir && q <= Parent(p.to) && q != [])
    && (p.tree == t <==> IsDir(t, Parent(p.to)))
  }

  lemma CheckGivesGoodPlan(s: Store, row: ItemRow)
    requires WellFormed(s.tree) && row.relpath.Some? && Check(s, row).Success?
    ensures GoodPlan(s.tree, Check(s, row).value)
  {
    var p := Check(s, row).value;
    NewPathIsCurrent(row, p.from);
    MakeDirsOnlyAdds(s.tree, Parent(p.to));
    MissingIsVacant(p.tree, p.to);
  }

  /** The whole step. */
  function MigrateOne(s: Store, id: nat, fault: Fault, undoWorks: bool): (Store, Outcome)
    requires GoodStore(s) && id in s.db.items && s.db.items[id].relpath.Some?
  {
    match Check(s, s.db.items[id])
    case Failure(outcome) => (s, outcome)
    case Success(p) =>
      CheckGivesGoodPlan(s, s.db.items[id]);
      Move(s.(tree := p.tree), id, p.from, p.to, Inspect(p.tree, p.from, p.to), fault, undoWorks)
  }

  // --- what one step does ---

  function NodeAt(t: Tree, p: Path): Option<Node> {
    if p in t then Some(t[p]) else None
  }

  lemma ParentStays(t: Tree, o: Path, n: Path)
    requires WellFormed(t) && Separate(o, n) && o != [] && Vacant(t, n) && o in t
    ensures MakeDirs(Rename(t, o, n), Parent(o)) == Some(Rename(t, o, n))
  {
    var up := Parent(o);
    assert IsDir(t, up) && !(o <= up);
    if up != [] {
      RenameAt(t, o, n, up);
    }
  }

  lemma UndoRestores(t: Tree, o: Path, n: Path)
    requires WellFormed(t) && Separate(o, n) && o != [] && Vacant(t, n) && o in t
    ensures UndoMove(Rename(t, o, n), o, n) == t
  {
    hide Rename, MakeDirs, Targets;
    ParentStays(t, o, n);
    RenameUndone(t, o, n);
    RenameAt(t, o, n, o);
    assert Moved(o, o, n) == n;
  }

  /** What a step whose checks passed comes to. */
  lemma MoveShape(s: Store, id: nat, o: Path, n: Path, found: Findings, fault: Fault, undoWorks: bool)
    requires id in s.db.items && Separate(o, n) && o != [] && WellFormed(s.tree) && Vacant(s.tree, n) && o in s.tree
    ensures var (s', r) := Move(s, id, o, n, found, fault, undoWorks);
      && (r == Migrated ==> fault == NoFault && s' == Store(Rename(s.tree, o, n), Rewrite(s.db, id, o, n)))
      && (r != Migrated ==>
        r.Failed? && s'.db == s.db && (s'.tree == s.tree || (!undoWorks && s'.tree == Rename(s.tree, o, n))))
  {
    UndoRestores(s.tree, o, n);
  }

  lemma RefusalIsNotSuccess(s: Store, row: ItemRow)
    requires row.relpath.Some? && Check(s, row).Failure?
    ensures Check(s, row).error != Migrated
  {
  }

  /** What the whole step comes to. */
  lemma StepShape(s: Store, id: nat, fault: Fault, undoWorks: bool)
    requires GoodStore(s) && id in s.db.items && s.db.items[id].relpath.Some?
    ensures var (s', r) := MigrateOne(s, id, fault, undoWorks);
      match Check(s, s.db.items[id])
      case Failure(out) => s' == s && r == out && r != Migrated
      case Success(p) =>
        && GoodPlan(s.tree, p)
        && (r == Migrated ==>
          fault == NoFault && s' == Store(Rename(p.tree, p.from, p.to), Rewrite(s.db, id, p.from, p.to)))
        && (r != Migrated ==>
          r.Failed? && s'.db == s.db && (s'.tree == p.tree || (!undoWorks && s'.tree == Rename(p.tree, p.from, p.to))))
  {
    hide Rename, Rewrite, Inspect, UndoMove, Move, Check;
    match Check(s, s.db.items[id])
    case Failure(out) => RefusalIsNotSuccess(s, s.db.items[id]);
    case Success(p) =>
      CheckGivesGoodPlan(s, s.db.items[id]);
      MoveShape(s.(tree := p.tree), id, p.from, p.to, Inspect(p.tree, p.from, p.to), fault, undoWorks);
  }

  /**
  A failed step leaves every row as it was. The tree keeps exactly its old entries, together with
  the directories made for the target's parent, unless the rename was done and undoing it failed:
  so the tree is the old one exactly when no parent directory had to be made.
  */
  lemma FailureRestores(s: Store, id: nat, fault: Fault)
    requires GoodStore(s) && id in s.db.items && s.db.items[id].relpath.Some?
    requires MigrateOne(s, id, fault, true).1 != Migrated
    ensures var s' := MigrateOne(s, id, fault, true).0;
      && s'.db == s.db
      && (forall p :: p in s.tree ==> p in s'.tree && s'.tree[p] == s.tree[p])
      && (forall p :: p in s'.tree && p !in s.tree ==> s'.tree[p] == Dir)
      && (s'.tree == s.tree <==>
            match Check(s, s.db.items[id]) case Failure(_) => true case Success(p) => IsDir(s.tree, Parent(p.to)))
  {
    StepShape(s, id, fault, true);
  }

  /** When the undo rename fails too, the rows are still the old ones and no file is lost. */
  lemma FailedUndoKeepsBytes(s: Store, id: nat, fault: Fault)
    requires GoodStore(s) && id in s.db.items && s.db.items[id].relpath.Some?
    requires MigrateOne(s, id, fault, false).1 != Migrated
    ensures MigrateOne(s, id, fault, false).0.db == s.db
    ensures SameFiles(s.tree, MigrateOne(s, id, fault, false).0.tree)
  {
    StepShape(s, id, fault, false);
    MigrationKeepsFiles(s, id, fault, false);
  }

  /**
  A stored path `before` of the item follows the move as `after`: it leads to the node it led to,
  exactly when its text spelled the moved directory as a prefix; outside that directory it is unchanged.
  */
  ghost predicate Follows(t: Tree, t': Tree, from: Path, before: Option<string>, after: Option<string>) {
    if before.None? then after.None?
    else
      && after.Some?
      && (Parts(before.value) in t ==>
            (NodeAt(t', Parts(after.value)) == NodeAt(t, Parts(before.value)) <==> Tracked(before.value, from)))
      && (!(from <= Parts(before.value)) ==> after == before)
  }

  /** Every path stored for the item follows the move, in each of the tables that hold one. */
  ghost predicate RowsFollow(s: Store, s': Store, id: nat, from: Path)
    requires id in s.db.items
  {
    && s'.db.files.Keys == s.db.files.Keys
    && s'.db.manifests.Keys == s.db.manifests.Keys
    && s'.db.batches.Keys == s.db.batches.Keys
    && (forall f :: f in s.db.files && s.db.files[f].itemId == id ==>
          && s'.db.files[f].itemId == id
          && Follows(s.tree, s'.tree, from, s.db.files[f].relpath, s'.db.files[f].relpath))
    && (forall m :: m in s.db.manifests && s.db.manifests[m].key == s.db.items[id].key ==>
          && s'.db.manifests[m].key == s.db.manifests[m].key
          && Follows(s.tree, s'.tree, from, s.db.manifests[m].relpath, s'.db.manifests[m].relpath))
    && (forall b :: b in s.db.batches && s.db.batches[b].itemId == Some(id) ==>
          && s'.db.batches[b].itemId == Some(id)
          && Follows(s.tree, s'.tree, from, s.db.batches[b].relpath, s'.db.batches[b].relpath))
  }

  /** The item's own path leads to the moved directory, and below it to what was below the old one. */
  ghost predicate ItemFollows(s: Store, s': Store, id: nat, from: Path)
    requires id in s.db.items
  {
    && id in s'.db.items
    && s'.db.items[id].relpath.Some?
    && s'.db.items[id] == s.db.items[id].(relpath := s'.db.items[id].relpath)
    && forall r: Path :: NodeAt(s'.tree, Parts(s'.db.items[id].relpath.value) + r) == NodeAt(s.tree, from + r)
  }

  /**
  After a successful step every path stored for the item, in four tables, leads to what it led to,
  exactly when its text spelled the moved directory.
  */
  lemma MigrationCommutesWithLookup(s: Store, id: nat, p: Plan, undoWorks: bool)
    requires GoodStore(s) && id in s.db.items && s.db.items[id].relpath.Some?
    requires MigrateOne(s, id, NoFault, undoWorks).1 == Migrated
    requires Check(s, s.db.items[id]) == Success(p)
    ensures RowsFollow(s, MigrateOne(s, id, NoFault, undoWorks).0, id, p.from)
    ensures ItemFollows(s, MigrateOne(s, id, NoFault, undoWorks).0, id, p.from)
  {
    hide MigrateOne, Check, Rename, Rewrite, RowsFollow, ItemFollows;
    MigratedTree(s, id, p, undoWorks);
    PlanComponents(s, s.db.items[id], p);
    RewriteFollows(s, id, p);
    DirectoryFollows(s, id, p);
  }

  lemma RewriteFollows(s: Store, id: nat, p: Plan)
    requires id in s.db.items && GoodPlan(s.tree, p) && Components(p.from) && Components(p.to) && p.from[0] != p.to[0]
    ensures RowsFollow(s, Store(Rename(p.tree, p.from, p.to), Rewrite(s.db, id, p.from, p.to)), id, p.from)
  {
    hide Rename, Follows, ReplacePrefix;
    var o, n := AsPosix(p.from), AsPosix(p.to);
    forall f | f in s.db.files {
      PathFollows(s.tree, p, s.db.files[f].relpath);
    }
    forall m | m in s.db.manifests {
      PathFollows(s.tree, p, s.db.manifests[m].relpath);
    }
    forall b | b in s.db.batches {
      PathFollows(s.tree, p, s.db.batches[b].relpath);
    }
    hide GoodPlan, Components, AsPosix;
  }

  lemma PathFollows(t: Tree, p: Plan, value: Option<string>)
    requires GoodPlan(t, p) && Components(p.from) && Components(p.to) && p.from[0] != p.to[0]
    ensures Follows(t, Rename(p.tree, p.from, p.to), p.from, value,
      ReplacePrefix(value, AsPosix(p.from), AsPosix(p.to)))
  {
    hide Rename;
    if value.Some? {
      var v := value.value;
      if Parts(v) in t {
        assert NodeAt(p.tree, Parts(v)) == NodeAt(t, Parts(v));
        LookupAfterRename(p.tree, p.from, p.to, v);
      }
      if Under(v, AsPosix(p.from)) {
        UnderTextIsBelow(v, p.from);
      }
    }
  }

  lemma UnderTextIsBelow(v: string, o: Path)
    requires Components(o) && o != [] && Under(v, AsPosix(o))
    ensures o <= Parts(v)
  {
    PartsOfPosix(o);
    if v != AsPosix(o) {
      var rest := BelowText(v, AsPosix(o));
      BelowParts(o, rest);
    }
  }

  lemma DirectoryFollows(s: Store, id: nat, p: Plan)
    requires id in s.db.items && GoodPlan(s.tree, p) && Components(p.to) && p.from[0] != p.to[0]
    ensures ItemFollows(s, Store(Rename(p.tree, p.from, p.to), Rewrite(s.db, id, p.from, p.to)), id, p.from)
  {
    PartsOfPosix(p.to);
    hide Rename, Parts, AsPosix;
    forall r: Path ensures NodeAt(Rename(p.tree, p.from, p.to), p.to + r) == NodeAt(s.tree, p.from + r) {
      BelowFollows(s.tree, p, r);
    }
  }

  lemma BelowFollows(t: Tree, p: Plan, r: Path)
    requires GoodPlan(t, p) && p.from[0] != p.to[0]
    ensures NodeAt(Rename(p.tree, p.from, p.to), p.to + r) == NodeAt(t, p.from + r)
  {
    hide Rename;
    var q := p.from + r;
    assert q[0] == p.from[0];
    Cut(p.from, r);
    Cut(p.to, r);
    RenameAt(p.tree, p.from, p.to, q);
    assert NodeAt(p.tree, q) == NodeAt(t, q);
  }

  lemma MigratedTree(s: Store, id: nat, p: Plan, undoWorks: bool)
    requires GoodStore(s) && id in s.db.items && s.db.items[id].relpath.Some?
    requires MigrateOne(s, id, NoFault, undoWorks).1 == Migrated && Check(s, s.db.items[id]) == Success(p)
    ensures GoodPlan(s.tree, p)
    ensures MigrateOne(s, id, NoFault, undoWorks).0 ==
      Store(Rename(p.tree, p.from, p.to), Rewrite(s.db, id, p.from, p.to))
  {
    StepShape(s, id, NoFault, undoWorks);
  }

  lemma PlanComponents(s: Store, row: ItemRow, p: Plan)
    requires row.relpath.Some? && GoodItem(row) && Check(s, row) == Success(p)
    ensures Components(p.from) && Components(p.to) && p.from[0] != p.to[0]
  {
    LegacyComponents(row.relpath.value);
    NewComponents(row, p.from);
    NewPathIsCurrent(row, p.from);
  }

  /** The text `v`, rewritten from `o` to `n`, leads to `node` in the tree `t`. */
  predicate LeadsTo(t: Tree, o: Path, n: Path, v: string, node: Node) {
    NodeAt(t, Parts(ReplacePrefix(Some(v), AsPosix(o), AsPosix(n)).value)) == Some(node)
  }

  lemma LookupAfterRename(t: Tree, o: Path, n: Path, v: string)
    requires Components(o) && Components(n) && o != [] && n != [] && o[0] != n[0]
    requires Vacant(t, n) && Parts(v) in t
    ensures LeadsTo(Rename(t, o, n), o, n, v, t[Parts(v)]) <==> Tracked(v, o)
  {
    ReplaceMovesParts(v, o, n);
    RenameAt(t, o, n, Parts(v));
    if !Tracked(v, o) {
      assert ReplacePrefix(Some(v), AsPosix(o), AsPosix(n)).value == v;
    }
  }

  lemma LegacyComponents(v: string)
    requires IsLegacy(Parts(v))
    ensures Components(Parts(v))
  {
    PiecesAreComponents(v);
    assert !Absolute(v);
  }

  lemma NewComponents(row: ItemRow, o: Path)
    requires GoodItem(row) && IsLegacy(o) && Components(o) && NewArchivePath(row, o).Some?
    ensures Components(NewArchivePath(row, o).value)
  {
    if o[1] == "done" && row.initiated.Some? {
      var d := row.initiated.value;
      assert |d.year + "-" + d.month + "-" + d.day + "_" + row.title| > 1;
    }
  }

  /**
  A path stored for another item is not rewritten, and leads where it led exactly when it lies outside the moved
  directory.
  */
  ghost predicate Stays(t: Tree, t': Tree, from: Path, before: Option<string>, after: Option<string>) {
    && after == before
    && (before.Some? && Parts(before.value) in t ==>
          (NodeAt(t', Parts(before.value)) == NodeAt(t, Parts(before.value)) <==> !(from <= Parts(before.value))))
  }

  /** The rows of the other items, in the four tables. */
  ghost predicate OtherRowsStay(s: Store, s': Store, id: nat, from: Path)
    requires id in s.db.items
  {
    && s'.db.items.Keys == s.db.items.Keys
    && s'.db.files.Keys == s.db.files.Keys
    && s'.db.manifests.Keys == s.db.manifests.Keys
    && s'.db.batches.Keys == s.db.batches.Keys
    && (forall i :: i in s.db.items && i != id ==>
          && s'.db.items[i] == s.db.items[i]
          && Stays(s.tree, s'.tree, from, s.db.items[i].relpath, s'.db.items[i].relpath))
    && (forall f :: f in s.db.files && s.db.files[f].itemId != id ==>
          && s'.db.files[f] == s.db.files[f]
          && Stays(s.tree, s'.tree, from, s.db.files[f].relpath, s'.db.files[f].relpath))
    && (forall m :: m in s.db.manifests && s.db.manifests[m].key != s.db.items[id].key ==>
          && s'.db.manifests[m] == s.db.manifests[m]
          && Stays(s.tree, s'.tree, from, s.db.manifests[m].relpath, s'.db.manifests[m].relpath))
    && (forall b :: b in s.db.batches && s.db.batches[b].itemId != Some(id) ==>
          && s'.db.batches[b] == s.db.batches[b]
          && Stays(s.tree, s'.tree, from, s.db.batches[b].relpath, s'.db.batches[b].relpath))
  }

  /**
  Rows of other items are unchanged: what they name stays reachable exactly outside the moved
  directory, so an item that shares the directory loses its paths. The old directory is gone.
  */
  lemma MigrationLeavesOthers(s: Store, id: nat, p: Plan, undoWorks: bool, q: Path)
    requires GoodStore(s) && id in s.db.items && s.db.items[id].relpath.Some?
    requires MigrateOne(s, id, NoFault, undoWorks).1 == Migrated
    requires Check(s, s.db.items[id]) == Success(p)
    ensures var s' := MigrateOne(s, id, NoFault, undoWorks).0;
      && OtherRowsStay(s, s', id, p.from)
      && (q in s.tree && !(p.from <= q) ==> NodeAt(s'.tree, q) == NodeAt(s.tree, q))
      && (p.from <= q ==> q !in s'.tree)
  {
    hide MigrateOne, Check, Rename, Rewrite, OtherRowsStay;
    MigratedTree(s, id, p, undoWorks);
    NodeStays(s.tree, p, q);
    OthersStay(s, id, p);
  }

  lemma NodeStays(t: Tree, p: Plan, q: Path)
    requires GoodPlan(t, p)
    ensures var u := Rename(p.tree, p.from, p.to);
      && (q in t && !(p.from <= q) ==> NodeAt(u, q) == NodeAt(t, q))
      && (p.from <= q ==> q !in u)
  {
    hide Rename;
    NotBoth(p.from, p.to, q);
    if !(p.to <= q) {
      RenameAt(p.tree, p.from, p.to, q);
    }
  }

  lemma OthersStay(s: Store, id: nat, p: Plan)
    requires id in s.db.items && GoodPlan(s.tree, p)
    ensures OtherRowsStay(s, Store(Rename(p.tree, p.from, p.to), Rewrite(s.db, id, p.from, p.to)), id, p.from)
  {
    hide Rename, ReplacePrefix, AsPosix, Parts;
    forall value: Option<string> ensures Stays(s.tree, Rename(p.tree, p.from, p.to), p.from, value, value) {
      if value.Some? {
        NodeStays(s.tree, p, Parts(value.value));
      }
    }
    hide Stays;
  }

  // --- conservation of file contents ---

  function Files(t: Tree): set<Path> {
    set p | p in t && !t[p].Dir?
  }

  /** The entries of `t` that are not directories are in one-to-one correspondence with those of `u`. */
  ghost predicate Relocates(t: Tree, u: Tree, m: map<Path, Path>) {
    && m.Keys == Files(t) && m.Values == Files(u)
    && (forall p :: p in m ==> m[p] in u && u[m[p]] == t[p])
    && (forall p, q :: p in m && q in m && m[p] == m[q] ==> p == q)
  }

  ghost predicate SameFiles(t: Tree, u: Tree) {
    exists m :: Relocates(t, u, m)
  }

  lemma SameFilesRefl(t: Tree, u: Tree)
    requires forall p :: p in t ==> p in u && u[p] == t[p]
    requires forall p :: p in u && p !in t ==> u[p] == Dir
    ensures SameFiles(t, u)
  {
    var m := map p | p in Files(t) :: p;
    assert forall p :: p in Files(u) ==> p in m && m[p] == p;
    assert Relocates(t, u, m);
  }

  lemma SameFilesTrans(t: Tree, u: Tree, v: Tree)
    requires SameFiles(t, u) && SameFiles(u, v)
    ensures SameFiles(t, v)
  {
    hide Files;
    var a :| Relocates(t, u, a);
    var b :| Relocates(u, v, b);
    RelocatesTrans(t, u, v, a, b);
  }

  function Composed(a: map<Path, Path>, b: map<Path, Path>): (m: map<Path, Path>)
    ensures forall p :: p in m <==> p in a && a[p] in b
    ensures forall p :: p in m ==> m[p] == b[a[p]]
  {
    map p | p in a && a[p] in b :: b[a[p]]
  }

  lemma RelocatesTrans(t: Tree, u: Tree, v: Tree, a: map<Path, Path>, b: map<Path, Path>)
    requires Relocates(t, u, a) && Relocates(u, v, b)
    ensures Relocates(t, v, Composed(a, b))
  {
    hide Files, Composed;
    var m := Composed(a, b);
    ComposedKeys(t, u, v, a, b);
    ComposedValues(t, u, v, a, b);
    hide Relocates;
    assert Relocates(t, v, m) by {
      ComposedMoves(t, u, v, a, b);
    }
  }

  lemma ComposedKeys(t: Tree, u: Tree, v: Tree, a: map<Path, Path>, b: map<Path, Path>)
    requires Relocates(t, u, a) && Relocates(u, v, b)
    ensures Composed(a, b).Keys == Files(t)
  {
    hide Files, Composed;
    forall p | p in a ensures a[p] in b {
      assert a[p] in a.Values;
    }
    assert Composed(a, b).Keys == a.Keys;
  }

  lemma ComposedValues(t: Tree, u: Tree, v: Tree, a: map<Path, Path>, b: map<Path, Path>)
    requires Relocates(t, u, a) && Relocates(u, v, b)
    ensures Composed(a, b).Values == Files(v)
  {
    hide Files, Composed;
    var m := Composed(a, b);
    forall q | q in Files(v) ensures q in m.Values {
      assert q in b.Values;
      var y :| y in b && b[y] == q;
      assert y in a.Values;
      var x :| x in a && a[x] == y;
      assert m[x] == q;
    }
    forall q | q in m.Values ensures q in Files(v) {
      var x :| x in m && m[x] == q;
      assert q in b.Values;
    }
  }

  /** Each file goes to one place and keeps its contents. */
  lemma ComposedMoves(t: Tree, u: Tree, v: Tree, a: map<Path, Path>, b: map<Path, Path>)
    requires Relocates(t, u, a) && Relocates(u, v, b)
    requires Composed(a, b).Keys == Files(t) && Composed(a, b).Values == Files(v)
    ensures Relocates(t, v, Composed(a, b))
  {
    hide Files, Composed;
  }

  lemma RenameKeepsFiles(t: Tree, o: Path, n: Path)
    requires Separate(o, n) && Vacant(t, n)
    ensures SameFiles(t, Rename(t, o, n))
  {
    var u := Rename(t, o, n);
    var m := map p | p in Files(t) :: Moved(p, o, n);
    forall p | p in m ensures m[p] in u && u[m[p]] == t[p] && Moved(m[p], n, o) == p {
      RenameAt(t, o, n, p);
      MovedBack(p, o, n);
    }
    forall q | q in Files(u) ensures q in m.Values {
      RenameIff(t, o, n, q);
      var p := Origin(q, o, n);
      RenameAt(t, o, n, p);
      if n <= q {
        Cut(o, q[|n|..]);
        Rejoin(n, q);
      }
      assert m[p] == q;
    }
    assert m.Values == Files(u);
    assert Relocates(t, u, m);
  }

  lemma MigrationKeepsFiles(s: Store, id: nat, fault: Fault, undoWorks: bool)
    requires GoodStore(s) && id in s.db.items && s.db.items[id].relpath.Some?
    ensures SameFiles(s.tree, MigrateOne(s, id, fault, undoWorks).0.tree)
  {
    StepShape(s, id, fault, undoWorks);
    match Check(s, s.db.items[id])
    case Failure(_) => SameFilesRefl(s.tree, s.tree);
    case Success(p) =>
      SameFilesRefl(s.tree, p.tree);
      RenameKeepsFiles(p.tree, p.from, p.to);
      SameFilesTrans(s.tree, p.tree, Rename(p.tree, p.from, p.to));
  }

  /** The tables hold rows under the same identifiers. */
  ghost predicate SameKeys(a: Database, b: Database) {
    a.items.Keys == b.items.Keys && a.files.Keys == b.files.Keys && a.manifests.Keys == b.manifests.Keys &&
      a.batches.Keys == b.batches.Keys
  }

  lemma MigrationKeepsStore(s: Store, id: nat, fault: Fault, undoWorks: bool)
    requires GoodStore(s) && id in s.db.items && s.db.items[id].relpath.Some?
    ensures GoodStore(MigrateOne(s, id, fault, undoWorks).0)
    ensures SameKeys(s.db, MigrateOne(s, id, fault, undoWorks).0.db)
  {
    hide Rename, MigrateOne, Check, Fingerprint, Inspect, ReplacePrefix, AsPosix;
    StepShape(s, id, fault, undoWorks);
    match Check(s, s.db.items[id])
    case Failure(_) =>
    case Success(p) =>
      RenameWellFormed(p.tree, p.from, p.to);
      var s' := MigrateOne(s, id, fault, undoWorks).0;
      assert WellFormed(s'.tree);
      forall i | i in s'.db.items ensures GoodItem(s'.db.items[i]) {
        assert i in s.db.items && GoodItem(s.db.items[i]);
      }
  }

  lemma StepRows(s: Store, id: nat, fault: Fault, undoWorks: bool)
    requires GoodStore(s) && id in s.db.items && s.db.items[id].relpath.Some?
    ensures var items' := MigrateOne(s, id, fault, undoWorks).0.db.items;
      && items'.Keys == s.db.items.Keys
      && (forall j :: j in s.db.items && j != id ==> items'[j] == s.db.items[j])
      && items'[id].relpath.Some? && items'[id] == s.db.items[id].(relpath := items'[id].relpath)
  {
    hide Rename, MigrateOne, Check, Fingerprint, Inspect, ReplacePrefix, AsPosix;
    StepShape(s, id, fault, undoWorks);
  }
}
