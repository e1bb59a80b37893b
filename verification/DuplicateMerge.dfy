/**
Folding one duplicate attachment record into the record that is kept
(tools/repair_attachment_duplicates.py, the transaction in main).

The rows of the tables that may refer to a file are kept apart; those of any other table appear
as bare references. How a display name is cleaned up is given.
*/
module DuplicateMerge {
  import opened Wrappers
  import opened DuplicatePlan

  datatype Job = Job(id: nat, file: nat, running: bool)

  datatype Review = Review(id: nat, file: Option<nat>)

  datatype ExportStatus = Success | Published | Completed | Superseded | Other(text: string)

  datatype Export = Export(id: nat, source: Option<nat>, schema: string, status: ExportStatus, relpath: string,
    duplicate: bool)

  datatype Ref = Ref(table: string, file: nat)

  datatype Db = Db(activeJobs: bool, files: map<nat, FileRow>, jobs: seq<Job>, reviews: seq<Review>,
    exports: seq<Export>, others: seq<Ref>)

  datatype MergeError = ActiveJob | UnsupportedReferences | BeingParsed | KeepMissing | RoleTaken | ForeignKeys

  predicate Good(x: Export) {
    x.status in {ExportStatus.Success, Published, Completed}
  }

  // --- the tables ---

  /** The key of the files table: item, attachment key and role. */
  ghost predicate UniqueRoles(files: map<nat, FileRow>) {
    forall i, j :: i in files && j in files && SameSlot(files[i], files[j]) ==> i == j
  }

  predicate SameSlot(a: FileRow, b: FileRow) {
    a.item == b.item && a.key == b.key && a.role == b.role
  }

  predicate UniqueExports(exports: seq<Export>) {
    forall i, j :: 0 <= i < j < |exports| ==>
      !(exports[i].source.Some? && exports[i].source == exports[j].source && exports[i].schema == exports[j].schema)
  }

  ghost predicate Constrained(db: Db) {
    && (forall i :: i in db.files ==> db.files[i].id == i)
    && UniqueRoles(db.files) && UniqueExports(db.exports)
  }

  /** Every reference names a file. */
  predicate ForeignKeysHold(db: Db) {
    && (forall x :: x in db.jobs ==> x.file in db.files)
    && (forall x :: x in db.reviews && x.file.Some? ==> x.file.value in db.files)
    && (forall x :: x in db.exports && x.source.Some? ==> x.source.value in db.files)
    && (forall i :: i in db.files && db.files[i].parent.Some? ==> db.files[i].parent.value in db.files)
    && (forall x :: x in db.others ==> x.file in db.files)
  }

  function RedirectJobs(jobs: seq<Job>, extra: nat, keep: nat): (r: seq<Job>)
    ensures |r| == |jobs|
    ensures forall i :: 0 <= i < |jobs| ==>
      r[i] == jobs[i].(file := if jobs[i].file == extra then keep else jobs[i].file)
  {
    if jobs == [] then []
    else
      var last := jobs[|jobs| - 1];
      RedirectJobs(jobs[..|jobs| - 1], extra, keep) + [last.(file := if last.file == extra then keep else last.file)]
  }

  function RedirectReviews(reviews: seq<Review>, extra: nat, keep: nat): (r: seq<Review>)
    ensures |r| == |reviews|
    ensures forall i :: 0 <= i < |reviews| ==>
      r[i] == reviews[i].(file := if reviews[i].file == Some(extra) then Some(keep) else reviews[i].file)
  {
    if reviews == [] then []
    else
      var last := reviews[|reviews| - 1];
      RedirectReviews(reviews[..|reviews| - 1], extra, keep) +
        [last.(file := if last.file == Some(extra) then Some(keep) else last.file)]
  }

  // --- exports ---

  predicate At(x: Export, file: nat, schema: string) {
    x.source == Some(file) && x.schema == schema
  }

  /** The export of a file for a schema. */
  function ExportAt(exports: seq<Export>, file: nat, schema: string): (r: Option<nat>)
    ensures r.Some? ==> r.value < |exports| && At(exports[r.value], file, schema)
    ensures r.None? ==> forall i :: 0 <= i < |exports| ==> !At(exports[i], file, schema)
  {
    if exports == [] then None
    else if At(exports[|exports| - 1], file, schema) then Some(|exports| - 1)
    else ExportAt(exports[..|exports| - 1], file, schema)
  }

  /** Whether the first export, of the extra file, takes the place of the second, of the kept file. */
  predicate Displaces(x: Export, current: Export) {
    Good(x) && !Good(current)
  }

  function Dropped(x: Export, relpath: string): Export {
    x.(source := None, status := Superseded, relpath := relpath, duplicate := true)
  }

  /** What becomes of one export row when `extra` is folded into `keep`. */
  function Merged(was: seq<Export>, x: Export, keep: nat, relpath: string, extra: nat): Export {
    if x.source == Some(extra) then
      var c := ExportAt(was, keep, x.schema);
      if c.Some? && !Displaces(x, was[c.value]) then Dropped(x, relpath)
        else x.(source := Some(keep), relpath := relpath)
    else if x.source == Some(keep) then
      var e := ExportAt(was, extra, x.schema);
      if e.Some? && Displaces(was[e.value], x) then Dropped(x, x.relpath) else x
    else x
  }

  function MergedTo(was: seq<Export>, keep: nat, relpath: string, extra: nat, n: nat): (r: seq<Export>)
    requires n <= |was|
    ensures |r| == n
    ensures forall i :: 0 <= i < n ==> r[i] == Merged(was, was[i], keep, relpath, extra)
  {
    if n == 0 then [] else MergedTo(was, keep, relpath, extra, n - 1) + [Merged(was, was[n - 1], keep, relpath, extra)]
  }

  function MergedExports(was: seq<Export>, keep: nat, relpath: string, extra: nat): (r: seq<Export>)
    ensures |r| == |was|
    ensures forall i :: 0 <= i < |was| ==> r[i] == Merged(was, was[i], keep, relpath, extra)
  {
    MergedTo(was, keep, relpath, extra, |was|)
  }

  lemma AtMostOne(exports: seq<Export>, i: nat, j: nat, file: nat, schema: string)
    requires UniqueExports(exports) && i < |exports| && j < |exports| && At(exports[i], file, schema) &&
      At(exports[j], file, schema)
    ensures i == j
  {
  }

  /** Still at most one export for each file and schema, and none left with the extra file. */
  lemma MergeKeepsUnique(was: seq<Export>, keep: nat, relpath: string, extra: nat)
    requires UniqueExports(was) && keep != extra
    ensures UniqueExports(MergedExports(was, keep, relpath, extra))
    ensures forall i :: 0 <= i < |was| ==> MergedExports(was, keep, relpath, extra)[i].source != Some(extra)
  {
    hide MergedExports;
    var r := MergedExports(was, keep, relpath, extra);
    forall i | 0 <= i < |r| ensures r[i].source != Some(extra) {
      assert r[i] == Merged(was, was[i], keep, relpath, extra);
    }
    forall i, j | 0 <= i < |r| && 0 <= j < |r| && i != j && r[i].source.Some? && r[i].source == r[j].source &&
      r[i].schema == r[j].schema ensures false {
      Collide(was, keep, relpath, extra, i, j);
    }
  }

  lemma Collide(was: seq<Export>, keep: nat, relpath: string, extra: nat, i: nat, j: nat)
    requires UniqueExports(was) && keep != extra && i < |was| && j < |was| && i != j
    ensures var a, b := Merged(was, was[i], keep, relpath, extra), Merged(was, was[j], keep, relpath, extra);
      !(a.source.Some? && a.source == b.source && a.schema == b.schema)
  {
  }

  /** The file has a successful export for the schema. */
  ghost predicate Exported(exports: seq<Export>, file: nat, schema: string) {
    exists i :: 0 <= i < |exports| && ExportedBy(exports[i], file, schema)
  }

  predicate ExportedBy(x: Export, file: nat, schema: string) {
    At(x, file, schema) && Good(x)
  }

  /**
  The kept file has a successful export exactly when it or the extra one had; other files keep theirs; the extra
  one has none.
  */
  lemma MergeKeepsSuccess(was: seq<Export>, keep: nat, relpath: string, extra: nat, file: nat, schema: string)
    requires UniqueExports(was) && keep != extra
    ensures Exported(MergedExports(was, keep, relpath, extra), file, schema)
            <==> file != extra && (Exported(was, file, schema) || (file == keep && Exported(was, extra, schema)))
  {
  }

  /**
  The other file has an export for the schema that the given one does not beat: it is good, or the given one is
  not.
  */
  ghost predicate Holds(was: seq<Export>, file: nat, x: Export) {
    exists j :: 0 <= j < |was| && At(was[j], file, x.schema) && (Good(was[j]) || !Good(x))
  }

  /** The other file has a good export for the schema, and the given one is not good. */
  ghost predicate Beaten(was: seq<Export>, file: nat, x: Export) {
    !Good(x) && exists j :: 0 <= j < |was| && At(was[j], file, x.schema) && Good(was[j])
  }

  /**
  Which of two exports for a schema stays: the kept file's own, unless only the extra one's is good. What does not
  stay is detached and superseded; what moves over takes the path of the kept file.
  */
  lemma MergeWinner(was: seq<Export>, keep: nat, relpath: string, extra: nat, i: nat)
    requires UniqueExports(was) && keep != extra && i < |was|
    ensures var x, y := was[i], MergedExports(was, keep, relpath, extra)[i];
      if x.source == Some(extra) then
        if Holds(was, keep, x)
        then y == x.(source := None, status := Superseded, relpath := relpath, duplicate := true)
        else y == x.(source := Some(keep), relpath := relpath)
      else if x.source == Some(keep) && Beaten(was, extra, x)
      then y == x.(source := None, status := Superseded, duplicate := true)
      else y == x
  {
    hide MergedExports;
    var x := was[i];
    assert MergedExports(was, keep, relpath, extra)[i] == Merged(was, x, keep, relpath, extra);
    var c, e := ExportAt(was, keep, x.schema), ExportAt(was, extra, x.schema);
    hide Good;
    if x.source == Some(extra) && c.Some? {
      OnlyExport(was, c.value, keep, x.schema);
    }
    if x.source == Some(keep) && e.Some? {
      OnlyExport(was, e.value, extra, x.schema);
    }
  }

  lemma OnlyExport(was: seq<Export>, c: nat, file: nat, schema: string)
    requires UniqueExports(was) && c < |was| && At(was[c], file, schema)
    ensures forall j :: 0 <= j < |was| && At(was[j], file, schema) ==> j == c
  {
  }
}
