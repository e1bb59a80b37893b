/**
The whole repair transaction (tools/repair_attachment_duplicates.py, main): folding the planned
duplicates one after the other loses no row and no success, and an error undoes everything.
*/
module DuplicateRepair {
  import opened Wrappers
  import opened DuplicatePlan
  import opened DuplicateMerge

  function Rank(role: string): nat {
    if role == "official_body" then 3
    else if role == "official_attachment" then 2
    else if role == "direct_attachment" then 1
    else 0
  }

  function BetterRole(a: string, b: string): string {
    if Rank(b) > Rank(a) then b else a
  }

  predicate Truncated(name: string) {
    "..." <= name || (name != "" && Truncated(name[1..]))
  }

  function BetterName(display: string -> string, live: string, extra: string): string {
    if Truncated(display(live)) && !Truncated(display(extra)) then display(extra) else display(live)
  }

  predicate Referenced(db: Db, id: nat) {
    (exists x :: x in db.others && x.file == id) || (exists i :: i in db.files && db.files[i].parent == Some(id))
  }

  predicate Parsing(db: Db, keep: nat, extra: nat) {
    exists j :: j in db.jobs && j.running && j.file in {keep, extra}
  }

  predicate RoleIsTaken(files: map<nat, FileRow>, live: FileRow, role: string) {
    exists i :: i in files && i != live.id && files[i].item == live.item && files[i].key == live.key &&
      files[i].role == role
  }

  /** The kept row with the better name and role of the two. */
  function Improved(live: FileRow, extra: FileRow, display: string -> string): FileRow {
    live.(name := BetterName(display, live.name, extra.name), role := BetterRole(live.role, extra.role))
  }

  /** One entry of the plan. */
  function FoldOne(db: Db, r: Repair, display: string -> string): Result<Db, MergeError> {
    if Referenced(db, r.extra.id) then Failure(UnsupportedReferences)
    else if Parsing(db, r.keep.id, r.extra.id) then Failure(BeingParsed)
    else if r.keep.id !in db.files then Failure(KeepMissing)
    else
      var live := db.files[r.keep.id];
      if RoleIsTaken(db.files, live, BetterRole(live.role, r.extra.role)) then Failure(RoleTaken)
      else Result.Success(Folded(db, r, display))
  }

  function Folded(db: Db, r: Repair, display: string -> string): Db
    requires r.keep.id in db.files
  {
    Db(db.activeJobs,
       db.files[r.keep.id := Improved(db.files[r.keep.id], r.extra, display)] - {r.extra.id},
       RedirectJobs(db.jobs, r.extra.id, r.keep.id),
       RedirectReviews(db.reviews, r.extra.id, r.keep.id),
       MergedExports(db.exports, r.keep.id, r.keep.relpath, r.extra.id),
       db.others)
  }

  /** The first `n` entries. */
  function FoldAll(db: Db, repairs: seq<Repair>, display: string -> string, n: nat): Result<Db, MergeError>
    requires n <= |repairs|
  {
    if n == 0 then Result.Success(db)
    else
      match FoldAll(db, repairs, display, n - 1)
      case Failure(e) => Failure(e)
      case Success(u) => FoldOne(u, repairs[n - 1], display)
  }

  /** The transaction: all entries, and a last check of the references. */
  function Transaction(db: Db, repairs: seq<Repair>, display: string -> string): Result<Db, MergeError> {
    if db.activeJobs then Failure(ActiveJob)
    else
      match FoldAll(db, repairs, display, |repairs|)
      case Failure(e) => Failure(e)
      case Success(u) => if ForeignKeysHold(u) then Result.Success(u) else Failure(ForeignKeys)
  }

  // --- one fold ---

  lemma FoldKeepsConstraints(db: Db, r: Repair, display: string -> string)
    requires Constrained(db) && r.keep.id != r.extra.id && FoldOne(db, r, display).Success?
    ensures Constrained(FoldOne(db, r, display).value)
  {
    hide Rank, BetterName, MergedExports;
    MergeKeepsUnique(db.exports, r.keep.id, r.keep.relpath, r.extra.id);
  }

  lemma FoldKeepsReferences(db: Db, r: Repair, display: string -> string)
    requires ForeignKeysHold(db) && UniqueExports(db.exports) && r.keep.id != r.extra.id &&
      FoldOne(db, r, display).Success?
    ensures ForeignKeysHold(FoldOne(db, r, display).value)
  {
    FoldedRows(db, r, display);
    FoldedFiles(db, r, display);
    var u := FoldOne(db, r, display).value;
    assert !Referenced(db, r.extra.id);
    hide Rank, Improved, MergedExports, RedirectJobs, RedirectReviews, FoldOne;
    FoldedExportsRefer(db, r, u);
    FoldedJobsRefer(db, r, u);
    FoldedParentsRefer(db, r, u, display);
  }

  lemma FoldedParentsRefer(db: Db, r: Repair, u: Db, display: string -> string)
    requires ForeignKeysHold(db) && r.keep.id != r.extra.id && r.keep.id in db.files && !Referenced(db, r.extra.id)
    requires u.files == db.files[r.keep.id := Improved(db.files[r.keep.id], r.extra, display)] - {r.extra.id}
    ensures forall i :: i in u.files && u.files[i].parent.Some? ==> u.files[i].parent.value in u.files
    ensures forall x :: x in db.others ==> x.file in u.files
  {
    hide Improved, Rank;
    ImprovedMeans(db.files[r.keep.id], r.extra, display);
  }

  lemma FoldedJobsRefer(db: Db, r: Repair, u: Db)
    requires ForeignKeysHold(db) && u.jobs == RedirectJobs(db.jobs, r.extra.id, r.keep.id) &&
      u.reviews == RedirectReviews(db.reviews, r.extra.id, r.keep.id)
    requires r.keep.id in u.files && forall i :: i in db.files && i != r.extra.id ==> i in u.files
    ensures forall x :: x in u.jobs ==> x.file in u.files
    ensures forall x :: x in u.reviews && x.file.Some? ==> x.file.value in u.files
  {
  }

  lemma FoldedExportsRefer(db: Db, r: Repair, u: Db)
    requires ForeignKeysHold(db) && UniqueExports(db.exports) && r.keep.id != r.extra.id
    requires u.exports == MergedExports(db.exports, r.keep.id, r.keep.relpath, r.extra.id)
    requires r.keep.id in u.files && forall i :: i in db.files && i != r.extra.id ==> i in u.files
    ensures forall x :: x in u.exports && x.source.Some? ==> x.source.value in u.files
  {
  }

  // --- all of them ---

  /** Where the first `n` entries send what belonged to a file. */
  function Sent(repairs: seq<Repair>, n: nat, id: nat): nat
    requires n <= |repairs|
  {
    if n == 0 then id
    else
      var x := Sent(repairs, n - 1, id);
      if x == repairs[n - 1].extra.id then repairs[n - 1].keep.id else x
  }

  function BestRank(repairs: seq<Repair>, n: nat, id: nat, start: nat): (r: nat)
    requires n <= |repairs|
    ensures r >= start
    ensures forall i :: 0 <= i < n && repairs[i].keep.id == id ==> r >= Rank(repairs[i].extra.role)
  {
    if n == 0 then start
    else
      var before := BestRank(repairs, n - 1, id, start);
      if repairs[n - 1].keep.id == id && Rank(repairs[n - 1].extra.role) > before then Rank(repairs[n - 1].extra.role)
        else before
  }

  /** The plan never folds a file that it also keeps. */
  ghost predicate KeptApart(repairs: seq<Repair>) {
    forall i, j :: 0 <= i < |repairs| && 0 <= j < |repairs| ==> repairs[i].keep.id != repairs[j].extra.id
  }

  predicate FoldedAway(repairs: seq<Repair>, n: nat, id: nat)
    requires n <= |repairs|
  {
    exists i :: 0 <= i < n && repairs[i].extra.id == id
  }

  /** No row is lost, and each refers to where its file was sent. */
  ghost predicate RowsConserved(db: Db, u: Db, repairs: seq<Repair>, n: nat)
    requires n <= |repairs|
  {
    && |u.jobs| == |db.jobs| && |u.reviews| == |db.reviews| && |u.exports| == |db.exports| && u.others == db.others
    && (forall i :: 0 <= i < |db.jobs| ==> u.jobs[i] == db.jobs[i].(file := Sent(repairs, n, db.jobs[i].file)))
    && (forall i :: 0 <= i < |db.reviews| ==> ReviewSent(db.reviews[i], u.reviews[i], repairs, n))
    && (forall i :: 0 <= i < |db.exports| ==> ExportKept(db.exports[i], u.exports[i], repairs, n))
  }

  ghost predicate ReviewSent(x: Review, y: Review, repairs: seq<Repair>, n: nat)
    requires n <= |repairs|
  {
    y == x.(file := if x.file.Some? then Some(Sent(repairs, n, x.file.value)) else None)
  }

  /** An export keeps its identity, and either moves with its file or is marked as superseded. */
  ghost predicate ExportKept(x: Export, y: Export, repairs: seq<Repair>, n: nat)
    requires n <= |repairs|
  {
    && y.id == x.id && y.schema == x.schema
    && (if x.source.None? then y == x
        else
          (y.source == Some(Sent(repairs, n, x.source.value)) && y.status == x.status) ||
          (y.source.None? && y.status == Superseded && y.duplicate))
  }

  /**
  The files that are left: those not folded away, unchanged but for the name and the role, which never gets
  worse.
  */
  ghost predicate FilesKept(db: Db, u: Db, repairs: seq<Repair>, n: nat)
    requires n <= |repairs|
  {
    && (forall id :: id in u.files <==> id in db.files && !FoldedAway(repairs, n, id))
    && forall id :: id in u.files && id in db.files ==> FileKept(db.files[id], u.files[id], repairs, n, id)
  }

  ghost predicate FileKept(before: FileRow, after: FileRow, repairs: seq<Repair>, n: nat, id: nat)
    requires n <= |repairs|
  {
    && after == before.(name := after.name, role := after.role)
    && Rank(after.role) == BestRank(repairs, n, id, Rank(before.role))
  }

  lemma {:induction false} AllKeepConstraints(db: Db, repairs: seq<Repair>, display: string -> string, n: nat)
    requires n <= |repairs| && KeptApart(repairs) && Constrained(db)
    ensures var r := FoldAll(db, repairs, display, n);
      r.Success? ==> Constrained(r.value) && (ForeignKeysHold(db) ==> ForeignKeysHold(r.value))
  {
    hide FoldOne, ForeignKeysHold, UniqueRoles, UniqueExports;
    if n > 0 && FoldAll(db, repairs, display, n).Success? {
      AllKeepConstraints(db, repairs, display, n - 1);
      var u := FoldAll(db, repairs, display, n - 1).value;
      FoldKeepsConstraints(u, repairs[n - 1], display);
      if ForeignKeysHold(u) {
        FoldKeepsReferences(u, repairs[n - 1], display);
      }
    }
  }

  lemma {:induction false} RowsAreConserved(db: Db, repairs: seq<Repair>, display: string -> string, n: nat)
    requires n <= |repairs|
    ensures FoldAll(db, repairs, display, n).Success? ==>
      RowsConserved(db, FoldAll(db, repairs, display, n).value, repairs, n)
  {
    hide FoldOne, ReviewSent, ExportKept;
    if n == 0 {
      NothingSent(db, repairs);
    } else if FoldAll(db, repairs, display, n).Success? {
      RowsAreConserved(db, repairs, display, n - 1);
      var u := FoldAll(db, repairs, display, n - 1).value;
      FoldedRows(u, repairs[n - 1], display);
      RowsStep(db, u, FoldAll(db, repairs, display, n).value, repairs, n);
    }
  }

  lemma NothingSent(db: Db, repairs: seq<Repair>)
    ensures RowsConserved(db, db, repairs, 0)
  {
  }

  lemma RowsStep(db: Db, u: Db, v: Db, repairs: seq<Repair>, n: nat)
    requires 0 < n <= |repairs| && RowsConserved(db, u, repairs, n - 1) && RowsFolded(u, v, repairs[n - 1])
    ensures RowsConserved(db, v, repairs, n)
  {
    var r := repairs[n - 1];
    hide MergedExports, Merged, RedirectJobs, RedirectReviews;
    forall i | 0 <= i < |db.reviews| ensures ReviewSent(db.reviews[i], v.reviews[i], repairs, n) {
      assert ReviewSent(db.reviews[i], u.reviews[i], repairs, n - 1);
    }
    forall i | 0 <= i < |db.exports| ensures ExportKept(db.exports[i], v.exports[i], repairs, n) {
      assert ExportKept(db.exports[i], u.exports[i], repairs, n - 1);
      ExportStep(u.exports, r, u.exports[i]);
    }
  }

  ghost predicate RowsFolded(u: Db, v: Db, r: Repair) {
    && v.jobs == RedirectJobs(u.jobs, r.extra.id, r.keep.id) &&
      v.reviews == RedirectReviews(u.reviews, r.extra.id, r.keep.id)
    && v.exports == MergedExports(u.exports, r.keep.id, r.keep.relpath, r.extra.id) && v.others == u.others
  }

  lemma FoldedRows(u: Db, r: Repair, display: string -> string)
    requires FoldOne(u, r, display).Success?
    ensures RowsFolded(u, FoldOne(u, r, display).value, r)
  {
  }

  lemma ExportStep(exports: seq<Export>, r: Repair, x: Export)
    ensures var y := Merged(exports, x, r.keep.id, r.keep.relpath, r.extra.id);
      && y.id == x.id && y.schema == x.schema
      && (if x.source.None? then y == x
          else (y.status == x.status && y.source == if x.source.value == r.extra.id then Some(r.keep.id) else x.source)
               || (y.source.None? && y.status == Superseded && y.duplicate))
  {
  }

  lemma {:induction false} FilesAreKept(db: Db, repairs: seq<Repair>, display: string -> string, n: nat)
    requires n <= |repairs| && KeptApart(repairs)
    ensures FoldAll(db, repairs, display, n).Success? ==>
      FilesKept(db, FoldAll(db, repairs, display, n).value, repairs, n)
  {
    hide FoldOne, FilesKept, KeptApart, Improved;
    if n == 0 {
      NothingFolded(db, repairs);
    } else if FoldAll(db, repairs, display, n).Success? {
      FilesAreKept(db, repairs, display, n - 1);
      var u := FoldAll(db, repairs, display, n - 1).value;
      FoldedFiles(u, repairs[n - 1], display);
      FilesStep(db, u, FoldAll(db, repairs, display, n).value, repairs, display, n);
    }
  }

  lemma NothingFolded(db: Db, repairs: seq<Repair>)
    ensures FilesKept(db, db, repairs, 0)
  {
  }

  lemma FilesStep(db: Db, u: Db, v: Db, repairs: seq<Repair>, display: string -> string, n: nat)
    requires 0 < n <= |repairs| && KeptApart(repairs) && FilesKept(db, u, repairs, n - 1)
    requires var r := repairs[n - 1];
      r.keep.id in u.files &&
      v.files == u.files[r.keep.id := Improved(u.files[r.keep.id], r.extra, display)] - {r.extra.id}
    ensures FilesKept(db, v, repairs, n)
  {
    hide Improved, FileKept, FoldedAway;
    var r := repairs[n - 1];
    forall id ensures id in v.files <==> id in db.files && !FoldedAway(repairs, n, id) {
      AwayStep(repairs, n, id);
    }
    forall id | id in v.files && id in db.files ensures FileKept(db.files[id], v.files[id], repairs, n, id) {
      assert FileKept(db.files[id], u.files[id], repairs, n - 1, id);
      FileStep(db.files[id], u.files[id], v.files[id], repairs, display, n, id);
    }
  }

  lemma FileStep(before: FileRow, x: FileRow, y: FileRow, repairs: seq<Repair>, display: string -> string, n: nat,
      id: nat)
    requires 0 < n <= |repairs| && FileKept(before, x, repairs, n - 1, id)
    requires y == if id == repairs[n - 1].keep.id then Improved(x, repairs[n - 1].extra, display) else x
    ensures FileKept(before, y, repairs, n, id)
  {
    hide Improved, Rank;
    ImprovedMeans(x, repairs[n - 1].extra, display);
  }

  lemma AwayStep(repairs: seq<Repair>, n: nat, id: nat)
    requires 0 < n <= |repairs|
    ensures FoldedAway(repairs, n, id) <==> FoldedAway(repairs, n - 1, id) || repairs[n - 1].extra.id == id
  {
  }

  lemma FoldedFiles(u: Db, r: Repair, display: string -> string)
    requires FoldOne(u, r, display).Success?
    ensures r.keep.id in u.files &&
      FoldOne(u, r, display).value.files ==
      u.files[r.keep.id := Improved(u.files[r.keep.id], r.extra, display)] - {r.extra.id}
  {
  }

  lemma ImprovedMeans(live: FileRow, extra: FileRow, display: string -> string)
    ensures var r := Improved(live, extra, display);
      && r == live.(name := r.name, role := r.role)
      && Rank(r.role) == if Rank(extra.role) > Rank(live.role) then Rank(extra.role) else Rank(live.role)
  {
  }

  /** A file has a successful export exactly when one of the files sent to it had one. */
  lemma {:induction false} SuccessIsKept(db: Db, repairs: seq<Repair>, display: string -> string, n: nat, file: nat,
      schema: string)
    requires n <= |repairs| && KeptApart(repairs) && Constrained(db)
    ensures FoldAll(db, repairs, display, n).Success? ==>
      (Exported(FoldAll(db, repairs, display, n).value.exports, file, schema) <==>
        SentSuccess(db, repairs, n, file, schema))
  {
    hide FoldOne, ForeignKeysHold, Constrained, Exported, KeptApart;
    if n == 0 {
      SentNowhere(db, repairs, file, schema);
    } else if FoldAll(db, repairs, display, n).Success? {
      var u, r := FoldAll(db, repairs, display, n - 1).value, repairs[n - 1];
      SuccessIsKept(db, repairs, display, n - 1, file, schema);
      SuccessIsKept(db, repairs, display, n - 1, r.extra.id, schema);
      AllKeepConstraints(db, repairs, display, n - 1);
      FoldedRows(u, r, display);
      SuccessStep(db, u, FoldAll(db, repairs, display, n).value, repairs, n, file, schema);
    }
  }

  lemma SentNowhere(db: Db, repairs: seq<Repair>, file: nat, schema: string)
    ensures Exported(db.exports, file, schema) <==> SentSuccess(db, repairs, 0, file, schema)
  {
    assert Sent(repairs, 0, file) == file;
  }

  /** The file had a successful export before, or a file that was sent to it did. */
  ghost predicate SentSuccess(db: Db, repairs: seq<Repair>, n: nat, file: nat, schema: string)
    requires n <= |repairs|
  {
    exists id :: Exported(db.exports, id, schema) && Sent(repairs, n, id) == file
  }

  lemma SuccessStep(db: Db, u: Db, v: Db, repairs: seq<Repair>, n: nat, file: nat, schema: string)
    requires 0 < n <= |repairs| && KeptApart(repairs) && Constrained(u) && RowsFolded(u, v, repairs[n - 1])
    requires Exported(u.exports, file, schema) <==> SentSuccess(db, repairs, n - 1, file, schema)
    requires Exported(u.exports, repairs[n - 1].extra.id, schema) <==>
      SentSuccess(db, repairs, n - 1, repairs[n - 1].extra.id, schema)
    ensures Exported(v.exports, file, schema) <==> SentSuccess(db, repairs, n, file, schema)
  {
    var r := repairs[n - 1];
    MergeKeepsSuccess(u.exports, r.keep.id, r.keep.relpath, r.extra.id, file, schema);
    hide Exported, MergedExports, SentSuccess, UniqueExports, UniqueRoles;
    SentStep(db, repairs, n, file, schema);
  }

  lemma SentStep(db: Db, repairs: seq<Repair>, n: nat, file: nat, schema: string)
    requires 0 < n <= |repairs| && KeptApart(repairs)
    ensures var r := repairs[n - 1];
      SentSuccess(db, repairs, n, file, schema)
      <==>
      file != r.extra.id &&
      (SentSuccess(db, repairs, n - 1, file, schema) ||
        (file == r.keep.id && SentSuccess(db, repairs, n - 1, r.extra.id, schema)))
  {
  }

  // --- the transaction ---

  /** What was folded away was sent to the file that its entry keeps; the rest stays. */
  lemma {:induction false} SentMeans(repairs: seq<Repair>, n: nat, id: nat)
    requires n <= |repairs| && KeptApart(repairs)
    ensures FoldedAway(repairs, n, id) ==>
      exists i :: 0 <= i < n && repairs[i].extra.id == id && Sent(repairs, n, id) == repairs[i].keep.id
    ensures !FoldedAway(repairs, n, id) ==> Sent(repairs, n, id) == id
  {
    if n > 0 {
      SentMeans(repairs, n - 1, id);
    }
  }

  /** The file or one of the records folded into it had a successful export. */
  ghost predicate OneOfThemExported(db: Db, repairs: seq<Repair>, file: nat, schema: string) {
    Exported(db.exports, file, schema)
    || exists i :: 0 <= i < |repairs| && repairs[i].keep.id == file && Exported(db.exports, repairs[i].extra.id, schema)
  }

  lemma SuccessOfRemaining(db: Db, repairs: seq<Repair>, file: nat, schema: string)
    requires KeptApart(repairs) && DistinctExtras(repairs) && !FoldedAway(repairs, |repairs|, file)
    ensures SentSuccess(db, repairs, |repairs|, file, schema) <==> OneOfThemExported(db, repairs, file, schema)
  {
    hide Exported, KeptApart, Sent;
    var n := |repairs|;
    if SentSuccess(db, repairs, n, file, schema) {
      var id :| Exported(db.exports, id, schema) && Sent(repairs, n, id) == file;
      SentMeans(repairs, n, id);
    }
    if Exported(db.exports, file, schema) {
      SentMeans(repairs, n, file);
      assert Sent(repairs, n, file) == file;
    }
    if exists i :: 0 <= i < n && repairs[i].keep.id == file && Exported(db.exports, repairs[i].extra.id, schema) {
      var i :| 0 <= i < n && repairs[i].keep.id == file && Exported(db.exports, repairs[i].extra.id, schema);
      var id := repairs[i].extra.id;
      SentMeans(repairs, n, id);
      assert FoldedAway(repairs, n, id);
      assert Sent(repairs, n, id) == file;
    }
  }

  /**
  A repair that commits loses nothing: every job, review and export row is still there and refers to
  a file that exists; exactly the extra records are gone; no role gets worse; constraints hold; and a
  remaining file has a successful export for a schema exactly when it or a record folded into it had one.
  */
  lemma RepairLosesNothing(db: Db, repairs: seq<Repair>, display: string -> string, file: nat, schema: string)
    requires Constrained(db) && KeptApart(repairs) && DistinctExtras(repairs) &&
      Transaction(db, repairs, display).Success?
    ensures var u := Transaction(db, repairs, display).value;
      && RowsConserved(db, u, repairs, |repairs|) && FilesKept(db, u, repairs, |repairs|)
      && Constrained(u) && ForeignKeysHold(u)
      && (file in u.files ==> (Exported(u.exports, file, schema) <==> OneOfThemExported(db, repairs, file, schema)))
  {
    hide Constrained, KeptApart, ForeignKeysHold, RowsConserved, Exported, OneOfThemExported, DistinctExtras,
      SentSuccess, FileKept;
    RowsAreConserved(db, repairs, display, |repairs|);
    FilesAreKept(db, repairs, display, |repairs|);
    AllKeepConstraints(db, repairs, display, |repairs|);
    SuccessIsKept(db, repairs, display, |repairs|, file, schema);
    if !FoldedAway(repairs, |repairs|, file) {
      SuccessOfRemaining(db, repairs, file, schema);
    }
  }

  /** If all references held before, the last check cannot be what stops the repair. */
  lemma LastCheckHolds(db: Db, repairs: seq<Repair>, display: string -> string)
    requires Constrained(db) && KeptApart(repairs) && ForeignKeysHold(db)
    ensures Transaction(db, repairs, display) != Failure(ForeignKeys)
  {
    hide Constrained, KeptApart, ForeignKeysHold;
    FoldNeverChecks(db, repairs, display, |repairs|);
    if FoldAll(db, repairs, display, |repairs|).Success? {
      AllKeepConstraints(db, repairs, display, |repairs|);
    }
  }

  lemma {:induction false} FoldNeverChecks(db: Db, repairs: seq<Repair>, display: string -> string, n: nat)
    requires n <= |repairs|
    ensures FoldAll(db, repairs, display, n) != Failure(ForeignKeys)
  {
    hide FoldOne;
    if n > 0 {
      FoldNeverChecks(db, repairs, display, n - 1);
      if FoldAll(db, repairs, display, n - 1).Success? {
        OneNeverChecks(FoldAll(db, repairs, display, n - 1).value, repairs[n - 1], display);
      }
    }
  }

  lemma OneNeverChecks(db: Db, r: Repair, display: string -> string)
    ensures FoldOne(db, r, display) != Failure(ForeignKeys)
  {
    hide Referenced, Parsing, RoleIsTaken, Folded;
  }

  /** What the planner proposes meets the conditions of the repair. */
  lemma PlanIsApart(names: Names, rows: seq<FileRow>)
    requires DistinctIds(rows)
    ensures KeptApart(PlanRepairs(names, rows, Heads(rows))) && DistinctExtras(PlanRepairs(names, rows, Heads(rows)))
  {
    hide PlanRepairs, Heads, DistinctExtras, Sound, DistinctIds;
    var repairs := PlanRepairs(names, rows, Heads(rows));
    WholePlanIsSound(names, rows);
    forall i, j | 0 <= i < |repairs| && 0 <= j < |repairs| ensures repairs[i].keep.id != repairs[j].extra.id {
      assert repairs[i] in repairs && repairs[j] in repairs;
      KeepIsNoExtra(rows, repairs[i], repairs[j]);
    }
  }

  lemma WholePlanIsSound(names: Names, rows: seq<FileRow>)
    requires DistinctIds(rows)
    ensures forall r :: r in PlanRepairs(names, rows, Heads(rows)) ==> Sound(rows, r)
    ensures DistinctExtras(PlanRepairs(names, rows, Heads(rows)))
  {
    hide PlanRepairs, Heads, DistinctExtras, Sound, DistinctIds;
    PlanIsSound(names, rows, |Heads(rows)|);
    assert Heads(rows)[..|Heads(rows)|] == Heads(rows);
  }

  lemma KeepIsNoExtra(rows: seq<FileRow>, a: Repair, b: Repair)
    requires DistinctIds(rows) && Sound(rows, a) && Sound(rows, b)
    ensures a.keep.id != b.extra.id
  {
  }
}
