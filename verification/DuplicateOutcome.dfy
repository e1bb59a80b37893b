/**
What a committed repair has left alone and what it has made of names, roles and paths
(tools/repair_attachment_duplicates.py, main).
*/
module DuplicateOutcome {
  import opened Wrappers
  import opened DuplicatePlan
  import opened DuplicateMerge
  import opened DuplicateRepair

  // --- nobody works on what is folded ---

  /** An entry is refused while a job reads one of its files, or if rows refer to the extra one that cannot be moved. */
  lemma FoldsOnlyWhenIdle(db: Db, r: Repair, display: string -> string)
    ensures FoldOne(db, r, display).Success? ==>
      && r.keep.id in db.files
      && (forall j :: j in db.jobs && j.running ==> j.file != r.keep.id && j.file != r.extra.id)
      && (forall x :: x in db.others ==> x.file != r.extra.id)
      && (forall i :: i in db.files ==> db.files[i].parent != Some(r.extra.id))
    ensures FoldOne(db, r, display) == Failure(BeingParsed) ==>
      exists j :: j in db.jobs && j.running && j.file in {r.keep.id, r.extra.id}
    ensures FoldOne(db, r, display) == Failure(KeepMissing) ==> r.keep.id !in db.files
    ensures FoldOne(db, r, display) == Failure(UnsupportedReferences) <==> Referenced(db, r.extra.id)
  {
    hide Folded, BetterRole;
  }

  lemma {:induction false} PrefixSucceeds(db: Db, repairs: seq<Repair>, display: string -> string, n: nat, k: nat)
    requires k <= n <= |repairs| && FoldAll(db, repairs, display, n).Success?
    ensures FoldAll(db, repairs, display, k).Success?
  {
    hide FoldOne;
    if k < n {
      PrefixSucceeds(db, repairs, display, n - 1, k);
    }
  }

  /** A file of entry `k` has not been sent anywhere by the entries before. */
  lemma StillThere(repairs: seq<Repair>, k: nat, id: nat)
    requires k < |repairs| && KeptApart(repairs) && DistinctExtras(repairs) &&
      id in {repairs[k].keep.id, repairs[k].extra.id}
    ensures Sent(repairs, k, id) == id
  {
    SentMeans(repairs, k, id);
  }

  /** A repair commits only if no job of the program is active and no running job reads a file it keeps or folds. */
  lemma CommitsOnlyWhenIdle(db: Db, repairs: seq<Repair>, display: string -> string, k: nat, j: Job)
    requires KeptApart(repairs) && DistinctExtras(repairs) && Transaction(db, repairs, display).Success?
    requires k < |repairs| && j in db.jobs && j.running
    ensures !db.activeJobs && j.file != repairs[k].keep.id && j.file != repairs[k].extra.id
  {
    hide *;
    FoldsCommit(db, repairs, display);
    PrefixSucceeds(db, repairs, display, |repairs|, k + 1);
    PrefixSucceeds(db, repairs, display, |repairs|, k);
    var u := FoldAll(db, repairs, display, k).value;
    RowsAreConserved(db, repairs, display, k);
    var i := JobIsThere(db, u, repairs, k, j);
    NextFold(db, repairs, display, k);
    FoldsOnlyWhenIdle(u, repairs[k], display);
    assert u.jobs[i] in u.jobs;
    if j.file in {repairs[k].keep.id, repairs[k].extra.id} {
      StillThere(repairs, k, j.file);
    }
  }

  lemma FoldsCommit(db: Db, repairs: seq<Repair>, display: string -> string)
    requires Transaction(db, repairs, display).Success?
    ensures !db.activeJobs && FoldAll(db, repairs, display, |repairs|).Success?
  {
    hide FoldAll, ForeignKeysHold;
  }

  lemma NextFold(db: Db, repairs: seq<Repair>, display: string -> string, k: nat)
    requires k < |repairs| && FoldAll(db, repairs, display, k + 1).Success? && FoldAll(db, repairs, display, k).Success?
    ensures FoldOne(FoldAll(db, repairs, display, k).value, repairs[k], display).Success?
  {
    hide FoldOne;
  }

  lemma JobIsThere(db: Db, u: Db, repairs: seq<Repair>, n: nat, j: Job) returns (i: nat)
    requires n <= |repairs| && RowsConserved(db, u, repairs, n) && j in db.jobs
    ensures i < |u.jobs| && u.jobs[i].running == j.running && u.jobs[i].file == Sent(repairs, n, j.file)
  {
    i :| 0 <= i < |db.jobs| && db.jobs[i] == j;
  }

  // --- names and roles ---

  lemma RolesInOrder(role: string)
    ensures Rank("official_body") > Rank("official_attachment") > Rank("direct_attachment") > Rank("anything else")
    ensures role !in {"official_body", "official_attachment", "direct_attachment"} ==>
      Rank(role) == Rank("anything else")
  {
  }

  predicate DotsAt(name: string, i: int) {
    0 <= i <= |name| - 3 && name[i] == '.' && name[i + 1] == '.' && name[i + 2] == '.'
  }

  lemma DotsFirst(name: string)
    ensures DotsAt(name, 0) <==> "..." <= name
  {
  }

  /** A truncated name has three dots somewhere. */
  lemma {:induction false} TruncatedMeans(name: string)
    ensures Truncated(name) <==> exists i :: DotsAt(name, i)
  {
    DotsFirst(name);
    if name != "" {
      TruncatedMeans(name[1..]);
      forall i: nat ensures DotsAt(name[1..], i) <==> DotsAt(name, i + 1) {
      }
      if exists i :: DotsAt(name, i) {
        var i :| DotsAt(name, i);
        assert i == 0 || DotsAt(name[1..], i - 1);
      }
      hide DotsAt;
    } else {
      assert forall i :: !DotsAt(name, i);
    }
  }

  /** One fold: the cleaned-up name of the kept record, unless that is truncated and the other one is not. */
  lemma FoldedName(live: FileRow, extra: FileRow, display: string -> string)
    ensures var x := Improved(live, extra, display);
      && (x.name == display(extra.name) || x.name == display(live.name))
      && (!Truncated(display(live.name)) ==> x.name == display(live.name))
      && (Truncated(x.name) <==> Truncated(display(live.name)) && Truncated(display(extra.name)))
      && (x.role == live.role || x.role == extra.role)
      && Rank(x.role) >= Rank(live.role) && Rank(x.role) >= Rank(extra.role)
      && (Rank(extra.role) <= Rank(live.role) ==> x.role == live.role)
  {
    hide Truncated, Rank;
  }

  /** Cleaning up a name a second time neither truncates it nor makes it whole. */
  ghost predicate Settles(display: string -> string) {
    forall x :: Truncated(display(display(x))) == Truncated(display(x))
  }

  predicate Touched(repairs: seq<Repair>, n: nat, id: nat)
    requires n <= |repairs|
  {
    exists i :: 0 <= i < n && repairs[i].keep.id == id
  }

  /** All names that a file was given by the first `n` entries are truncated. */
  ghost predicate AllTruncated(repairs: seq<Repair>, n: nat, id: nat, display: string -> string)
    requires n <= |repairs|
  {
    forall i :: 0 <= i < n && repairs[i].keep.id == id ==> Truncated(display(repairs[i].extra.name))
  }

  ghost predicate NameIsBest(before: FileRow, after: FileRow, repairs: seq<Repair>, n: nat, display: string -> string)
    requires n <= |repairs|
  {
    if Touched(repairs, n, before.id) then
      && (exists x :: after.name == display(x))
      && (Truncated(after.name) <==> Truncated(display(before.name)) && AllTruncated(repairs, n, before.id, display))
    else after.name == before.name
  }

  lemma NameStep(before: FileRow, x: FileRow, repairs: seq<Repair>, n: nat, display: string -> string)
    requires 0 < n <= |repairs| && Settles(display) && NameIsBest(before, x, repairs, n - 1, display)
    ensures var r := repairs[n - 1];
      NameIsBest(before, if r.keep.id == before.id then Improved(x, r.extra, display) else x, repairs, n, display)
  {
    var r := repairs[n - 1];
    assert Touched(repairs, n, before.id) <==> Touched(repairs, n - 1, before.id) || r.keep.id == before.id;
    assert AllTruncated(repairs, n, before.id, display) <==>
      AllTruncated(repairs, n - 1, before.id, display) && (r.keep.id == before.id ==> Truncated(display(r.extra.name)));
    FoldedName(x, r.extra, display);
    hide Truncated, Improved;
  }

  /**
  After a repair a file that others were folded into has a cleaned-up name, which is truncated only if all of
  theirs and its own were; any other file has the name it had.
  */
  lemma {:induction false} NamesAreBest(db: Db, repairs: seq<Repair>, display: string -> string, n: nat, id: nat)
    requires n <= |repairs| && KeptApart(repairs) && Settles(display) && Constrained(db) && id in db.files
    ensures var r := FoldAll(db, repairs, display, n);
      r.Success? && id in r.value.files ==> NameIsBest(db.files[id], r.value.files[id], repairs, n, display)
  {
    hide FoldOne, NameIsBest, Settles, KeptApart, UniqueExports, UniqueRoles;
    if n == 0 {
      UntouchedName(db.files[id], repairs, display);
    } else if FoldAll(db, repairs, display, n).Success? && id in FoldAll(db, repairs, display, n).value.files {
      var u := FoldAll(db, repairs, display, n - 1).value;
      NamesAreBest(db, repairs, display, n - 1, id);
      FoldedFiles(u, repairs[n - 1], display);
      NameStep(db.files[id], u.files[id], repairs, n, display);
    }
  }

  lemma UntouchedName(x: FileRow, repairs: seq<Repair>, display: string -> string)
    ensures NameIsBest(x, x, repairs, 0, display)
  {
  }

  // --- paths ---

  /** The path of an export after the first `n` entries: that of the file which its own was folded into, if it was. */
  function PathAfter(repairs: seq<Repair>, n: nat, source: nat, relpath: string): string
    requires n <= |repairs|
  {
    if n == 0 then relpath
    else if repairs[n - 1].extra.id == source then repairs[n - 1].keep.relpath
    else PathAfter(repairs, n - 1, source, relpath)
  }

  ghost predicate PathFollows(x: Export, y: Export, repairs: seq<Repair>, n: nat)
    requires n <= |repairs|
  {
    if x.source.None? then y == x
    else
      && y.relpath == PathAfter(repairs, n, x.source.value, x.relpath)
      && (if y.source.Some? then y.source.value == Sent(repairs, n, x.source.value)
          else FoldedAway(repairs, n, x.source.value) || Touched(repairs, n, x.source.value))
  }

  ghost predicate PathsFollow(db: Db, u: Db, repairs: seq<Repair>, n: nat)
    requires n <= |repairs|
  {
    && |u.exports| == |db.exports|
    && forall i :: 0 <= i < |db.exports| ==> PathFollows(db.exports[i], u.exports[i], repairs, n)
  }

  lemma MergedPath(exports: seq<Export>, r: Repair, y: Export)
    ensures var z := Merged(exports, y, r.keep.id, r.keep.relpath, r.extra.id);
      && (y.source.None? ==> z == y)
      && z.relpath == (if y.source == Some(r.extra.id) then r.keep.relpath else y.relpath)
      && (z.source.Some? ==>
            y.source.Some? && z.source.value == if y.source.value == r.extra.id then r.keep.id else y.source.value)
      && (z.source.None? && y.source.Some? ==> y.source.value in {r.extra.id, r.keep.id})
  {
    hide ExportAt, Displaces;
  }

  lemma PathStep(x: Export, exports: seq<Export>, y: Export, repairs: seq<Repair>, n: nat)
    requires 0 < n <= |repairs| && KeptApart(repairs) && DistinctExtras(repairs) && PathFollows(x, y, repairs, n - 1)
    ensures var r := repairs[n - 1];
      PathFollows(x, Merged(exports, y, r.keep.id, r.keep.relpath, r.extra.id), repairs, n)
  {
    var r := repairs[n - 1];
    MergedPath(exports, r, y);
    hide Merged;
    if x.source.Some? {
      var id := x.source.value;
      SentMeans(repairs, n - 1, id);
      assert id == r.extra.id ==> !FoldedAway(repairs, n - 1, id) && !Touched(repairs, n - 1, id);
      assert Sent(repairs, n - 1, id) == r.extra.id ==> id == r.extra.id;
      assert FoldedAway(repairs, n, id) <==> FoldedAway(repairs, n - 1, id) || r.extra.id == id;
      assert Touched(repairs, n, id) <==> Touched(repairs, n - 1, id) || r.keep.id == id;
    }
  }

  /** After a repair each export has the path of the file that its own was folded into, or its own path. */
  lemma {:induction false} PathsAreSent(db: Db, repairs: seq<Repair>, display: string -> string, n: nat)
    requires n <= |repairs| && KeptApart(repairs) && DistinctExtras(repairs)
    ensures FoldAll(db, repairs, display, n).Success? ==>
      PathsFollow(db, FoldAll(db, repairs, display, n).value, repairs, n)
  {
    hide FoldOne, PathFollows, KeptApart, DistinctExtras;
    if n == 0 {
      OwnPaths(db, repairs);
    } else if FoldAll(db, repairs, display, n).Success? {
      PathsAreSent(db, repairs, display, n - 1);
      var u, v, r := FoldAll(db, repairs, display, n - 1).value, FoldAll(db, repairs, display, n).value, repairs[n - 1];
      FoldedRows(u, r, display);
      hide MergedExports, Merged;
      forall i | 0 <= i < |db.exports| ensures PathFollows(db.exports[i], v.exports[i], repairs, n) {
        assert v.exports[i] == Merged(u.exports, u.exports[i], r.keep.id, r.keep.relpath, r.extra.id);
        PathStep(db.exports[i], u.exports, u.exports[i], repairs, n);
      }
    }
  }

  lemma OwnPaths(db: Db, repairs: seq<Repair>)
    ensures PathsFollow(db, db, repairs, 0)
  {
  }
}
