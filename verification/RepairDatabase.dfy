/**
The repair on the database in place (tools/repair_attachment_duplicates.py, main): statements
change the tables one by one, and any error puts back what was there when the transaction began.
*/
module RepairDatabase {
  import opened Wrappers
  import opened DuplicatePlan
  import opened DuplicateMerge
  import opened DuplicateRepair

  class Database {
    var activeJobs: bool
    var files: map<nat, FileRow>
    var jobs: seq<Job>
    var reviews: seq<Review>
    var exports: seq<Export>
    var others: seq<Ref>

    constructor (db: Db)
      ensures State() == db
    {
      activeJobs, files, jobs, reviews, exports, others := db.activeJobs, db.files, db.jobs, db.reviews, db.exports,
        db.others;
    }

    function State(): Db
      reads this
    {
      Db(activeJobs, files, jobs, reviews, exports, others)
    }

    /** The exports of the extra record, one after the other. */
    method MergeExports(keep: nat, relpath: string, extra: nat)
      requires UniqueExports(exports) && keep != extra
      modifies this`exports
      ensures exports == MergedExports(old(exports), keep, relpath, extra)
    {
      hide UniqueExports, MergedExports, Merged;
      ghost var was := exports;
      NoneYet(was, keep, relpath, extra);
      for n := 0 to |exports|
        invariant |exports| == |was|
        invariant Partly(was, exports, keep, relpath, extra, n)
      {
        ghost var before := exports;
        assert PartlyAt(was, exports, keep, relpath, extra, n, n);
        if exports[n].source == Some(extra) {
          var x := exports[n];
          var current := ExportAt(exports, keep, x.schema);
          if current.Some? && !Displaces(x, exports[current.value]) {
            exports := exports[n := Dropped(x, relpath)];
          } else {
            if current.Some? {
              var c := exports[current.value];
              exports := exports[current.value := Dropped(c, c.relpath)];
            }
            exports := exports[n := x.(source := Some(keep), relpath := relpath)];
          }
          OneMore(was, before, keep, relpath, extra, n);
        } else {
          SkipOne(was, before, keep, relpath, extra, n);
        }
      }
      AllDone(was, exports, keep, relpath, extra);
    }

    /** One entry of the plan; on an error some of its statements may have been carried out. */
    method Fold(r: Repair, display: string -> string) returns (error: Option<MergeError>)
      requires UniqueExports(exports) && r.keep.id != r.extra.id
      modifies this
      ensures error.None? <==> FoldOne(old(State()), r, display).Success?
      ensures error.None? ==> State() == FoldOne(old(State()), r, display).value
      ensures error.Some? ==> FoldOne(old(State()), r, display) == Failure(error.value)
    {
      hide MergedExports, RedirectJobs, RedirectReviews, UniqueExports;
      if Referenced(State(), r.extra.id) {
        return Some(UnsupportedReferences);
      }
      if Parsing(State(), r.keep.id, r.extra.id) {
        return Some(BeingParsed);
      }
      jobs := RedirectJobs(jobs, r.extra.id, r.keep.id);
      reviews := RedirectReviews(reviews, r.extra.id, r.keep.id);
      MergeExports(r.keep.id, r.keep.relpath, r.extra.id);
      if r.keep.id !in files {
        return Some(KeepMissing);
      }
      var live := files[r.keep.id];
      var role := BetterRole(live.role, r.extra.role);
      if RoleIsTaken(files, live, role) {
        return Some(RoleTaken);
      }
      files := files[r.keep.id := live.(name := BetterName(display, live.name, r.extra.name), role := role)];
      files := files - {r.extra.id};
      error := None;
    }

    method Rollback(db: Db)
      modifies this
      ensures State() == db
    {
      activeJobs, files, jobs, reviews, exports, others := db.activeJobs, db.files, db.jobs, db.reviews, db.exports,
        db.others;
    }

    /** The transaction: it leaves exactly what the fold of all entries gives, or what was there before. */
    method Apply(repairs: seq<Repair>, display: string -> string) returns (error: Option<MergeError>)
      requires Constrained(State()) && KeptApart(repairs)
      modifies this
      ensures match Transaction(old(State()), repairs, display)
        case Success(u) => error.None? && State() == u
        case Failure(e) => error == Some(e) && State() == old(State())
    {
      hide FoldOne, ForeignKeysHold, UniqueRoles, UniqueExports;
      var start := State();
      if activeJobs {
        return Some(ActiveJob);
      }
      for n := 0 to |repairs|
        invariant FoldAll(start, repairs, display, n) == Result.Success(State())
      {
        AllKeepConstraints(start, repairs, display, n);
        var problem := Fold(repairs[n], display);
        if problem.Some? {
          FailureStays(start, repairs, display, n + 1, |repairs|);
          Rollback(start);
          return problem;
        }
      }
      if !ForeignKeysHold(State()) {
        Rollback(start);
        return Some(ForeignKeys);
      }
      error := None;
    }
  }

  lemma {:induction false} FailureStays(db: Db, repairs: seq<Repair>, display: string -> string, n: nat, m: nat)
    requires n <= m <= |repairs| && FoldAll(db, repairs, display, n).Failure?
    ensures FoldAll(db, repairs, display, m) == FoldAll(db, repairs, display, n)
  {
    hide FoldOne;
    if n < m {
      FailureStays(db, repairs, display, n, m - 1);
    }
  }

  // --- the loop over the exports ---

  /** Whether one of the first `n` exports of the extra record displaces `x`. */
  ghost predicate DisplacedBefore(was: seq<Export>, x: Export, extra: nat, n: nat)
    requires n <= |was|
  {
    exists i :: 0 <= i < n && At(was[i], extra, x.schema) && Displaces(was[i], x)
  }

  ghost predicate PartlyAt(was: seq<Export>, now: seq<Export>, keep: nat, relpath: string, extra: nat, n: nat, j: int)
    requires n <= |was| == |now| && 0 <= j < |was|
  {
    if was[j].source == Some(extra) then now[j] == if j < n then Merged(was, was[j], keep, relpath, extra) else was[j]
    else if was[j].source == Some(keep) then now[j] == if DisplacedBefore(was, was[j], extra, n)
      then Dropped(was[j], was[j].relpath) else was[j]
    else now[j] == was[j]
  }

  ghost predicate Partly(was: seq<Export>, now: seq<Export>, keep: nat, relpath: string, extra: nat, n: nat)
    requires n <= |was| == |now|
  {
    forall j :: 0 <= j < |was| ==> PartlyAt(was, now, keep, relpath, extra, n, j)
  }

  lemma NoneYet(was: seq<Export>, keep: nat, relpath: string, extra: nat)
    ensures Partly(was, was, keep, relpath, extra, 0)
  {
  }

  lemma SkipOne(was: seq<Export>, now: seq<Export>, keep: nat, relpath: string, extra: nat, n: nat)
    requires n < |was| == |now| && Partly(was, now, keep, relpath, extra, n) && was[n].source != Some(extra)
    ensures Partly(was, now, keep, relpath, extra, n + 1)
  {
    hide Merged;
    var next := n + 1;
    forall j | 0 <= j < |was| ensures PartlyAt(was, now, keep, relpath, extra, next, j) {
      assert PartlyAt(was, now, keep, relpath, extra, n, j);
    }
  }

  lemma AllDone(was: seq<Export>, now: seq<Export>, keep: nat, relpath: string, extra: nat)
    requires |was| == |now| && keep != extra && UniqueExports(was) && Partly(was, now, keep, relpath, extra, |was|)
    ensures now == MergedExports(was, keep, relpath, extra)
  {
    hide MergedExports, UniqueExports;
    var r := MergedExports(was, keep, relpath, extra);
    forall j | 0 <= j < |was| ensures now[j] == r[j] {
      assert PartlyAt(was, now, keep, relpath, extra, |was|, j);
      DisplacedIff(was, was[j], extra);
      assert r[j] == Merged(was, was[j], keep, relpath, extra);
    }
  }

  lemma DisplacedIff(was: seq<Export>, x: Export, extra: nat)
    requires UniqueExports(was)
    ensures var e := ExportAt(was, extra, x.schema);
      DisplacedBefore(was, x, extra, |was|) <==> e.Some? && Displaces(was[e.value], x)
  {
  }

  /** What the loop does with the export at `n`. */
  ghost function AfterOne(now: seq<Export>, keep: nat, relpath: string, extra: nat, n: nat): (r: seq<Export>)
    requires n < |now|
    ensures |r| == |now|
  {
    var x := now[n];
    var c := ExportAt(now, keep, x.schema);
    if c.Some? && !Displaces(x, now[c.value]) then now[n := Dropped(x, relpath)]
    else
      var more := if c.Some? then now[c.value := Dropped(now[c.value], now[c.value].relpath)] else now;
      more[n := x.(source := Some(keep), relpath := relpath)]
  }

  /** The row that holds the place in the changing table is the one that held it from the beginning. */
  lemma SameHolder(was: seq<Export>, now: seq<Export>, keep: nat, relpath: string, extra: nat, n: nat)
    requires n < |was| == |now| && keep != extra && UniqueExports(was) && Partly(was, now, keep, relpath, extra, n) &&
      was[n].source == Some(extra)
    ensures now[n] == was[n]
    ensures ExportAt(now, keep, was[n].schema) == ExportAt(was, keep, was[n].schema)
    ensures var c := ExportAt(was, keep, was[n].schema); c.Some? ==> now[c.value] == was[c.value]
  {
    hide Merged, UniqueExports;
    var s := was[n].schema;
    var c, d := ExportAt(now, keep, s), ExportAt(was, keep, s);
    assert PartlyAt(was, now, keep, relpath, extra, n, n);
    if c.Some? {
      HolderWasThere(was, now, keep, relpath, extra, n, c.value);
      AtMostOne(was, c.value, d.value, keep, s);
    }
    if d.Some? {
      assert PartlyAt(was, now, keep, relpath, extra, n, d.value);
      NotDisplacedYet(was, extra, n, was[d.value]);
      assert At(now[d.value], keep, s);
    }
  }

  lemma NotDisplacedYet(was: seq<Export>, extra: nat, n: nat, x: Export)
    requires n < |was| && UniqueExports(was) && was[n].source == Some(extra) && x.schema == was[n].schema
    ensures !DisplacedBefore(was, x, extra, n)
    ensures DisplacedBefore(was, x, extra, n + 1) <==> Displaces(was[n], x)
  {
    assert At(was[n], extra, x.schema);
  }

  lemma HolderWasThere(was: seq<Export>, now: seq<Export>, keep: nat, relpath: string, extra: nat, n: nat, c: nat)
    requires n < |was| == |now| && keep != extra && UniqueExports(was) && Partly(was, now, keep, relpath, extra, n) &&
      was[n].source == Some(extra)
    requires c < |now| && At(now[c], keep, was[n].schema)
    ensures At(was[c], keep, was[n].schema) && now[c] == was[c]
  {
    assert PartlyAt(was, now, keep, relpath, extra, n, c);
    if was[c].source == Some(extra) && c < n {
      MergedSchema(was, was[c], keep, relpath, extra);
      AtMostOne(was, c, n, extra, was[n].schema);
    }
  }

  lemma MergedSchema(was: seq<Export>, x: Export, keep: nat, relpath: string, extra: nat)
    ensures Merged(was, x, keep, relpath, extra).schema == x.schema
  {
  }

  lemma OneMore(was: seq<Export>, now: seq<Export>, keep: nat, relpath: string, extra: nat, n: nat)
    requires n < |was| == |now| && keep != extra && UniqueExports(was) && Partly(was, now, keep, relpath, extra, n) &&
      was[n].source == Some(extra)
    ensures Partly(was, AfterOne(now, keep, relpath, extra, n), keep, relpath, extra, n + 1)
  {
    SameHolder(was, now, keep, relpath, extra, n);
    var after, next := AfterOne(now, keep, relpath, extra, n), n + 1;
    hide UniqueExports, DisplacedBefore;
    forall j | 0 <= j < |was| ensures PartlyAt(was, after, keep, relpath, extra, next, j) {
      assert PartlyAt(was, now, keep, relpath, extra, n, j);
      RowAfterOne(was, now, keep, relpath, extra, n, j);
    }
  }

  lemma RowAfterOne(was: seq<Export>, now: seq<Export>, keep: nat, relpath: string, extra: nat, n: nat, j: nat)
    requires n < |was| == |now| && keep != extra && UniqueExports(was) && was[n].source == Some(extra) && j < |was|
    requires PartlyAt(was, now, keep, relpath, extra, n, j) && now[n] == was[n]
    requires ExportAt(now, keep, was[n].schema) == ExportAt(was, keep, was[n].schema)
    requires var c := ExportAt(was, keep, was[n].schema); c.Some? ==> now[c.value] == was[c.value]
    ensures PartlyAt(was, AfterOne(now, keep, relpath, extra, n), keep, relpath, extra, n + 1, j)
  {
    hide ExportAt;
    if was[j].source == Some(keep) {
      if was[j].schema == was[n].schema {
        NotDisplacedYet(was, extra, n, was[j]);
        AtMostOne(was, j, ExportAt(was, keep, was[n].schema).value, keep, was[n].schema);
      } else {
        OtherSchema(was, extra, n, was[j]);
      }
    }
  }

  lemma OtherSchema(was: seq<Export>, extra: nat, n: nat, x: Export)
    requires n < |was| && x.schema != was[n].schema
    ensures DisplacedBefore(was, x, extra, n + 1) <==> DisplacedBefore(was, x, extra, n)
  {
  }
}
