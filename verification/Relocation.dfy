/**
Moving the bytes of folded records to the recovery directory (tools/repair_attachment_duplicates.py,
relocate). A run may die after any entry; the same journal is then processed again from the start.

Bytes stand for their hash, and a move is atomic.
*/
module Relocation {
  import opened Wrappers

  datatype Extra = Extra(id: nat, path: string, sha: string)

  /** The originals by path, and the recovery copies by record. */
  datatype Disk = Disk(sources: map<string, string>, backups: map<nat, string>)

  datatype BackupState = SharedPathRetained | BackedUp

  datatype RelocateError = OutsideTrees | CopyDiffers | BothExist | Changed

  /** What stays fixed: the paths that live rows refer to, and the paths under the originals. */
  datatype Setting = Setting(live: set<string>, originals: set<string>)

  /** One entry of the journal. */
  function Entry(s: Setting, d: Disk, e: Extra): Result<(Disk, BackupState), RelocateError> {
    if e.path !in s.originals then Failure(OutsideTrees)
    else if e.path in s.live then Success((d, SharedPathRetained))
    else if e.id in d.backups then
      if d.backups[e.id] != e.sha then Failure(CopyDiffers)
      else if e.path in d.sources then Failure(BothExist)
      else Success((d, BackedUp))
    else if e.path !in d.sources || d.sources[e.path] != e.sha then Failure(Changed)
    else Success((Disk(d.sources - {e.path}, d.backups[e.id := d.sources[e.path]]), BackedUp))
  }

  /** A run that gets no further than the first `n` entries: the disk it leaves, and the error that stopped it. */
  function Run(s: Setting, d: Disk, entries: seq<Extra>, n: nat): (Disk, Option<RelocateError>)
    requires n <= |entries|
  {
    if n == 0 then (d, None)
    else
      var (before, error) := Run(s, d, entries, n - 1);
      if error.Some? then (before, error)
      else
        match Entry(s, before, entries[n - 1])
        case Failure(e) => (before, Some(e))
        case Success(r) => (r.0, None)
  }

  /** One run after the other, each dying after at most the given number of entries. */
  function Attempts(s: Setting, d: Disk, entries: seq<Extra>, stops: seq<nat>): Disk
    requires forall i :: 0 <= i < |stops| ==> stops[i] <= |entries|
  {
    if stops == [] then d
    else Run(s, Attempts(s, d, entries, stops[..|stops| - 1]), entries, stops[|stops| - 1]).0
  }

  // --- the situation when the database phase is over ---

  predicate Unshared(s: Setting, e: Extra) {
    e.path !in s.live
  }

  /** The bytes were checked, nothing has been moved yet, and each record appears once. */
  ghost predicate Prepared(s: Setting, d: Disk, entries: seq<Extra>) {
    && (forall i :: 0 <= i < |entries| ==> ReadyToMove(s, d, entries[i]))
    && (forall i, j :: 0 <= i < j < |entries| ==> entries[i].id != entries[j].id)
  }

  predicate ReadyToMove(s: Setting, d: Disk, e: Extra) {
    && e.path in s.originals && e.id !in d.backups
    && (Unshared(s, e) ==> e.path in d.sources && d.sources[e.path] == e.sha)
  }

  /** No two of the first `n` records that must be moved share a path. */
  ghost predicate PathsDiffer(s: Setting, entries: seq<Extra>, n: nat)
    requires n <= |entries|
  {
    forall i, j :: 0 <= i < j < n && Unshared(s, entries[i]) && Unshared(s, entries[j]) ==>
      entries[i].path != entries[j].path
  }

  predicate MovedPath(s: Setting, entries: seq<Extra>, k: nat, path: string)
    requires k <= |entries|
  {
    exists i :: 0 <= i < k && Unshared(s, entries[i]) && entries[i].path == path
  }

  /** The disk after the first `k` entries. */
  function After(s: Setting, d: Disk, entries: seq<Extra>, k: nat): Disk
    requires k <= |entries|
  {
    if k == 0 then d
    else
      var u, e := After(s, d, entries, k - 1), entries[k - 1];
      if Unshared(s, e) then Disk(u.sources - {e.path}, u.backups[e.id := e.sha]) else u
  }

  lemma {:induction false} AfterSources(s: Setting, d: Disk, entries: seq<Extra>, k: nat, path: string)
    requires k <= |entries|
    ensures path in After(s, d, entries, k).sources <==> path in d.sources && !MovedPath(s, entries, k, path)
    ensures path in After(s, d, entries, k).sources ==> After(s, d, entries, k).sources[path] == d.sources[path]
  {
    if k > 0 {
      AfterSources(s, d, entries, k - 1, path);
      assert MovedPath(s, entries, k, path) <==>
        MovedPath(s, entries, k - 1, path) || (Unshared(s, entries[k - 1]) && entries[k - 1].path == path);
    }
  }

  lemma {:induction false} AfterBackups(s: Setting, d: Disk, entries: seq<Extra>, k: nat, i: nat)
    requires k <= |entries| && i < |entries| && Prepared(s, d, entries)
    ensures var u := After(s, d, entries, k);
      && (entries[i].id in u.backups <==> i < k && Unshared(s, entries[i]))
      && (entries[i].id in u.backups ==> u.backups[entries[i].id] == entries[i].sha)
  {
    if k > 0 {
      AfterBackups(s, d, entries, k - 1, i);
      hide ReadyToMove;
      assert i != k - 1 ==> entries[i].id != entries[k - 1].id;
    } else {
      assert ReadyToMove(s, d, entries[i]);
    }
  }

  /** One entry, when the first `k` have been moved already: nothing changes for these, and the next one moves. */
  lemma EntryAfter(s: Setting, d: Disk, entries: seq<Extra>, k: nat, i: nat)
    requires Prepared(s, d, entries) && i < |entries| && k <= |entries| && i <= k
    requires PathsDiffer(s, entries, if i < k then k else k + 1)
    ensures var r := Entry(s, After(s, d, entries, k), entries[i]);
      r.Success? && r.value.0 == After(s, d, entries, if i < k then k else k + 1)
  {
    var u, e := After(s, d, entries, k), entries[i];
    assert ReadyToMove(s, d, e);
    AfterBackups(s, d, entries, k, i);
    AfterSources(s, d, entries, k, e.path);
    if Unshared(s, e) {
      if i < k {
        assert MovedPath(s, entries, k, e.path);
      } else {
        assert !MovedPath(s, entries, k, e.path);
      }
    }
  }

  /** Running again from a disk on which the first `k` entries are done leaves the longer of the two prefixes. */
  lemma {:induction false} RunAgain(s: Setting, d: Disk, entries: seq<Extra>, k: nat, n: nat)
    requires Prepared(s, d, entries) && k <= |entries| && n <= |entries|
    requires PathsDiffer(s, entries, if n < k then k else n)
    ensures Run(s, After(s, d, entries, k), entries, n) == (After(s, d, entries, if n < k then k else n), None)
  {
    hide After, Entry, Prepared;
    if n > 0 {
      var before := if n - 1 < k then k else n - 1;
      assert PathsDiffer(s, entries, before);
      RunAgain(s, d, entries, k, n - 1);
      EntryAfter(s, d, entries, before, n - 1);
    }
  }

  /** The first record whose path an earlier record of the list already took. */
  ghost predicate FirstClash(s: Setting, entries: seq<Extra>, j: nat) {
    && j < |entries| && Unshared(s, entries[j]) && MovedPath(s, entries, j, entries[j].path) &&
      PathsDiffer(s, entries, j)
  }

  lemma {:induction false} FindClash(s: Setting, entries: seq<Extra>, n: nat) returns (j: nat)
    requires n <= |entries|
    ensures PathsDiffer(s, entries, n) ==> j == n
    ensures !PathsDiffer(s, entries, n) ==> j < n && FirstClash(s, entries, j)
  {
    if n == 0 {
      return 0;
    }
    j := FindClash(s, entries, n - 1);
    if PathsDiffer(s, entries, n) {
      assert PathsDiffer(s, entries, n - 1);
      j := n;
    } else if PathsDiffer(s, entries, n - 1) {
      assert MovedPath(s, entries, n - 1, entries[n - 1].path);
      j := n - 1;
    }
  }

  /** At a clash the run stops: the bytes are gone from the path, and there is no copy under this record. */
  lemma ClashFails(s: Setting, d: Disk, entries: seq<Extra>, j: nat)
    requires Prepared(s, d, entries) && FirstClash(s, entries, j)
    ensures Entry(s, After(s, d, entries, j), entries[j]) == Failure(Changed)
  {
    assert ReadyToMove(s, d, entries[j]);
    AfterBackups(s, d, entries, j, j);
    AfterSources(s, d, entries, j, entries[j].path);
  }

  /** With a clash at `j`, no run gets past it. */
  lemma {:induction false} RunStopsAtClash(s: Setting, d: Disk, entries: seq<Extra>, j: nat, k: nat, n: nat)
    requires Prepared(s, d, entries) && FirstClash(s, entries, j) && k <= j && n <= |entries|
    ensures Run(s, After(s, d, entries, k), entries, n)
            == if n <= j then (After(s, d, entries, if n < k then k else n), None)
              else (After(s, d, entries, j), Some(Changed))
  {
    hide After, Entry, Prepared;
    if n <= j {
      assert PathsDiffer(s, entries, if n < k then k else n);
      RunAgain(s, d, entries, k, n);
    } else {
      RunStopsAtClash(s, d, entries, j, k, n - 1);
      ClashFails(s, d, entries, j);
    }
  }

  /** Whatever interrupted runs came before, the disk is that after some prefix of the entries. */
  lemma {:induction false} AttemptsArePrefix(s: Setting, d: Disk, entries: seq<Extra>, j: nat, stops: seq<nat>)
      returns (k: nat)
    requires Prepared(s, d, entries) && forall i :: 0 <= i < |stops| ==> stops[i] <= |entries|
    requires FirstClash(s, entries, j) || (j == |entries| && PathsDiffer(s, entries, j))
    ensures k <= j && Attempts(s, d, entries, stops) == After(s, d, entries, k)
  {
    hide Run, Prepared, FirstClash;
    if stops == [] {
      k := 0;
      assert After(s, d, entries, 0) == d;
    } else {
      hide After;
      k := AttemptsArePrefix(s, d, entries, j, stops[..|stops| - 1]);
      var n := stops[|stops| - 1];
      k := OneAttempt(s, d, entries, j, k, n);
    }
  }

  lemma OneAttempt(s: Setting, d: Disk, entries: seq<Extra>, j: nat, before: nat, n: nat) returns (k: nat)
    requires Prepared(s, d, entries) && before <= j && n <= |entries|
    requires FirstClash(s, entries, j) || (j == |entries| && PathsDiffer(s, entries, j))
    ensures k <= j && Run(s, After(s, d, entries, before), entries, n).0 == After(s, d, entries, k)
  {
    hide After, Run, Prepared;
    k := if n > j then j else if n < before then before else n;
    if FirstClash(s, entries, j) {
      RunStopsAtClash(s, d, entries, j, before, n);
    } else {
      assert PathsDiffer(s, entries, k);
      RunAgain(s, d, entries, before, n);
    }
  }

  /**
  After any history of interrupted runs, running once more completes exactly when the records to be
  moved have paths of their own; otherwise it stops, every time, at the first shared one.
  */
  lemma ResumeCompletesIff(s: Setting, d: Disk, entries: seq<Extra>, stops: seq<nat>)
    requires Prepared(s, d, entries) && forall i :: 0 <= i < |stops| ==> stops[i] <= |entries|
    ensures Run(s, Attempts(s, d, entries, stops), entries, |entries|).1.None? <==> PathsDiffer(s, entries, |entries|)
    ensures PathsDiffer(s, entries, |entries|) ==>
      Run(s, Attempts(s, d, entries, stops), entries, |entries|).0 == After(s, d, entries, |entries|)
  {
    hide Run, After, Prepared, PathsDiffer, FirstClash;
    var j := FindClash(s, entries, |entries|);
    var k := AttemptsArePrefix(s, d, entries, j, stops);
    if PathsDiffer(s, entries, |entries|) {
      RunAgain(s, d, entries, k, |entries|);
    } else {
      ClashIsInside(s, entries, j);
      RunStopsAtClash(s, d, entries, j, k, |entries|);
    }
  }

  lemma ClashIsInside(s: Setting, entries: seq<Extra>, j: nat)
    requires FirstClash(s, entries, j)
    ensures j < |entries|
  {
  }

  /** The bytes of a record are in one place: its original path or its recovery copy. */
  predicate InOnePlace(d: Disk, e: Extra) {
    || (e.path in d.sources && d.sources[e.path] == e.sha && e.id !in d.backups)
    || (e.path !in d.sources && e.id in d.backups && d.backups[e.id] == e.sha)
  }

  /**
  At every point of every history the bytes of each record to be moved are in exactly one place, and no path of
  a live row is touched.
  */
  lemma BytesAreKept(s: Setting, d: Disk, entries: seq<Extra>, stops: seq<nat>, i: nat, path: string)
    requires Prepared(s, d, entries) && PathsDiffer(s, entries, |entries|) && i < |entries|
    requires forall x :: 0 <= x < |stops| ==> stops[x] <= |entries|
    ensures var u := Attempts(s, d, entries, stops);
      && (Unshared(s, entries[i]) ==> InOnePlace(u, entries[i]))
      && (path in s.live ==>
        (path in u.sources <==> path in d.sources) && (path in u.sources ==> u.sources[path] == d.sources[path]))
  {
    var k := AttemptsArePrefix(s, d, entries, |entries|, stops);
    hide Run, After, Attempts;
    assert ReadyToMove(s, d, entries[i]);
    AfterBackups(s, d, entries, k, i);
    AfterSources(s, d, entries, k, entries[i].path);
    AfterSources(s, d, entries, k, path);
    if Unshared(s, entries[i]) {
      MovedWhen(s, entries, k, i);
    }
  }

  lemma MovedWhen(s: Setting, entries: seq<Extra>, k: nat, i: nat)
    requires k <= |entries| && i < |entries| && Unshared(s, entries[i]) && PathsDiffer(s, entries, |entries|)
    ensures MovedPath(s, entries, k, entries[i].path) <==> i < k
  {
  }

  /** Two records on one path, which no live row refers to: the second can never be moved. */
  lemma SharedSourceNeverCompletes(stops: seq<nat>)
    requires forall i :: 0 <= i < |stops| ==> stops[i] <= 2
    ensures var s := Setting({}, {"originals/a.pdf"});
      var d := Disk(map["originals/a.pdf" := "sha"], map[]);
      var entries := [Extra(1, "originals/a.pdf", "sha"), Extra(2, "originals/a.pdf", "sha")];
      Prepared(s, d, entries) && Run(s, Attempts(s, d, entries, stops), entries, 2).1.Some?
  {
    var s := Setting({}, {"originals/a.pdf"});
    var d := Disk(map["originals/a.pdf" := "sha"], map[]);
    var entries := [Extra(1, "originals/a.pdf", "sha"), Extra(2, "originals/a.pdf", "sha")];
    assert entries[0].path == entries[1].path && Unshared(s, entries[0]) && Unshared(s, entries[1]);
    assert !PathsDiffer(s, entries, 2);
    ResumeCompletesIff(s, d, entries, stops);
  }

  // --- the loop ---

  class Journal {
    var disk: Disk
    var states: seq<Option<BackupState>>
    var completed: bool

    constructor (disk: Disk, n: nat)
      ensures this.disk == disk && |states| == n && !completed
    {
      this.disk, states, completed := disk, seq(n, i => None), false;
    }

    /** Works through the journal; `stop` is where the process dies, if it does. */
    method Relocate(s: Setting, entries: seq<Extra>, stop: nat) returns (error: Option<RelocateError>)
      requires |states| == |entries| && stop <= |entries|
      modifies this
      ensures (disk, error) == Run(s, old(disk), entries, stop)
      ensures completed == (old(completed) || (stop == |entries| && error.None?))
      ensures |states| == |entries|
      ensures error.None? ==> forall i :: 0 <= i < stop ==>
        states[i] == Some(if Unshared(s, entries[i]) then BackedUp else SharedPathRetained)
    {
      for n := 0 to stop
        invariant |states| == |entries| && completed == old(completed)
        invariant Run(s, old(disk), entries, n) == (disk, None)
        invariant forall i :: 0 <= i < n ==>
          states[i] == Some(if Unshared(s, entries[i]) then BackedUp else SharedPathRetained)
      {
        var problem := Move(s, entries[n], n);
        if problem.Some? {
          RunStays(s, old(disk), entries, n + 1, stop);
          return problem;
        }
      }
      if stop == |entries| {
        completed := true;
      }
      error := None;
    }

    method Move(s: Setting, e: Extra, n: nat) returns (error: Option<RelocateError>)
      requires n < |states|
      modifies this`disk, this`states
      ensures match Entry(s, old(disk), e)
        case Failure(x) => error == Some(x) && disk == old(disk) && states == old(states)
        case Success(r) => error.None? && disk == r.0 && states == old(states)[n := Some(r.1)]
      ensures error.None? ==> states[n] == Some(if Unshared(s, e) then BackedUp else SharedPathRetained)
    {
      if e.path !in s.originals {
        return Some(OutsideTrees);
      }
      if e.path in s.live {
        states := states[n := Some(SharedPathRetained)];
        return None;
      }
      if e.id in disk.backups {
        if disk.backups[e.id] != e.sha {
          return Some(CopyDiffers);
        }
        if e.path in disk.sources {
          return Some(BothExist);
        }
      } else {
        if e.path !in disk.sources || disk.sources[e.path] != e.sha {
          return Some(Changed);
        }
        disk := Disk(disk.sources - {e.path}, disk.backups[e.id := disk.sources[e.path]]);
      }
      states := states[n := Some(BackedUp)];
      error := None;
    }
  }

  lemma {:induction false} RunStays(s: Setting, d: Disk, entries: seq<Extra>, n: nat, m: nat)
    requires n <= m <= |entries| && Run(s, d, entries, n).1.Some?
    ensures Run(s, d, entries, m) == Run(s, d, entries, n)
  {
    if n < m {
      RunStays(s, d, entries, n, m - 1);
    }
  }
}
