/**
Attachment aliases (src/oa_knowledge/backfill_mvp.py): the records of the same bytes, in groups.

Whether a name is truncated is given.
*/
module AliasGroups {
  import opened Wrappers

  datatype File = File(id: int, sha: Option<string>, truncated: bool, official: bool, nameLength: nat)

  datatype Attachment = Attachment(file: File, aliases: seq<File>)

  predicate SameContent(a: File, b: File) {
    a.sha.Some? && a.sha.value != "" && a.sha == b.sha
  }

  predicate Share(a: File, b: File) {
    a == b || SameContent(a, b)
  }

  predicate DistinctIds(files: seq<File>) {
    forall i, j :: 0 <= i < j < |files| ==> files[i].id != files[j].id
  }

  // --- the groups, declaratively ---

  /** The records that go with `x`, in order. */
  function Sharing(files: seq<File>, x: File): (r: seq<File>)
    ensures forall f :: f in r <==> f in files && Share(x, f)
  {
    if files == [] then []
    else
      var last := files[|files| - 1];
      Sharing(files[..|files| - 1], x) + if Share(x, last) then [last] else []
  }

  /** The records that go with no earlier one. */
  function Heads(files: seq<File>): (r: seq<File>)
    ensures forall f :: f in r ==> f in files
  {
    if files == [] then []
    else
      var init, last := files[..|files| - 1], files[|files| - 1];
      Heads(init) + if exists f :: f in init && Share(f, last) then [] else [last]
  }

  lemma SharingAppend(files: seq<File>, last: File, x: File)
    ensures Sharing(files + [last], x) == Sharing(files, x) + if Share(x, last) then [last] else []
  {
    assert (files + [last])[..|files|] == files;
  }

  lemma HeadsAppend(files: seq<File>, last: File)
    ensures Heads(files + [last]) == Heads(files) + if exists f :: f in files && Share(f, last) then [] else [last]
  {
    assert (files + [last])[..|files|] == files;
  }

  /** Every record goes with exactly one head. */
  lemma {:induction false} HeadsRepresent(files: seq<File>)
    ensures forall f :: f in files ==> exists i :: 0 <= i < |Heads(files)| && Share(Heads(files)[i], f)
    ensures forall i, j :: 0 <= i < j < |Heads(files)| ==> !Share(Heads(files)[i], Heads(files)[j])
  {
    if files != [] {
      var init, last := files[..|files| - 1], files[|files| - 1];
      HeadsRepresent(init);
      var before, heads := Heads(init), Heads(files);
      hide Heads;
      assert before <= heads;
      forall f | f in files ensures exists i :: 0 <= i < |heads| && Share(heads[i], f) {
        if f in init {
          Represented(before, heads, f, f);
        } else if exists g :: g in init && Share(g, last) {
          var g :| g in init && Share(g, last);
          Represented(before, heads, g, f);
        } else {
          assert Share(heads[|heads| - 1], f);
        }
      }
    }
  }

  lemma Represented(before: seq<File>, heads: seq<File>, g: File, f: File)
    requires before <= heads && Share(g, f) && exists i :: 0 <= i < |before| && Share(before[i], g)
    ensures exists i :: 0 <= i < |heads| && Share(heads[i], f)
  {
    var i :| 0 <= i < |before| && Share(before[i], g);
    assert Share(heads[i], f);
  }

  // --- one candidate per group ---

  /** Readable names first, then official attachments, then longer names. */
  predicate Prefers(a: File, b: File) {
    if a.truncated != b.truncated then !a.truncated
    else if a.official != b.official then a.official
    else a.nameLength > b.nameLength
  }

  predicate ById(files: seq<File>) {
    forall i, j :: 0 <= i < j < |files| ==> files[i].id < files[j].id
  }

  function InsertById(files: seq<File>, x: File): (r: seq<File>)
    ensures multiset(r) == multiset(files) + multiset{x}
  {
    if files == [] || files[|files| - 1].id <= x.id then files + [x]
    else
      assert files == files[..|files| - 1] + [files[|files| - 1]];
      InsertById(files[..|files| - 1], x) + [files[|files| - 1]]
  }

  function SortById(files: seq<File>): (r: seq<File>)
    ensures multiset(r) == multiset(files)
  {
    if files == [] then []
    else
      assert files == files[..|files| - 1] + [files[|files| - 1]];
      InsertById(SortById(files[..|files| - 1]), files[|files| - 1])
  }

  lemma SortHas(files: seq<File>)
    ensures |SortById(files)| == |files| && forall x :: x in SortById(files) <==> x in files
  {
    assert |multiset(SortById(files))| == |multiset(files)|;
    forall x ensures x in SortById(files) <==> x in files {
      assert x in multiset(SortById(files)) <==> x in multiset(files);
    }
  }

  lemma {:induction false} InsertSorts(files: seq<File>, x: File)
    requires ById(files) && forall y :: y in files ==> y.id != x.id
    ensures ById(InsertById(files, x))
  {
    if files != [] && files[|files| - 1].id > x.id {
      var init, last := files[..|files| - 1], files[|files| - 1];
      InsertSorts(init, x);
      forall y | y in InsertById(init, x) ensures y.id < last.id {
        assert y in multiset(InsertById(init, x));
        if y != x {
          assert y in multiset(init);
        }
      }
      LastById(InsertById(init, x), last);
    }
  }

  lemma LastById(files: seq<File>, last: File)
    requires ById(files) && forall y :: y in files ==> y.id < last.id
    ensures ById(files + [last])
  {
  }

  lemma {:induction false} SortSorts(files: seq<File>)
    requires DistinctIds(files)
    ensures ById(SortById(files))
  {
    if files != [] {
      var init, last := files[..|files| - 1], files[|files| - 1];
      SortSorts(init);
      SortHas(init);
      forall y | y in SortById(init) ensures y.id != last.id {
        var k :| 0 <= k < |init| && init[k] == y;
        assert files[k] == y;
      }
      InsertSorts(SortById(init), last);
    }
  }

  /** A candidate for a group: its most preferred record, the first one among equals, and all of them by id. */
  ghost predicate CandidateFor(a: Attachment, group: seq<File>) {
    && ById(a.aliases) && |a.aliases| == |group| && (forall x :: x in a.aliases <==> x in group)
    && exists k :: 0 <= k < |group| && a.file == group[k] && FirstBest(group, k)
  }

  predicate FirstBest(group: seq<File>, k: int)
    requires 0 <= k < |group|
  {
    && (forall i :: 0 <= i < |group| ==> !Prefers(group[i], group[k]))
    && (forall i :: 0 <= i < k ==> Prefers(group[k], group[i]))
  }

  /** As readable as the group allows, and as official as its readable records allow. */
  predicate AsGood(a: File, b: File) {
    a.truncated == b.truncated && a.official == b.official
  }

  /**
  The record of a candidate is not truncated if any of its group is not; it is official if any that is as
  readable is; its name is the longest of those, and it is the first of those with that length.
  */
  lemma BestMeans(group: seq<File>, k: nat)
    requires k < |group|
    ensures FirstBest(group, k) <==>
      && (forall x :: x in group && !x.truncated ==> !group[k].truncated)
      && (forall x :: x in group && x.truncated == group[k].truncated && x.official ==> group[k].official)
      && (forall x :: x in group && AsGood(x, group[k]) ==> x.nameLength <= group[k].nameLength)
      && (forall i :: 0 <= i < k && AsGood(group[i], group[k]) ==> group[i].nameLength < group[k].nameLength)
  {
    assert forall i :: 0 <= i < |group| ==> group[i] in group;
  }

  // --- the loops ---

  /** Each record joins the first group whose first record has its content, or opens a new group. */
  method GroupFiles(files: seq<File>) returns (groups: seq<seq<File>>)
    requires DistinctIds(files)
    ensures |groups| == |Heads(files)|
    ensures forall i :: 0 <= i < |groups| ==> groups[i] == Sharing(files, Heads(files)[i])
  {
    hide Sharing, Heads, DistinctIds;
    groups := [];
    NothingGrouped();
    for n := 0 to |files|
      invariant Grouped(files[..n], groups)
    {
      var file := files[n];
      FreshFile(files, n);
      var i: nat := 0;
      while i < |groups| && !SameContent(groups[i][0], file)
        invariant i <= |groups|
        invariant forall k :: 0 <= k < i ==> !SameContent(groups[k][0], file)
      {
        i := i + 1;
      }
      OneMoreFile(files[..n], groups, file, i);
      assert files[..n] + [file] == files[..n + 1];
      if i < |groups| {
        groups := groups[i := groups[i] + [file]];
      } else {
        groups := groups + [[file]];
      }
    }
    assert files[..|files|] == files;
  }

  ghost predicate Grouped(files: seq<File>, groups: seq<seq<File>>) {
    && |groups| == |Heads(files)|
    && forall i :: 0 <= i < |groups| ==> GroupIs(files, Heads(files)[i], groups[i])
  }

  ghost predicate GroupIs(files: seq<File>, head: File, group: seq<File>) {
    group == Sharing(files, head) && group != [] && group[0] == head
  }

  lemma NothingGrouped()
    ensures Grouped([], [])
  {
  }

  lemma FreshFile(files: seq<File>, n: nat)
    requires DistinctIds(files) && n < |files|
    ensures files[n] !in files[..n]
  {
  }

  /** `i` is the place of the first group that takes the new record. */
  lemma OneMoreFile(files: seq<File>, groups: seq<seq<File>>, file: File, i: nat)
    requires Grouped(files, groups) && file !in files && i <= |groups|
    requires forall k :: 0 <= k < i ==> !SameContent(groups[k][0], file)
    requires i < |groups| ==> SameContent(groups[i][0], file)
    ensures Grouped(files + [file], if i < |groups| then groups[i := groups[i] + [file]] else groups + [[file]])
  {
    var heads := Heads(files);
    HeadsAppend(files, file);
    HeadsRepresent(files);
    hide Sharing, Heads;
    assert forall k :: 0 <= k < |groups| ==> GroupIs(files, heads[k], groups[k]);
    if i < |groups| {
      assert Share(heads[i], file) && heads[i] in files;
      forall k | 0 <= k < |groups| ensures GroupIs(files + [file], heads[k], groups[i := groups[i] + [file]][k]) {
        SharingAppend(files, file, heads[k]);
        assert heads[k] in files;
        if k < i {
          assert !Share(heads[k], heads[i]);
        } else if i < k {
          assert !Share(heads[i], heads[k]);
        }
      }
    } else {
      forall f | f in files ensures !Share(f, file) {
        var k :| 0 <= k < |heads| && Share(heads[k], f);
        assert !SameContent(groups[k][0], file);
      }
      SharingAppend(files, file, file);
      NoneShares(files, file);
      forall k | 0 <= k < |groups| ensures GroupIs(files + [file], heads[k], groups[k]) {
        SharingAppend(files, file, heads[k]);
        assert heads[k] in files;
      }
    }
  }

  lemma {:induction false} NoneShares(files: seq<File>, x: File)
    requires forall f :: f in files ==> !Share(f, x)
    ensures Sharing(files, x) == []
  {
    if files != [] {
      NoneShares(files[..|files| - 1], x);
    }
  }
}
