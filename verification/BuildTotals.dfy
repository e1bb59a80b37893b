/**
Candidate attachments and the totals of a build (src/oa_knowledge/backfill_mvp.py): the groups are
a partition by content, so the equations a build checks at its end always hold.
*/
module BuildTotals {
  import opened Wrappers
  import opened AliasGroups

  // --- candidates ---

  /** The candidates of a package: one per group, in the order of first appearance. */
  ghost predicate Canonical(files: seq<File>, r: seq<Attachment>) {
    && |r| == |Heads(files)|
    && forall i :: 0 <= i < |r| ==> CandidateFor(r[i], Sharing(files, Heads(files)[i]))
  }

  method FirstMax(group: seq<File>) returns (k: nat)
    requires group != []
    ensures k < |group| && FirstBest(group, k)
  {
    k := 0;
    for i := 1 to |group|
      invariant k < i
      invariant forall j :: 0 <= j < i ==> !Prefers(group[j], group[k])
      invariant forall j :: 0 <= j < k ==> Prefers(group[k], group[j])
    {
      if Prefers(group[i], group[k]) {
        k := i;
      }
    }
  }

  method CanonicalizeAttachmentAliases(files: seq<File>) returns (r: seq<Attachment>)
    requires DistinctIds(files)
    ensures Canonical(files, r)
  {
    hide Sharing, Heads, DistinctIds, CandidateFor;
    var groups := GroupFiles(files);
    r := [];
    for n := 0 to |groups|
      invariant |r| == n
      invariant forall i :: 0 <= i < n ==> CandidateFor(r[i], groups[i])
    {
      GroupIsProper(files, n);
      var candidate := Candidate(groups[n]);
      r := r + [candidate];
    }
  }

  method Candidate(group: seq<File>) returns (r: Attachment)
    requires group != [] && DistinctIds(group)
    ensures CandidateFor(r, group)
  {
    hide DistinctIds, FirstBest, SortById;
    var k := FirstMax(group);
    SortSorts(group);
    SortHas(group);
    r := Attachment(group[k], SortById(group));
  }

  lemma GroupIsProper(files: seq<File>, i: nat)
    requires DistinctIds(files) && i < |Heads(files)|
    ensures Sharing(files, Heads(files)[i]) != [] && DistinctIds(Sharing(files, Heads(files)[i]))
  {
    var head := Heads(files)[i];
    assert head in files && Share(head, head);
    assert head in Sharing(files, head);
    SharingDistinct(files, head);
  }

  lemma {:induction false} SharingDistinct(files: seq<File>, x: File)
    requires DistinctIds(files)
    ensures DistinctIds(Sharing(files, x))
  {
    if files != [] {
      var init, last := files[..|files| - 1], files[|files| - 1];
      SharingDistinct(init, x);
      forall f | f in Sharing(init, x) ensures f.id != last.id {
        var k :| 0 <= k < |init| && init[k] == f;
        assert files[k] == f;
      }
    }
  }

  /** Two different records are aliases of one candidate exactly when they have the same non-empty content. */
  lemma AliasesMeanSameContent(files: seq<File>, r: seq<Attachment>, a: File, b: File, i: nat, j: nat)
    requires Canonical(files, r) && i < |r| && j < |r| && a in r[i].aliases && b in r[j].aliases && a != b
    ensures i == j <==> SameContent(a, b)
  {
    var heads := Heads(files);
    HeadsRepresent(files);
    hide Heads, Sharing, FirstBest;
    assert CandidateFor(r[i], Sharing(files, heads[i])) && CandidateFor(r[j], Sharing(files, heads[j]));
    assert Share(heads[i], a) && Share(heads[j], b);
    if i < j {
      assert !Share(heads[i], heads[j]);
    } else if j < i {
      assert !Share(heads[j], heads[i]);
    }
  }

  /** Every record is an alias of exactly one candidate, and nothing else is. */
  lemma AliasesArePartition(files: seq<File>, r: seq<Attachment>)
    requires Canonical(files, r)
    ensures forall f :: f in files ==> exists i :: 0 <= i < |r| && f in r[i].aliases
    ensures forall i, f :: 0 <= i < |r| && f in r[i].aliases ==> f in files
    ensures forall i, j, f :: 0 <= i < |r| && 0 <= j < |r| && f in r[i].aliases && f in r[j].aliases ==> i == j
  {
    var heads := Heads(files);
    HeadsRepresent(files);
    hide Heads, Sharing, FirstBest;
    assert forall i :: 0 <= i < |r| ==> CandidateFor(r[i], Sharing(files, heads[i]));
    forall f | f in files ensures exists i :: 0 <= i < |r| && f in r[i].aliases {
      var i :| 0 <= i < |heads| && Share(heads[i], f);
      assert CandidateFor(r[i], Sharing(files, heads[i]));
    }
    forall i, j, f | 0 <= i < |r| && 0 <= j < |r| && f in r[i].aliases && f in r[j].aliases ensures i == j {
      assert Share(heads[i], f) && Share(heads[j], f);
      OneHead(files, i, j, f);
    }
  }

  lemma OneHead(files: seq<File>, i: nat, j: nat, f: File)
    requires i < |Heads(files)| && j < |Heads(files)| && Share(Heads(files)[i], f) && Share(Heads(files)[j], f)
    ensures i == j
  {
    HeadsRepresent(files);
    hide Heads;
    var a, b := Heads(files)[i], Heads(files)[j];
    assert Share(a, b) && Share(b, a);
  }

  function AliasCount(r: seq<Attachment>): nat {
    if r == [] then 0 else AliasCount(r[..|r| - 1]) + |r[|r| - 1].aliases|
  }

  function CountIn(files: seq<File>, heads: seq<File>): nat {
    if heads == [] then 0 else CountIn(files, heads[..|heads| - 1]) + |Sharing(files, heads[|heads| - 1])|
  }

  /** No record is lost or counted twice: the groups together have as many aliases as there are records. */
  lemma AliasesAddUp(files: seq<File>, r: seq<Attachment>)
    requires Canonical(files, r)
    ensures AliasCount(r) == |files|
  {
    CountsAgree(files, r, Heads(files), |r|);
    assert r[..|r|] == r && Heads(files)[..|r|] == Heads(files);
    GroupsAddUp(files);
  }

  lemma {:induction false} CountsAgree(files: seq<File>, r: seq<Attachment>, heads: seq<File>, n: nat)
    requires n <= |r| == |heads| && forall i :: 0 <= i < |r| ==> CandidateFor(r[i], Sharing(files, heads[i]))
    ensures AliasCount(r[..n]) == CountIn(files, heads[..n])
  {
    hide Sharing, FirstBest, ById;
    if n > 0 {
      CountsAgree(files, r, heads, n - 1);
      assert r[..n][..n - 1] == r[..n - 1] && heads[..n][..n - 1] == heads[..n - 1];
      assert CandidateFor(r[n - 1], Sharing(files, heads[n - 1]));
    }
  }

  lemma {:induction false} GroupsAddUp(files: seq<File>)
    ensures CountIn(files, Heads(files)) == |files|
  {
    if files != [] {
      var init, last := files[..|files| - 1], files[|files| - 1];
      assert files == init + [last];
      GroupsAddUp(init);
      if exists f :: f in init && Share(f, last) {
        OldContent(init, last);
      } else {
        NewContent(init, last);
      }
    }
  }

  lemma OldContent(files: seq<File>, last: File)
    requires exists f :: f in files && Share(f, last)
    ensures CountIn(files + [last], Heads(files + [last])) == CountIn(files, Heads(files)) + 1
  {
    HeadsAppend(files, last);
    hide Heads, CountIn, Sharing;
    assert Heads(files + [last]) == Heads(files);
    var f :| f in files && Share(f, last);
    var k := HeadOf(files, f);
    OnlyHead(files, last, k);
    CountAppend(files, last, Heads(files), k);
  }

  lemma HeadOf(files: seq<File>, f: File) returns (k: nat)
    requires f in files
    ensures k < |Heads(files)| && Share(Heads(files)[k], f)
  {
    HeadsRepresent(files);
    k :| 0 <= k < |Heads(files)| && Share(Heads(files)[k], f);
  }

  lemma OnlyHead(files: seq<File>, f: File, k: nat)
    requires k < |Heads(files)| && Share(Heads(files)[k], f)
    ensures forall i :: 0 <= i < |Heads(files)| ==> (Share(Heads(files)[i], f) <==> i == k)
  {
    hide Heads;
    forall i | 0 <= i < |Heads(files)| && Share(Heads(files)[i], f) ensures i == k {
      OneHead(files, i, k, f);
    }
  }

  lemma NewContent(files: seq<File>, last: File)
    requires forall f :: f in files ==> !Share(f, last)
    ensures CountIn(files + [last], Heads(files + [last])) == CountIn(files, Heads(files)) + 1
  {
    HeadsAppend(files, last);
    hide Heads;
    var heads := Heads(files);
    assert forall i :: 0 <= i < |heads| ==> heads[i] in files && !Share(heads[i], last);
    CountAppend(files, last, heads, |heads|);
    assert (heads + [last])[..|heads|] == heads;
    SharingAppend(files, last, last);
    NoneShares(files, last);
    assert Sharing(files + [last], last) == [last];
    assert Heads(files + [last]) == heads + [last];
    assert CountIn(files + [last], heads + [last]) == CountIn(files + [last], heads) + 1;
  }

  /** One more record lengthens the group of the head it goes with, if there is one (`k`). */
  lemma {:induction false} CountAppend(files: seq<File>, last: File, heads: seq<File>, k: nat)
    requires k <= |heads| && forall i :: 0 <= i < |heads| ==> (Share(heads[i], last) <==> i == k)
    ensures CountIn(files + [last], heads) == CountIn(files, heads) + if k < |heads| then 1 else 0
  {
    if heads != [] {
      var n := |heads| - 1;
      SharingAppend(files, last, heads[n]);
      hide Sharing;
      CountAppend(files, last, heads[..n], if k < n then k else n);
    }
  }

  // --- the build ---

  datatype Outcome = Converted(filename: Option<string>) | Skipped | Failed

  /**
  One selected item: whether its snapshot is complete, its classification, its files, and what each conversion
  yields.
  */
  datatype Sample = Sample(complete: bool, packageTaken: bool, classified: bool, files: seq<File>,
    outcomes: int -> Outcome)

  datatype Counts = Counts(
    selected: nat, packages: nat, classified: nat, needsReview: nat,
    sourceRecords: nat, duplicateAliases: int, attempted: nat, converted: nat, failed: nat, skipped: nat)

  datatype BuildError = SnapshotMissing | PackageExists | NotReconciled

  predicate Reconciles(c: Counts) {
    && c.selected == c.packages == c.classified + c.needsReview
    && c.attempted == c.converted + c.failed + c.skipped
    && c.sourceRecords == c.attempted + c.duplicateAliases
  }

  predicate Usable(s: Sample) {
    s.complete && !s.packageTaken
  }

  function Records(samples: seq<Sample>): nat {
    if samples == [] then 0 else Records(samples[..|samples| - 1]) + |samples[|samples| - 1].files|
  }

  /** How many contents the samples hold, counted package by package. */
  function Contents(samples: seq<Sample>): nat {
    if samples == [] then 0 else Contents(samples[..|samples| - 1]) + |Heads(samples[|samples| - 1].files)|
  }

  function Classified(samples: seq<Sample>): nat {
    if samples == [] then 0 else Classified(samples[..|samples| - 1]) + if samples[|samples| - 1].classified then 1
      else 0
  }

  function Outcomes(outcomes: int -> Outcome, n: nat, want: Outcome -> bool): nat {
    if n == 0 then 0 else Outcomes(outcomes, n - 1, want) + if want(outcomes(n)) then 1 else 0
  }

  function IsConverted(o: Outcome): bool { o.Converted? && o.filename.Some? }

  function IsSkipped(o: Outcome): bool { o.Skipped? }

  function IsFailed(o: Outcome): bool { !IsConverted(o) && !IsSkipped(o) }

  /** How many attachments of the packages ended like this. */
  function Ended(samples: seq<Sample>, want: Outcome -> bool): nat {
    if samples == [] then 0
    else
      var last := samples[|samples| - 1];
      Ended(samples[..|samples| - 1], want) + Outcomes(last.outcomes, |Heads(last.files)|, want)
  }

  lemma NothingYet(samples: seq<Sample>)
    ensures Records(samples[..0]) == Contents(samples[..0]) == Classified(samples[..0]) == 0
    ensures forall want :: Ended(samples[..0], want) == 0
  {
  }

  lemma SumsGrow(samples: seq<Sample>, n: nat)
    requires n < |samples|
    ensures var (before, after, x) := (samples[..n], samples[..n + 1], samples[n]);
      && Records(after) == Records(before) + |x.files|
      && Contents(after) == Contents(before) + |Heads(x.files)|
      && Classified(after) == Classified(before) + (if x.classified then 1 else 0)
      && forall want :: Ended(after, want) == Ended(before, want) + Outcomes(x.outcomes, |Heads(x.files)|, want)
  {
    assert samples[..n + 1][..n] == samples[..n];
    hide Heads, Outcomes;
  }

  /** The first sample that cannot be used. */
  predicate Stops(samples: seq<Sample>, n: int) {
    0 <= n < |samples| && !Usable(samples[n]) && forall i :: 0 <= i < n ==> Usable(samples[i])
  }

  /** The attachments of one package. */
  method ConvertAll(candidates: seq<Attachment>, outcomes: int -> Outcome)
      returns (converted: nat, failed: nat, skipped: nat)
    ensures converted == Outcomes(outcomes, |candidates|, IsConverted)
    ensures skipped == Outcomes(outcomes, |candidates|, IsSkipped)
    ensures failed == Outcomes(outcomes, |candidates|, IsFailed)
    ensures converted + failed + skipped == |candidates|
  {
    converted, failed, skipped := 0, 0, 0;
    for ordinal := 1 to |candidates| + 1
      invariant converted == Outcomes(outcomes, ordinal - 1, IsConverted)
      invariant skipped == Outcomes(outcomes, ordinal - 1, IsSkipped)
      invariant failed == Outcomes(outcomes, ordinal - 1, IsFailed)
      invariant converted + failed + skipped == ordinal - 1
    {
      var outcome := outcomes(ordinal);
      if outcome.Converted? && outcome.filename.Some? {
        converted := converted + 1;
      } else if outcome.Skipped? {
        skipped := skipped + 1;
      } else {
        failed := failed + 1;
      }
    }
  }

  /**
  A build ends with its totals or stops at a sample that cannot be used; the totals count the
  records and the different contents of every package, and how the conversions ended, and never fail to
  reconcile.
  */
  method Build(samples: seq<Sample>) returns (r: Result<Counts, BuildError>)
    requires forall s :: s in samples ==> DistinctIds(s.files)
    ensures r.Success? <==> forall s :: s in samples ==> Usable(s)
    ensures r.Failure? ==> exists n ::
      Stops(samples, n) && r.error == if !samples[n].complete then SnapshotMissing else PackageExists
    ensures r.Success? ==>
      && Reconciles(r.value)
      && r.value.selected == |samples| && r.value.classified == Classified(samples)
      && r.value.sourceRecords == Records(samples) && r.value.attempted == Contents(samples)
      && r.value.converted == Ended(samples, IsConverted) && r.value.skipped == Ended(samples, IsSkipped)
      && r.value.failed == Ended(samples, IsFailed)
  {
    hide Heads, DistinctIds, Records, Contents, Classified, Ended, Outcomes, IsConverted, IsSkipped, IsFailed;
    NothingYet(samples);
    var packages, classified, needsReview, records, aliases, attempted := 0, 0, 0, 0, 0, 0;
    var converted, failed, skipped := 0, 0, 0;
    for n := 0 to |samples|
      invariant forall i :: 0 <= i < n ==> Usable(samples[i])
      invariant packages == n && classified >= 0 && needsReview >= 0 && packages == classified + needsReview
      invariant records == Records(samples[..n]) && attempted == Contents(samples[..n]) &&
        classified == Classified(samples[..n])
      invariant aliases == records - attempted
      invariant converted + failed + skipped == attempted
      invariant converted == Ended(samples[..n], IsConverted) && skipped == Ended(samples[..n], IsSkipped) &&
        failed == Ended(samples[..n], IsFailed)
    {
      var sample := samples[n];
      assert sample in samples;
      if !sample.complete {
        assert Stops(samples, n);
        return Failure(SnapshotMissing);
      }
      if sample.packageTaken {
        assert Stops(samples, n);
        return Failure(PackageExists);
      }
      SumsGrow(samples, n);
      packages := packages + 1;
      if sample.classified {
        classified := classified + 1;
      } else {
        needsReview := needsReview + 1;
      }
      var candidates := CanonicalizeAttachmentAliases(sample.files);
      records := records + |sample.files|;
      aliases := aliases + |sample.files| - |candidates|;
      attempted := attempted + |candidates|;
      var c, f, s := ConvertAll(candidates, sample.outcomes);
      converted, failed, skipped := converted + c, failed + f, skipped + s;
    }
    assert samples[..|samples|] == samples;
    var counts := Counts(|samples|, packages, classified, needsReview, records, aliases, attempted, converted, failed,
      skipped);
    if !Reconciles(counts) {
      return Failure(NotReconciled);
    }
    r := Success(counts);
  }

  /** A package never has more contents than records. */
  lemma DuplicateAliasesAreReal(files: seq<File>, r: seq<Attachment>)
    requires Canonical(files, r)
    ensures |files| - |r| == AliasCount(r) - |r| >= 0
  {
    AliasesAddUp(files, r);
    EachHasAnAlias(r);
  }

  lemma {:induction false} EachHasAnAlias(r: seq<Attachment>)
    requires forall i :: 0 <= i < |r| ==> r[i].aliases != []
    ensures AliasCount(r) >= |r|
  {
    if r != [] {
      EachHasAnAlias(r[..|r| - 1]);
    }
  }
}
