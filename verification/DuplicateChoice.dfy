/**
Which real attachment an alias is folded into (tools/repair_attachment_duplicates.py, plan), told of the
records themselves: the only rival, exact names first.
*/
module DuplicateChoice {
  import opened Wrappers
  import opened DuplicatePlan
  import opened DuplicatePlanner

  /** A verified real attachment of the item and container, with the bytes of the alias and a name like its own. */
  predicate Rival(names: Names, rows: seq<FileRow>, e: FileRow, x: FileRow) {
    && x in rows && x.verified && x.sha.Some? && !Alias(x.key)
    && x.item == e.item && x.container == e.container && x.sha == e.sha && x.size == e.size
    && names.same(x.name, e.name)
  }

  predicate ExactRival(names: Names, rows: seq<FileRow>, e: FileRow, x: FileRow) {
    Rival(names, rows, e, x) && names.identity(x.name) == names.identity(e.name)
  }

  predicate AnyExact(names: Names, rows: seq<FileRow>, e: FileRow) {
    exists x :: x in rows && ExactRival(names, rows, e, x)
  }

  /** The rivals that count: the exact ones if there are any. */
  predicate Counts(names: Names, rows: seq<FileRow>, e: FileRow, x: FileRow) {
    Rival(names, rows, e, x) && (AnyExact(names, rows, e) ==> ExactRival(names, rows, e, x))
  }

  lemma MatchesAreRivals(names: Names, rows: seq<FileRow>, e: FileRow)
    ensures forall x :: x in Matches(names, GroupOf(rows, e), e) <==> Counts(names, rows, e, x)
  {
    var matches := Where(GroupOf(rows, e), Named(names, e));
    var exact := Where(matches, NamedExactly(names, e));
    hide Where;
    assert forall x :: x in matches <==> Rival(names, rows, e, x);
    assert forall x :: x in exact <==> ExactRival(names, rows, e, x);
    if exact != [] {
      assert exact[0] in exact;
      assert AnyExact(names, rows, e);
    }
  }

  lemma MatchesDistinct(names: Names, rows: seq<FileRow>, e: FileRow)
    requires DistinctIds(rows)
    ensures DistinctIds(Matches(names, GroupOf(rows, e), e))
  {
    hide Where, DistinctIds;
    WhereDistinct(rows, InGroup(e));
    WhereDistinct(GroupOf(rows, e), Named(names, e));
    WhereDistinct(Where(GroupOf(rows, e), Named(names, e)), NamedExactly(names, e));
  }

  lemma OnlyOne(rows: seq<FileRow>, keep: FileRow)
    requires DistinctIds(rows)
    ensures rows == [keep] <==> keep in rows && forall x :: x in rows ==> x == keep
    ensures |rows| > 1 <==> exists x, y :: x in rows && y in rows && x != y
  {
    if |rows| > 1 {
      assert rows[0] in rows && rows[1] in rows && rows[0].id != rows[1].id;
    }
  }

  /**
  A verified alias is folded into a record if and only if that one is the only rival that counts, and it is
  reported if and only if there are two of them.
  */
  lemma FoldedIff(names: Names, rows: seq<FileRow>, e: FileRow, keep: FileRow)
    requires DistinctIds(rows) && e in rows && e.verified && e.sha.Some? && Alias(e.key)
    ensures Repair(keep, e) in PlanRepairs(names, rows, Heads(rows)) <==>
      Counts(names, rows, e, keep) && forall x :: Counts(names, rows, e, x) ==> x == keep
    ensures e in PlanUnresolved(names, rows, Heads(rows)) <==>
      exists x, y :: Counts(names, rows, e, x) && Counts(names, rows, e, y) && x != y
  {
    PlanIsComplete(names, rows, e, keep);
    MatchesAreRivals(names, rows, e);
    MatchesDistinct(names, rows, e);
    OnlyOne(Matches(names, GroupOf(rows, e), e), keep);
    hide Matches, PlanRepairs, PlanUnresolved, Counts, Heads, GroupOf, DistinctIds;
  }

  /** Nothing else is folded or reported: only verified aliases are. */
  lemma OnlyAliasesAreFolded(names: Names, rows: seq<FileRow>, r: Repair)
    requires DistinctIds(rows) && r in PlanRepairs(names, rows, Heads(rows))
    ensures r.extra in rows && r.extra.verified && r.extra.sha.Some? && Alias(r.extra.key)
    ensures Counts(names, rows, r.extra, r.keep)
  {
    PlanIsSound(names, rows, |Heads(rows)|);
    assert Heads(rows)[..|Heads(rows)|] == Heads(rows);
    assert Sound(rows, r);
    FoldedIff(names, rows, r.extra, r.keep);
  }
}
