/**
The planning loops (tools/repair_attachment_duplicates.py, plan): records are put into groups, and
every alias of a group is folded, left alone or reported as ambiguous.
*/
module DuplicatePlanner {
  import opened DuplicatePlan

  function PlanUnresolved(names: Names, rows: seq<FileRow>, heads: seq<FileRow>): seq<FileRow> {
    if heads == [] then []
    else
      var group := GroupOf(rows, heads[|heads| - 1]);
      PlanUnresolved(names, rows, heads[..|heads| - 1]) + Unresolved(names, group, Where(group, IsAlias))
  }

  // --- every alias gets the fate its own group decides ---

  lemma {:induction false} SameGroup(rows: seq<FileRow>, x: FileRow, y: FileRow)
    requires Together(x, y)
    ensures GroupOf(rows, x) == GroupOf(rows, y)
  {
    if rows != [] {
      SameGroup(rows[..|rows| - 1], x, y);
    }
  }

  lemma {:induction false} FatesOfGroup(names: Names, group: seq<FileRow>, extras: seq<FileRow>, e: FileRow,
      keep: FileRow)
    ensures e in extras && FateOf(names, group, e) == Fold(keep) ==> Repair(keep, e) in Repairs(names, group, extras)
    ensures Repair(keep, e) in Repairs(names, group, extras) ==> e in extras && FateOf(names, group, e) == Fold(keep)
    ensures e in Unresolved(names, group, extras) <==> e in extras && FateOf(names, group, e) == Ambiguous
  {
    hide FateOf;
    if extras != [] {
      FatesOfGroup(names, group, extras[..|extras| - 1], e, keep);
    }
  }

  ghost predicate InSomeGroup(rows: seq<FileRow>, heads: seq<FileRow>, e: FileRow) {
    exists i :: 0 <= i < |heads| && Together(heads[i], e)
  }

  lemma {:induction false} FatesOfGroups(names: Names, rows: seq<FileRow>, heads: seq<FileRow>, e: FileRow,
      keep: FileRow)
    requires e in rows && Candidate(e) && Alias(e.key)
    ensures Repair(keep, e) in PlanRepairs(names, rows, heads) <==>
      InSomeGroup(rows, heads, e) && FateOf(names, GroupOf(rows, e), e) == Fold(keep)
    ensures e in PlanUnresolved(names, rows, heads) <==>
      InSomeGroup(rows, heads, e) && FateOf(names, GroupOf(rows, e), e) == Ambiguous
  {
    hide FateOf, Where, GroupOf, Repairs, Unresolved;
    if heads != [] {
      var init, head := heads[..|heads| - 1], heads[|heads| - 1];
      FatesOfGroups(names, rows, init, e, keep);
      LastGroup(names, rows, head, e, keep);
      OneMoreGroup(rows, init, head, e);
      assert init + [head] == heads;
    }
  }

  lemma OneMoreGroup(rows: seq<FileRow>, init: seq<FileRow>, head: FileRow, e: FileRow)
    ensures InSomeGroup(rows, init + [head], e) <==> InSomeGroup(rows, init, e) || Together(head, e)
  {
    var heads := init + [head];
    if InSomeGroup(rows, init, e) {
      var i :| 0 <= i < |init| && Together(init[i], e);
      assert Together(heads[i], e);
    }
    if Together(head, e) {
      assert Together(heads[|init|], e);
    }
  }

  lemma LastGroup(names: Names, rows: seq<FileRow>, head: FileRow, e: FileRow, keep: FileRow)
    requires e in rows && Candidate(e) && Alias(e.key)
    ensures var group := GroupOf(rows, head);
      && (Repair(keep, e) in Repairs(names, group, Where(group, IsAlias)) <==>
        Together(head, e) && FateOf(names, GroupOf(rows, e), e) == Fold(keep))
      && (e in Unresolved(names, group, Where(group, IsAlias)) <==>
        Together(head, e) && FateOf(names, GroupOf(rows, e), e) == Ambiguous)
  {
    var group := GroupOf(rows, head);
    FatesOfGroup(names, group, Where(group, IsAlias), e, keep);
    assert e in Where(group, IsAlias) <==> Together(head, e);
    hide FateOf, Repairs, Unresolved, Where, GroupOf;
    if Together(head, e) {
      SameGroup(rows, head, e);
    }
  }

  /**
  A verified alias is folded into a record exactly when that record is its one match among the real
  attachments of its item and container with its bytes, and reported exactly when there are several.
  */
  lemma PlanIsComplete(names: Names, rows: seq<FileRow>, e: FileRow, keep: FileRow)
    requires e in rows && Candidate(e) && Alias(e.key)
    ensures Repair(keep, e) in PlanRepairs(names, rows, Heads(rows)) <==> Matches(names, GroupOf(rows, e), e) == [keep]
    ensures e in PlanUnresolved(names, rows, Heads(rows)) <==> |Matches(names, GroupOf(rows, e), e)| > 1
  {
    hide Heads, Matches, GroupOf, PlanRepairs, PlanUnresolved, FateOf;
    HeadsRepresent(rows);
    assert HasHead(rows, e);
    assert InSomeGroup(rows, Heads(rows), e);
    FatesOfGroups(names, rows, Heads(rows), e, keep);
    FateMeans(names, GroupOf(rows, e), e, keep);
  }

  lemma FateMeans(names: Names, group: seq<FileRow>, e: FileRow, keep: FileRow)
    ensures FateOf(names, group, e) == Fold(keep) <==> Matches(names, group, e) == [keep]
    ensures FateOf(names, group, e) == Ambiguous <==> |Matches(names, group, e)| > 1
  {
    hide Matches;
  }

  // --- the loops ---

  ghost predicate Grouped(rows: seq<FileRow>, groups: seq<seq<FileRow>>) {
    && |groups| == |Heads(rows)|
    && forall i :: 0 <= i < |groups| ==> GroupIs(rows, Heads(rows)[i], groups[i])
  }

  ghost predicate GroupIs(rows: seq<FileRow>, head: FileRow, group: seq<FileRow>) {
    group == GroupOf(rows, head) && group != [] && Together(group[0], head)
  }

  lemma GroupAppend(rows: seq<FileRow>, x: FileRow, head: FileRow)
    ensures GroupOf(rows + [x], head) == GroupOf(rows, head) + if Candidate(x) && Together(head, x) then [x] else []
  {
    assert (rows + [x])[..|rows|] == rows;
  }

  lemma HeadsAppend(rows: seq<FileRow>, x: FileRow)
    ensures Heads(rows + [x]) == Heads(rows) + if Candidate(x) &&
      !(exists f :: f in rows && Candidate(f) && Together(f, x)) then [x] else []
  {
    assert (rows + [x])[..|rows|] == rows;
  }

  /** A row that is not a candidate changes no group. */
  lemma SkippedRow(rows: seq<FileRow>, groups: seq<seq<FileRow>>, x: FileRow)
    requires Grouped(rows, groups) && !Candidate(x)
    ensures Grouped(rows + [x], groups)
  {
  }

  /** `i` is the place of the first group that the row belongs to. */
  lemma GroupedRow(rows: seq<FileRow>, groups: seq<seq<FileRow>>, x: FileRow, i: nat)
    requires Grouped(rows, groups) && Candidate(x) && i < |groups| && groups[i] != [] && Together(groups[i][0], x)
    ensures Grouped(rows + [x], groups[i := groups[i] + [x]])
  {
    var heads, after := Heads(rows), groups[i := groups[i] + [x]];
    HeadsAppend(rows, x);
    assert heads[i] in rows && GroupIs(rows, heads[i], groups[i]);
    HeadsRepresent(rows);
    hide Heads, GroupOf;
    assert Candidate(heads[i]) && Together(heads[i], x);
    assert Heads(rows + [x]) == heads;
    forall k | 0 <= k < |groups| ensures GroupIs(rows + [x], heads[k], after[k]) {
      assert GroupIs(rows, heads[k], groups[k]);
      GroupAppend(rows, x, heads[k]);
      if k < i {
        assert !Together(heads[k], heads[i]);
      } else if i < k {
        assert !Together(heads[i], heads[k]);
      }
    }
  }

  lemma NewGroup(rows: seq<FileRow>, groups: seq<seq<FileRow>>, x: FileRow)
    requires Grouped(rows, groups) && Candidate(x)
    requires forall k :: 0 <= k < |groups| ==> groups[k] != [] && !Together(groups[k][0], x)
    ensures Grouped(rows + [x], groups + [[x]])
  {
    var heads, after := Heads(rows), groups + [[x]];
    HeadsAppend(rows, x);
    HeadsRepresent(rows);
    hide Heads, GroupOf;
    forall f | f in rows && Candidate(f) ensures !Together(f, x) {
      assert HasHead(rows, f);
      var k :| 0 <= k < |heads| && Together(heads[k], f);
      assert GroupIs(rows, heads[k], groups[k]);
    }
    assert Heads(rows + [x]) == heads + [x];
    forall k | 0 <= k < |after| ensures GroupIs(rows + [x], (heads + [x])[k], after[k]) {
      if k < |groups| {
        assert GroupIs(rows, heads[k], groups[k]);
        GroupAppend(rows, x, heads[k]);
      } else {
        GroupAppend(rows, x, x);
        NobodyTogether(rows, x);
      }
    }
  }

  lemma {:induction false} NobodyTogether(rows: seq<FileRow>, x: FileRow)
    requires forall f :: f in rows && Candidate(f) ==> !Together(f, x)
    ensures GroupOf(rows, x) == []
  {
    if rows != [] {
      NobodyTogether(rows[..|rows| - 1], x);
    }
  }

  lemma NothingGrouped()
    ensures Grouped([], [])
  {
  }

  method GroupRows(rows: seq<FileRow>) returns (groups: seq<seq<FileRow>>)
    ensures Grouped(rows, groups)
  {
    hide GroupOf, Heads;
    groups := [];
    NothingGrouped();
    for n := 0 to |rows|
      invariant Grouped(rows[..n], groups)
    {
      var row := rows[n];
      assert rows[..n + 1] == rows[..n] + [row];
      assert forall k :: 0 <= k < |groups| ==> GroupIs(rows[..n], Heads(rows[..n])[k], groups[k]);
      if Candidate(row) {
        var i: nat := 0;
        while i < |groups| && !Together(groups[i][0], row)
          invariant i <= |groups|
          invariant forall k :: 0 <= k < i ==> !Together(groups[k][0], row)
        {
          i := i + 1;
        }
        if i < |groups| {
          GroupedRow(rows[..n], groups, row, i);
          groups := groups[i := groups[i] + [row]];
        } else {
          NewGroup(rows[..n], groups, row);
          groups := groups + [[row]];
        }
      } else {
        SkippedRow(rows[..n], groups, row);
      }
    }
    assert rows[..|rows|] == rows;
  }

  method Plan(names: Names, rows: seq<FileRow>) returns (repairs: seq<Repair>, unresolved: seq<FileRow>)
    ensures repairs == PlanRepairs(names, rows, Heads(rows))
    ensures unresolved == PlanUnresolved(names, rows, Heads(rows))
  {
    hide GroupOf, Heads, Repairs, Unresolved, Where;
    var groups := GroupRows(rows);
    repairs, unresolved := [], [];
    ghost var heads := Heads(rows);
    for n := 0 to |groups|
      invariant repairs == PlanRepairs(names, rows, heads[..n])
      invariant unresolved == PlanUnresolved(names, rows, heads[..n])
    {
      assert GroupIs(rows, heads[n], groups[n]);
      assert heads[..n + 1][..n] == heads[..n];
      var more, doubtful := PlanGroup(names, groups[n]);
      repairs, unresolved := repairs + more, unresolved + doubtful;
    }
    assert heads[..|heads|] == heads;
  }

  method PlanGroup(names: Names, group: seq<FileRow>) returns (repairs: seq<Repair>, unresolved: seq<FileRow>)
    ensures repairs == Repairs(names, group, Where(group, IsAlias))
    ensures unresolved == Unresolved(names, group, Where(group, IsAlias))
  {
    hide FateOf, Where;
    var extras := Where(group, IsAlias);
    repairs, unresolved := [], [];
    for n := 0 to |extras|
      invariant repairs == Repairs(names, group, extras[..n])
      invariant unresolved == Unresolved(names, group, extras[..n])
    {
      assert extras[..n + 1][..n] == extras[..n];
      match FateOf(names, group, extras[n]) {
        case Fold(keep) => repairs := repairs + [Repair(keep, extras[n])];
        case Ambiguous => unresolved := unresolved + [extras[n]];
        case Leave =>
      }
    }
    assert extras[..|extras|] == extras;
  }
}
