/**
Which duplicate attachment records are folded into which (tools/repair_attachment_duplicates.py, plan).

When two display names mean one attachment is given: `same` compares names, `identity` is the
name without decoration.
*/
module DuplicatePlan {
  import opened Wrappers

  datatype FileRow = FileRow(
    id: nat, item: nat, parent: Option<nat>, name: string, relpath: string,
    size: Option<int>, sha: Option<string>, key: string, role: string, container: string, verified: bool)

  datatype Repair = Repair(keep: FileRow, extra: FileRow)

  datatype Names = Names(same: (string, string) -> bool, identity: string -> string)

  predicate Alias(key: string) {
    "cap4-widget:" <= key || "cap4:" <= key
  }

  predicate Candidate(f: FileRow) {
    f.verified && f.sha.Some?
  }

  /** Same item, same container, same bytes. */
  predicate Together(a: FileRow, b: FileRow) {
    a.item == b.item && a.container == b.container && a.sha == b.sha && a.size == b.size
  }

  predicate DistinctIds(rows: seq<FileRow>) {
    forall i, j :: 0 <= i < j < |rows| ==> rows[i].id != rows[j].id
  }

  /** The rows of a list that satisfy a test, in order. */
  function Where(rows: seq<FileRow>, p: FileRow -> bool): (r: seq<FileRow>)
    ensures forall x :: x in r <==> x in rows && p(x)
    ensures |r| <= |rows|
  {
    if rows == [] then []
    else Where(rows[..|rows| - 1], p) + if p(rows[|rows| - 1]) then [rows[|rows| - 1]] else []
  }

  function InGroup(x: FileRow): FileRow -> bool {
    (f: FileRow) => Candidate(f) && Together(x, f)
  }

  predicate IsAlias(f: FileRow) {
    Alias(f.key)
  }

  function Named(names: Names, extra: FileRow): FileRow -> bool {
    (f: FileRow) => !Alias(f.key) && names.same(f.name, extra.name)
  }

  function NamedExactly(names: Names, extra: FileRow): FileRow -> bool {
    (f: FileRow) => names.identity(f.name) == names.identity(extra.name)
  }

  function GroupOf(rows: seq<FileRow>, x: FileRow): seq<FileRow> {
    Where(rows, InGroup(x))
  }

  /**
  The real attachments an alias may stand for: those of its group with the same name, or, if there are any, with
  exactly its name.
  */
  function Matches(names: Names, group: seq<FileRow>, extra: FileRow): seq<FileRow> {
    var matches := Where(group, Named(names, extra));
    var exact := Where(matches, NamedExactly(names, extra));
    if exact != [] then exact else matches
  }

  /** What becomes of one alias. */
  datatype Fate = Leave | Fold(keep: FileRow) | Ambiguous

  function FateOf(names: Names, group: seq<FileRow>, extra: FileRow): Fate {
    var m := Matches(names, group, extra);
    if |m| == 1 then Fold(m[0]) else if m != [] then Ambiguous else Leave
  }

  function Repairs(names: Names, group: seq<FileRow>, extras: seq<FileRow>): seq<Repair> {
    if extras == [] then []
    else
      var e := extras[|extras| - 1];
      var fate := FateOf(names, group, e);
      Repairs(names, group, extras[..|extras| - 1]) + if fate.Fold? then [Repair(fate.keep, e)] else []
  }

  function Unresolved(names: Names, group: seq<FileRow>, extras: seq<FileRow>): seq<FileRow> {
    if extras == [] then []
    else
      var e := extras[|extras| - 1];
      Unresolved(names, group, extras[..|extras| - 1]) + if FateOf(names, group, e).Ambiguous? then [e] else []
  }

  // --- the groups ---

  /** One member of each group, in order of appearance. */
  function Heads(rows: seq<FileRow>): (r: seq<FileRow>)
    ensures forall x :: x in r ==> x in rows && Candidate(x)
  {
    if rows == [] then []
    else
      var init, last := rows[..|rows| - 1], rows[|rows| - 1];
      Heads(init) + if Candidate(last) && !(exists f :: f in init && Candidate(f) && Together(f, last)) then [last]
        else []
  }

  lemma {:induction false} HeadsRepresent(rows: seq<FileRow>)
    ensures forall f :: f in rows && Candidate(f) ==> HasHead(rows, f)
    ensures forall i, j :: 0 <= i < j < |Heads(rows)| ==> !Together(Heads(rows)[i], Heads(rows)[j])
  {
    if rows != [] {
      var init, last := rows[..|rows| - 1], rows[|rows| - 1];
      HeadsRepresent(init);
      assert Heads(init) <= Heads(rows);
      forall f | f in rows && Candidate(f) ensures HasHead(rows, f) {
        if f in init {
          HeadKept(init, rows, f, f);
        } else if exists g :: g in init && Candidate(g) && Together(g, last) {
          var g :| g in init && Candidate(g) && Together(g, last);
          HeadKept(init, rows, g, f);
        } else {
          assert Heads(rows)[|Heads(rows)| - 1] == f;
        }
      }
    }
  }

  ghost predicate HasHead(rows: seq<FileRow>, f: FileRow) {
    exists i :: 0 <= i < |Heads(rows)| && Together(Heads(rows)[i], f)
  }

  lemma HeadKept(init: seq<FileRow>, rows: seq<FileRow>, g: FileRow, f: FileRow)
    requires HasHead(init, g) && Heads(init) <= Heads(rows) && Together(g, f)
    ensures HasHead(rows, f)
  {
  }

  function PlanRepairs(names: Names, rows: seq<FileRow>, heads: seq<FileRow>): seq<Repair> {
    if heads == [] then []
    else
      var group := GroupOf(rows, heads[|heads| - 1]);
      PlanRepairs(names, rows, heads[..|heads| - 1]) + Repairs(names, group, Where(group, IsAlias))
  }

  // --- what a plan promises ---

  /**
  A fold that is justified: both records verified, of one item and container and the same bytes; an alias goes
  into a real attachment.
  */
  ghost predicate Sound(rows: seq<FileRow>, r: Repair) {
    && r.keep in rows && r.extra in rows && Candidate(r.keep) && Candidate(r.extra)
    && Together(r.keep, r.extra) && !Alias(r.keep.key) && Alias(r.extra.key)
  }

  ghost predicate DistinctExtras(repairs: seq<Repair>) {
    forall i, j :: 0 <= i < j < |repairs| ==> repairs[i].extra.id != repairs[j].extra.id
  }

  lemma {:induction false} RepairsSound(names: Names, rows: seq<FileRow>, x: FileRow, extras: seq<FileRow>)
    requires forall e :: e in extras ==> e in GroupOf(rows, x) && Alias(e.key)
    ensures forall r :: r in Repairs(names, GroupOf(rows, x), extras) ==>
      Sound(rows, r) && r.extra in extras && Together(x, r.extra)
  {
    hide FateOf, GroupOf, Alias, Candidate, Together;
    if extras != [] {
      RepairsSound(names, rows, x, extras[..|extras| - 1]);
      var e := extras[|extras| - 1];
      assert e in extras;
      MatchIsReal(names, rows, x, e);
      hide FateOf, GroupOf;
    }
  }

  lemma MatchIsReal(names: Names, rows: seq<FileRow>, x: FileRow, e: FileRow)
    requires e in GroupOf(rows, x) && Alias(e.key)
    ensures var fate := FateOf(names, GroupOf(rows, x), e);
      fate.Fold? ==> Sound(rows, Repair(fate.keep, e)) && Together(x, e)
  {
  }

  lemma {:induction false} RepairsAreExtras(names: Names, group: seq<FileRow>, extras: seq<FileRow>)
    ensures forall r :: r in Repairs(names, group, extras) ==> r.extra in extras
  {
    hide FateOf;
    if extras != [] {
      RepairsAreExtras(names, group, extras[..|extras| - 1]);
    }
  }

  lemma {:induction false} RepairsDistinct(names: Names, group: seq<FileRow>, extras: seq<FileRow>)
    requires DistinctIds(extras)
    ensures DistinctExtras(Repairs(names, group, extras))
  {
    hide FateOf;
    if extras != [] {
      var init, e := extras[..|extras| - 1], extras[|extras| - 1];
      assert DistinctIds(init);
      RepairsDistinct(names, group, init);
      RepairsAreExtras(names, group, init);
      var before, fate := Repairs(names, group, init), FateOf(names, group, e);
      assert Repairs(names, group, extras) == before + if fate.Fold? then [Repair(fate.keep, e)] else [];
      hide Repairs, DistinctExtras;
      forall r | r in before ensures r.extra.id != e.id {
        IdApart(init, e, r.extra, extras);
      }
      if fate.Fold? {
        OneExtra(Repair(fate.keep, e));
        JoinExtras(before, [Repair(fate.keep, e)]);
      } else {
        assert Repairs(names, group, extras) == before;
      }
    }
  }

  lemma OneExtra(r: Repair)
    ensures DistinctExtras([r])
  {
  }

  lemma IdApart(init: seq<FileRow>, e: FileRow, x: FileRow, rows: seq<FileRow>)
    requires rows == init + [e] && DistinctIds(rows) && x in init
    ensures x.id != e.id
  {
    var k :| 0 <= k < |init| && init[k] == x;
    assert rows[k] == x && rows[|init|] == e;
  }

  lemma {:induction false} WhereDistinct(rows: seq<FileRow>, p: FileRow -> bool)
    requires DistinctIds(rows)
    ensures DistinctIds(Where(rows, p))
  {
    if rows != [] {
      var init, last := rows[..|rows| - 1], rows[|rows| - 1];
      WhereDistinct(init, p);
      forall x | x in Where(init, p) ensures x.id != last.id {
        IdApart(init, last, x, rows);
      }
      LastDistinct(Where(init, p), last);
      assert Where(rows, p) == if p(last) then Where(init, p) + [last] else Where(init, p);
    } else {
      assert Where(rows, p) == [];
    }
  }

  lemma LastDistinct(rows: seq<FileRow>, last: FileRow)
    requires DistinctIds(rows) && forall x :: x in rows ==> x.id != last.id
    ensures DistinctIds(rows + [last])
  {
  }

  /** The extras of a group: its aliases, each once. */
  lemma ExtrasOfGroup(rows: seq<FileRow>, x: FileRow) returns (extras: seq<FileRow>)
    requires DistinctIds(rows)
    ensures extras == Where(GroupOf(rows, x), IsAlias)
    ensures DistinctIds(extras)
    ensures forall e :: e in extras <==> e in rows && Candidate(e) && Together(x, e) && Alias(e.key)
    ensures forall e :: e in extras ==> e in GroupOf(rows, x)
  {
    extras := Where(GroupOf(rows, x), IsAlias);
    WhereDistinct(rows, InGroup(x));
    WhereDistinct(GroupOf(rows, x), IsAlias);
  }

  lemma JoinExtras(a: seq<Repair>, b: seq<Repair>)
    requires DistinctExtras(a) && DistinctExtras(b)
    requires forall x, y :: x in a && y in b ==> x.extra.id != y.extra.id
    ensures DistinctExtras(a + b)
  {
  }

  /** Every planned fold is sound, and no record is folded twice. */
  lemma {:induction false} PlanIsSound(names: Names, rows: seq<FileRow>, n: nat)
    requires DistinctIds(rows) && n <= |Heads(rows)|
    ensures var repairs := PlanRepairs(names, rows, Heads(rows)[..n]);
      && (forall r :: r in repairs ==> Sound(rows, r) && exists i :: 0 <= i < n && Together(Heads(rows)[i], r.extra))
      && DistinctExtras(repairs)
  {
    hide Sound, GroupOf, Repairs, Where, DistinctExtras, DistinctIds, Heads;
    if n == 0 {
      NoRepairs();
    } else {
      PlanIsSound(names, rows, n - 1);
      var head := Heads(rows)[n - 1];
      var before := PlanRepairs(names, rows, Heads(rows)[..n - 1]);
      assert Heads(rows)[..n][..n - 1] == Heads(rows)[..n - 1];
      var extras := ExtrasOfGroup(rows, head);
      RepairsSound(names, rows, head, extras);
      RepairsDistinct(names, GroupOf(rows, head), extras);
      RepairsAreExtras(names, GroupOf(rows, head), extras);
      var more := Repairs(names, GroupOf(rows, head), extras);
      forall x, y | x in before && y in more ensures x.extra.id != y.extra.id {
        OtherGroup(rows, n - 1, x, y);
      }
      JoinExtras(before, more);
    }
  }

  lemma NoRepairs()
    ensures DistinctExtras([])
  {
  }

  lemma OtherGroup(rows: seq<FileRow>, n: nat, x: Repair, y: Repair)
    requires DistinctIds(rows) && n < |Heads(rows)| && Sound(rows, x) && Sound(rows, y)
    requires Together(Heads(rows)[n], y.extra) && exists i :: 0 <= i < n && Together(Heads(rows)[i], x.extra)
    ensures x.extra.id != y.extra.id
  {
    HeadsRepresent(rows);
    hide Heads;
    var i :| 0 <= i < n && Together(Heads(rows)[i], x.extra);
    assert !Together(Heads(rows)[i], Heads(rows)[n]);
    if x.extra.id == y.extra.id {
      SameRow(rows, x.extra, y.extra);
    }
  }

  lemma SameRow(rows: seq<FileRow>, x: FileRow, y: FileRow)
    requires DistinctIds(rows) && x in rows && y in rows && x.id == y.id
    ensures x == y
  {
    var i :| 0 <= i < |rows| && rows[i] == x;
    var j :| 0 <= j < |rows| && rows[j] == y;
  }
}
