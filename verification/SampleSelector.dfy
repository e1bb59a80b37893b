/**
The selection itself (src/oa_knowledge/backfill_mvp.py): the loops over rows and buckets, and what
a caller gets.
*/
module SampleSelector {
  import opened Sequences
  import opened Wrappers
  import opened TextOrder
  import opened SampleSelection
  import opened SampleDraw
  import opened SampleSpacing

  // --- sorting by key ---

  function InsertByKey(rows: seq<Item>, x: Item): (r: seq<Item>)
    ensures multiset(r) == multiset(rows) + multiset{x}
  {
    if rows == [] || !Less(x.key, rows[|rows| - 1].key) then rows + [x]
    else
      assert rows == rows[..|rows| - 1] + [rows[|rows| - 1]];
      InsertByKey(rows[..|rows| - 1], x) + [rows[|rows| - 1]]
  }

  function SortByKey(rows: seq<Item>): (r: seq<Item>)
    ensures multiset(r) == multiset(rows)
  {
    if rows == [] then []
    else
      assert rows == rows[..|rows| - 1] + [rows[|rows| - 1]];
      InsertByKey(SortByKey(rows[..|rows| - 1]), rows[|rows| - 1])
  }

  lemma {:induction false} InsertAscends(rows: seq<Item>, x: Item)
    requires Ascending(rows) && forall y :: y in rows ==> y.key != x.key
    ensures Ascending(InsertByKey(rows, x))
  {
    if rows != [] {
      var init, last := rows[..|rows| - 1], rows[|rows| - 1];
      if Less(x.key, last.key) {
        InsertAscends(init, x);
        InsertHas(init, x);
        AscendsBefore(InsertByKey(init, x), last);
      } else {
        LessTotal(x.key, last.key);
        assert last in rows;
        forall y | y in rows ensures Less(y.key, x.key) {
          if y != last {
            LessTransitive(y.key, last.key, x.key);
          }
        }
        AscendsBefore(rows, x);
      }
    }
  }

  lemma {:induction false} InsertHas(rows: seq<Item>, x: Item)
    ensures forall y :: y in InsertByKey(rows, x) <==> y in rows || y == x
  {
    if rows != [] {
      InsertHas(rows[..|rows| - 1], x);
    }
  }

  lemma AscendsBefore(rows: seq<Item>, last: Item)
    requires Ascending(rows) && forall y :: y in rows ==> Less(y.key, last.key)
    ensures Ascending(rows + [last])
  {
  }

  lemma {:induction false} SortAscends(rows: seq<Item>)
    requires DistinctKeys(rows)
    ensures Ascending(SortByKey(rows))
  {
    if rows != [] {
      var init, last := rows[..|rows| - 1], rows[|rows| - 1];
      SortAscends(init);
      var r := SortByKey(init);
      forall y | y in r ensures y.key != last.key {
        assert y in multiset(init);
        var k :| 0 <= k < |init| && init[k] == y;
        assert rows[k] == y;
      }
      InsertAscends(r, last);
    }
  }

  // --- what is drawn ---

  /** The rows selected before the fill. */
  function FirstPart(items: seq<Item>, special: seq<Item>, n: nat): seq<Item> {
    EvenlySpaced(Of(items, Ordinary), n - |special|) + special
  }

  lemma FirstPartSize(items: seq<Item>, special: seq<Item>, n: nat)
    requires Fair(items, special, Limit(n))
    ensures |special| <= Limit(n) <= n
    ensures |FirstPart(items, special, n)| == if |Of(items, Ordinary)| <= n - |special|
      then |Of(items, Ordinary)| + |special| else n
  {
    hide Rank, Priority, SizesTo, Of;
  }

  lemma FirstPartDistinct(items: seq<Item>, special: seq<Item>, n: nat)
    requires DistinctKeys(items) && Fair(items, special, Limit(n))
    ensures DistinctKeys(FirstPart(items, special, n))
    ensures forall x :: x in FirstPart(items, special, n) ==> x in items
  {
    hide EvenlySpaced, Of, Fair, DistinctKeys, Limit, Rank;
    var ordinary := Of(items, Ordinary);
    OfDistinct(items, Ordinary);
    EvenlySpacedDistinct(ordinary, n - |special|);
    SpecialRows(items, special, Limit(n));
    var spaced := EvenlySpaced(ordinary, n - |special|);
    forall x, y | x in spaced && y in special ensures x.key != y.key {
      OtherBucketOtherKey(items, x, y);
    }
    Joined(spaced, special);
  }

  /** Before the fill, the chosen special keys are those of the special part. */
  lemma FirstPartKeys(items: seq<Item>, special: seq<Item>, n: nat)
    requires DistinctKeys(items) && Fair(items, special, Limit(n))
    ensures forall x :: x in items && x.bucket != Ordinary ==>
      (x.key in Keys(FirstPart(items, special, n)) <==> x in special)
  {
    hide Rank, Priority, SizesTo, DistinctKeys, Limit, Of;
    FirstPartDistinct(items, special, n);
    assert Of(special, Ordinary) == [];
    hide Fair;
    var part := FirstPart(items, special, n);
    forall x | x in items && x.bucket != Ordinary ensures x.key in Keys(part) <==> x in special {
      if x in special {
        assert x in part;
      } else if x.key in Keys(part) {
        var y :| y in part && y.key == x.key;
        SameKeySameRow(items, x, y);
      }
    }
  }

  lemma RestIsEnough(items: seq<Item>, special: seq<Item>, n: nat)
    requires DistinctKeys(items) && Fair(items, special, Limit(n)) && |Of(items, Ordinary)| <= n - |special|
    ensures |RemainingTo(items, Keys(FirstPart(items, special, n)), KINDS)| == |items| - |FirstPart(items, special, n)|
  {
    FirstPartKeys(items, special, n);
    FirstPartSize(items, special, n);
    RemainingToCount(items, special, Limit(n), Keys(FirstPart(items, special, n)), KINDS);
    BucketsSplit(items);
    BucketsSplit(special);
  }

  /**
  The selection has exactly the requested size, without repetition, from the given rows; and it goes
  beyond the limit for special rows only when it holds every ordinary row.
  */
  lemma DrawnIsExact(items: seq<Item>, special: seq<Item>, n: nat)
    requires DistinctKeys(items) && Fair(items, special, Limit(n)) && 1 <= n <= |items|
    ensures var r := Drawn(items, special, n);
      && |r| == n && DistinctKeys(r) && (forall x :: x in r ==> x in items)
      && FirstPart(items, special, n) <= r
      && (|Of(items, Ordinary)| <= n - |special| || r == FirstPart(items, special, n))
  {
    hide Fair, DistinctKeys, Limit, Of, RemainingTo, EvenlySpaced, Keys;
    FirstPartDistinct(items, special, n);
    FirstPartSize(items, special, n);
    var part := FirstPart(items, special, n);
    if |Of(items, Ordinary)| <= n - |special| {
      RestIsEnough(items, special, n);
      var rest := RemainingTo(items, Keys(part), KINDS);
      RemainingToDistinct(items, Keys(part), KINDS);
      var taken := rest[..n - |part|];
      PrefixDistinct(rest, n - |part|);
      forall x, y | x in part && y in taken ensures x.key != y.key {
        ChosenKey(part, x);
      }
      Joined(part, taken);
    }
  }

  lemma ChosenKey(rows: seq<Item>, x: Item)
    requires x in rows
    ensures x.key in Keys(rows)
  {
  }

  lemma PrefixDistinct(rows: seq<Item>, k: nat)
    requires DistinctKeys(rows) && k <= |rows|
    ensures DistinctKeys(rows[..k])
  {
  }

  lemma BeyondLimitMeansAllOrdinary(items: seq<Item>, special: seq<Item>, n: nat)
    requires DistinctKeys(items) && Fair(items, special, Limit(n)) && 1 <= n <= |items|
    ensures var r := Drawn(items, special, n);
      |r| - |Of(r, Ordinary)| > Limit(n) ==> forall x :: x in items && x.bucket == Ordinary ==> x in r
  {
    hide Fair, DistinctKeys, Limit, RemainingTo, Keys, Rank, Priority, SizesTo;
    DrawnIsExact(items, special, n);
    FirstPartSize(items, special, n);
    var ordinary := Of(items, Ordinary);
    var spaced := EvenlySpaced(ordinary, n - |special|);
    if |ordinary| <= n - |special| {
      assert spaced == ordinary;
      assert forall x :: x in ordinary ==> x in FirstPart(items, special, n);
    } else {
      OrdinaryOf(spaced, special);
    }
  }

  lemma OrdinaryOf(spaced: seq<Item>, special: seq<Item>)
    requires forall x :: x in spaced ==> x.bucket == Ordinary
    ensures |Of(spaced + special, Ordinary)| >= |spaced|
  {
    OfConcat(spaced, special, Ordinary);
    OfAll(spaced, Ordinary);
  }

  lemma {:induction false} OfConcat(a: seq<Item>, c: seq<Item>, b: Bucket)
    ensures Of(a + c, b) == Of(a, b) + Of(c, b)
    decreases |c|
  {
    hide Of;
    if c == [] {
      assert a + c == a;
      NothingOf();
    } else {
      var init, x := c[..|c| - 1], c[|c| - 1];
      var one := if x.bucket == b then [x] else [];
      OfConcat(a, init, b);
      OfAppend(a + init, x, b);
      OfAppend(init, x, b);
      Associate(a, init, [x]);
      Associate(Of(a, b), Of(init, b), one);
      assert c == init + [x];
    }
  }

  lemma {:induction false} OfAll(rows: seq<Item>, b: Bucket)
    requires forall x :: x in rows ==> x.bucket == b
    ensures Of(rows, b) == rows
  {
    hide Of;
    if rows == [] {
      NothingOf();
    } else {
      var init, x := rows[..|rows| - 1], rows[|rows| - 1];
      OfAll(init, b);
      OfAppend(init, x, b);
      assert init + [x] == rows;
    }
  }

  // --- the loops ---

  /** Rounds over the buckets in priority order until the limit is reached or a round adds nothing. */
  method RoundRobin(ghost items: seq<Item>, buckets: seq<seq<Item>>, limit: nat) returns (special: seq<Item>)
    requires |buckets| == KINDS && forall i :: 0 <= i < KINDS ==> buckets[i] == Of(items, Priority(i))
    ensures Fair(items, special, limit)
  {
    hide Rank, Priority, Of, DealtFrom, Fair;
    special := [];
    var round: nat := 0;
    ghost var stop: nat := 0;
    NothingDealt(items);
    while |special| < limit
      invariant |special| <= limit && stop <= KINDS
      invariant Dealt(items, special, round, stop)
      invariant |special| < limit ==> stop == 0
      decreases limit - |special|
    {
      var added := false;
      ghost var start := |special|;
      for j := 0 to KINDS
        invariant start <= |special| <= limit && stop <= j && (|special| < limit ==> stop == j)
        invariant added == (|special| > start)
        invariant Dealt(items, special, round, stop)
        invariant !added ==> forall i :: 0 <= i < j ==> |buckets[i]| <= round
      {
        if round < |buckets[j]| && |special| < limit {
          DealOne(items, special, round, j);
          special := special + [buckets[j][round]];
          added := true;
          stop := j + 1;
        } else if |special| < limit {
          DealNone(items, special, round, j);
          stop := j + 1;
        }
      }
      if !added {
        NextRound(items, special, round);
        DealtIsFair(items, special, limit, round + 1, 0);
        return;
      }
      if |special| < limit {
        NextRound(items, special, round);
        round, stop := round + 1, 0;
      }
    }
    DealtIsFair(items, special, limit, round, stop);
  }

  lemma NothingDealt(items: seq<Item>)
    ensures Dealt(items, [], 0, 0)
  {
    forall i | 0 <= i < KINDS ensures DealtFrom(items, [], 0, 0, i) {
    }
  }

  /** The rows of every special bucket and the ordinary ones, in the order of the keys. */
  method Classify(targets: seq<Target>) returns (buckets: seq<seq<Item>>, ordinary: seq<Item>)
    ensures |buckets| == KINDS && forall i :: 0 <= i < KINDS ==> buckets[i] == Of(Items(targets), Priority(i))
    ensures ordinary == Of(Items(targets), Ordinary)
  {
    hide Rank, Priority, Of, BucketOf;
    buckets := seq(KINDS, i => []);
    ordinary := [];
    NothingOf();
    for n := 0 to |targets|
      invariant |buckets| == KINDS
      invariant forall i :: 0 <= i < KINDS ==> buckets[i] == Of(Items(targets[..n]), Priority(i))
      invariant ordinary == Of(Items(targets[..n]), Ordinary)
    {
      var bucket := BucketOf(targets[n]);
      var sample := Item(targets[n].key, bucket);
      ItemsAppend(targets, n);
      ghost var sofar := Items(targets[..n]);
      forall b ensures Of(sofar + [sample], b) == Of(sofar, b) + if bucket == b then [sample] else [] {
        OfAppend(sofar, sample, b);
      }
      if bucket == Ordinary {
        ordinary := ordinary + [sample];
      } else {
        RankIsPlace(bucket);
        buckets := buckets[Rank(bucket) := buckets[Rank(bucket)] + [sample]];
      }
    }
    assert targets[..|targets|] == targets;
  }

  lemma NothingOf()
    ensures forall b :: Of([], b) == []
  {
  }

  lemma ItemsAppend(targets: seq<Target>, n: nat)
    requires n < |targets|
    ensures Items(targets[..n + 1]) == Items(targets[..n]) + [Item(targets[n].key, BucketOf(targets[n]))]
  {
    assert targets[..n + 1][..n] == targets[..n];
  }

  /** Special rows that were not chosen, bucket after bucket. */
  method FillRows(buckets: seq<seq<Item>>, ghost items: seq<Item>, selected: seq<Item>) returns (rest: seq<Item>)
    requires |buckets| == KINDS && forall i :: 0 <= i < KINDS ==> buckets[i] == Of(items, Priority(i))
    ensures rest == RemainingTo(items, Keys(selected), KINDS)
  {
    hide Rank, Priority, Of;
    var chosen := set x | x in selected :: x.key;
    assert chosen == Keys(selected);
    rest := [];
    for i := 0 to KINDS
      invariant rest == RemainingTo(items, chosen, i)
    {
      var more := FillFrom(buckets[i], chosen);
      rest := rest + more;
    }
  }

  method FillFrom(rows: seq<Item>, chosen: set<string>) returns (rest: seq<Item>)
    ensures rest == Remaining(rows, chosen)
  {
    rest := [];
    for k := 0 to |rows|
      invariant rest == Remaining(rows[..k], chosen)
    {
      assert rows[..k + 1][..k] == rows[..k];
      if rows[k].key !in chosen {
        rest := rest + [rows[k]];
      }
    }
    assert rows[..|rows|] == rows;
  }

  /**
  When there are more ordinary rows than are needed beside the special part, the sample holds as many of
  them at even places, and no special row but that part. Otherwise it holds them all, and special rows
  fill up the rest: none is left out that precedes one taken for that.
  */
  ghost predicate SpacedOrFilled(items: seq<Item>, n: nat, special: seq<Item>, r: seq<Item>) {
    var ordinary := Of(items, Ordinary);
    if |ordinary| > n - |special| then
      && |Of(r, Ordinary)| == n - |special| && EvenlyChosen(ordinary, Of(r, Ordinary))
      && (forall x :: x in r && x.bucket != Ordinary <==> x in special)
    else
      && (forall x :: x in ordinary || x in special ==> x in r)
      && (forall x, y :: x in r && x !in ordinary && x !in special && y in items && y !in r ==> Precedes(x, y))
  }

  lemma DrawnIsSpacedOrFilled(items: seq<Item>, special: seq<Item>, n: nat, r: seq<Item>)
    requires Ascending(items) && Fair(items, special, Limit(n)) && 1 <= n <= |items|
    requires Ascending(r) && forall x :: x in r <==> x in Drawn(items, special, n)
    ensures SpacedOrFilled(items, n, special, r)
  {
    hide *;
    if |Of(items, Ordinary)| > n - |special| {
      SpacedSide(items, special, n, r);
    } else {
      FilledSide(items, special, n, r);
    }
  }

  lemma SpacedSide(items: seq<Item>, special: seq<Item>, n: nat, r: seq<Item>)
    requires Ascending(items) && Fair(items, special, Limit(n)) && 1 <= n <= |items|
    requires Ascending(r) && forall x :: x in r <==> x in Drawn(items, special, n)
    requires |Of(items, Ordinary)| > n - |special|
    ensures SpacedOrFilled(items, n, special, r)
  {
    hide *;
    DrawnParts(items, special, n);
    SpacedRows(items, special, n - |special|, r);
    SpacedCase(items, n, special, r);
  }

  lemma FilledSide(items: seq<Item>, special: seq<Item>, n: nat, r: seq<Item>)
    requires Ascending(items) && Fair(items, special, Limit(n)) && 1 <= n <= |items|
    requires forall x :: x in r <==> x in Drawn(items, special, n)
    requires |Of(items, Ordinary)| <= n - |special|
    ensures SpacedOrFilled(items, n, special, r)
  {
    hide *;
    DrawnParts(items, special, n);
    var ordinary := Of(items, Ordinary);
    PrefixHas(ordinary, special, Drawn(items, special, n));
    forall x, y | x in r && x !in ordinary && x !in special && y in items && y !in r ensures Precedes(x, y) {
      FilledInOrder(items, special, n, x, y);
    }
    FilledCase(items, n, special, r);
  }

  lemma SpacedCase(items: seq<Item>, n: nat, special: seq<Item>, r: seq<Item>)
    requires |Of(items, Ordinary)| > n - |special|
    requires |Of(r, Ordinary)| == n - |special| && EvenlyChosen(Of(items, Ordinary), Of(r, Ordinary))
    requires forall x :: x in r && x.bucket != Ordinary <==> x in special
    ensures SpacedOrFilled(items, n, special, r)
  {
    hide EvenlyChosen, Of;
  }

  lemma FilledCase(items: seq<Item>, n: nat, special: seq<Item>, r: seq<Item>)
    requires |Of(items, Ordinary)| <= n - |special|
    requires forall x :: x in Of(items, Ordinary) || x in special ==> x in r
    requires forall x, y :: x in r && x !in Of(items, Ordinary) && x !in special && y in items && y !in r ==>
      Precedes(x, y)
    ensures SpacedOrFilled(items, n, special, r)
  {
    hide Precedes, Of;
  }

  lemma PrefixHas(a: seq<Item>, b: seq<Item>, rows: seq<Item>)
    requires a + b <= rows
    ensures forall x :: x in a || x in b ==> x in rows
  {
    assert rows == a + b + rows[|a + b|..];
  }

  lemma DrawnParts(items: seq<Item>, special: seq<Item>, n: nat)
    requires Ascending(items) && Fair(items, special, Limit(n)) && 1 <= n <= |items|
    ensures |special| <= n && forall x :: x in special ==> x.bucket != Ordinary
    ensures |Of(items, Ordinary)| > n - |special| ==>
      Drawn(items, special, n) == EvenlySpaced(Of(items, Ordinary), n - |special|) + special
    ensures |Of(items, Ordinary)| <= n - |special| ==>
      FirstPart(items, special, n) == Of(items, Ordinary) + special &&
        FirstPart(items, special, n) <= Drawn(items, special, n)
  {
    AscendingIsDistinct(items);
    DrawnIsExact(items, special, n);
    FirstPartSize(items, special, n);
    assert Of(special, Ordinary) == [];
    hide Fair, Drawn, Limit, Ascending, DistinctKeys, Of;
  }

  lemma SpacedRows(items: seq<Item>, special: seq<Item>, count: nat, r: seq<Item>)
    requires Ascending(items) && Ascending(r) && count < |Of(items, Ordinary)|
    requires forall x :: x in special ==> x.bucket != Ordinary
    requires forall x :: x in r <==> x in EvenlySpaced(Of(items, Ordinary), count) + special
    ensures |Of(r, Ordinary)| == count && EvenlyChosen(Of(items, Ordinary), Of(r, Ordinary))
    ensures forall x :: x in r && x.bucket != Ordinary <==> x in special
  {
    hide Ascending, Of, EvenlySpaced;
    var ordinary := Of(items, Ordinary);
    var spaced := EvenlySpaced(ordinary, count);
    assert forall x :: x in spaced ==> x in ordinary && x.bucket == Ordinary;
    OfAscends(items, Ordinary);
    OfAscends(r, Ordinary);
    EvenlySpacedAscends(ordinary, count);
    AscendingIsUnique(Of(r, Ordinary), spaced);
    EvenlySpacedIsEven(ordinary, count);
  }

  /** What is drawn when all ordinary rows are: these, the special part, and the first of what remains. */
  lemma FillIs(items: seq<Item>, special: seq<Item>, n: nat) returns (rest: seq<Item>, k: nat)
    requires Ascending(items) && Fair(items, special, Limit(n)) && |Of(items, Ordinary)| <= n - |special|
    ensures k <= |rest| && InOrder(rest)
    ensures Drawn(items, special, n) == Of(items, Ordinary) + special + rest[..k]
    ensures forall x :: x in items && x.bucket != Ordinary && x !in special ==> x in rest
  {
    AscendingIsDistinct(items);
    FirstPartSize(items, special, n);
    FirstPartKeys(items, special, n);
    hide Fair, Ascending, DistinctKeys, Of, Keys, RemainingTo, Limit, InOrder;
    var part := FirstPart(items, special, n);
    rest := RemainingTo(items, Keys(part), KINDS);
    RemainingInOrder(items, Keys(part), KINDS);
    k := if |part| < n then Least(|rest|, n - |part|) else 0;
  }

  lemma FilledInOrder(items: seq<Item>, special: seq<Item>, n: nat, x: Item, y: Item)
    requires Ascending(items) && Fair(items, special, Limit(n)) && |Of(items, Ordinary)| <= n - |special|
    requires x in Drawn(items, special, n) && x !in Of(items, Ordinary) && x !in special
    requires y in items && y !in Drawn(items, special, n)
    ensures Precedes(x, y)
  {
    var rest, k := FillIs(items, special, n);
    hide Fair, Ascending, Limit, Precedes, Drawn, InOrder;
    assert y !in Of(items, Ordinary) && y !in special;
    PrefixPrecedes(rest, k, x, y);
  }

  lemma PrefixPrecedes(rest: seq<Item>, k: nat, x: Item, y: Item)
    requires k <= |rest| && InOrder(rest) && x in rest[..k] && y in rest && y !in rest[..k]
    ensures Precedes(x, y)
  {
    hide Precedes;
    var i :| 0 <= i < k && rest[..k][i] == x;
    var j :| 0 <= j < |rest| && rest[j] == y;
    assert forall a :: 0 <= a < k ==> rest[a] == rest[..k][a];
  }

  /** What a caller is promised about the sample of a list of rows. */
  ghost predicate Representative(items: seq<Item>, n: nat, special: seq<Item>, r: seq<Item>) {
    && Fair(items, special, Limit(n))
    && |r| == n && Ascending(r)
    && multiset(r) == multiset(Drawn(items, special, n))
    && (forall x :: x in r ==> x in items)
    && SpacedOrFilled(items, n, special, r)
  }

  ghost predicate IsRepresentative(items: seq<Item>, n: nat, r: seq<Item>) {
    exists special :: Representative(items, n, special, r)
  }

  predicate KeysAscend(targets: seq<Target>) {
    forall i, j :: 0 <= i < j < |targets| ==> Less(targets[i].key, targets[j].key)
  }

  lemma ItemsAscend(targets: seq<Target>)
    requires KeysAscend(targets)
    ensures Ascending(Items(targets))
  {
    hide Items, BucketOf;
  }

  method SelectRepresentativeItems(targets: seq<Target>, sampleSize: int) returns (r: Result<seq<Item>, SampleError>)
    requires KeysAscend(targets)
    ensures sampleSize < 1 ==> r == Failure(NotPositive)
    ensures sampleSize > |targets| && sampleSize >= 1 ==> r == Failure(ExceedsTargets)
    ensures 1 <= sampleSize <= |targets| ==> r.Success? && IsRepresentative(Items(targets), sampleSize, r.value)
  {
    hide *;
    if sampleSize < 1 {
      return Failure(NotPositive);
    }
    if sampleSize > |targets| {
      return Failure(ExceedsTargets);
    }
    ghost var items := Items(targets);
    ItemsAscend(targets);
    var buckets, ordinary := Classify(targets);
    var limit := Least(35, sampleSize * 35 / 100);
    LimitIs(sampleSize);
    var drawn := RoundRobin(items, buckets, limit);
    var selected := Select(items, buckets, ordinary, drawn, sampleSize);
    SelectedHasSize(items, drawn, sampleSize);
    if |selected| != sampleSize {
      return Failure(NotEnough);
    }
    SortedIsRepresentative(items, drawn, sampleSize);
    assert IsRepresentative(items, sampleSize, SortByKey(selected)) by {
      Named(items, sampleSize, drawn, SortByKey(selected));
    }
    r := Success(SortByKey(selected));
  }

  lemma Named(items: seq<Item>, n: nat, special: seq<Item>, r: seq<Item>)
    requires Representative(items, n, special, r)
    ensures IsRepresentative(items, n, r)
  {
  }

  /** Even ordinary rows, the special part, and more special rows if these are too few. */
  method Select(ghost items: seq<Item>, buckets: seq<seq<Item>>, ordinary: seq<Item>, special: seq<Item>, n: nat)
      returns (selected: seq<Item>)
    requires |buckets| == KINDS && forall i :: 0 <= i < KINDS ==> buckets[i] == Of(items, Priority(i))
    requires ordinary == Of(items, Ordinary)
    ensures selected == Drawn(items, special, n)
  {
    hide Of, Rank, Priority, EvenlySpaced, RemainingTo, Keys;
    selected := EvenlySpaced(ordinary, n - |special|) + special;
    if |selected| < n {
      var remaining := FillRows(buckets, items, selected);
      selected := selected + remaining[..Least(|remaining|, n - |selected|)];
    }
  }

  lemma SelectedHasSize(items: seq<Item>, special: seq<Item>, n: nat)
    requires Ascending(items) && Fair(items, special, Limit(n)) && 1 <= n <= |items|
    ensures |Drawn(items, special, n)| == n
  {
    hide *;
    AscendingIsDistinct(items);
    DrawnIsExact(items, special, n);
  }

  lemma SortedIsRepresentative(items: seq<Item>, special: seq<Item>, n: nat)
    requires Ascending(items) && Fair(items, special, Limit(n)) && 1 <= n <= |items|
    ensures Representative(items, n, special, SortByKey(Drawn(items, special, n)))
  {
    hide Ascending, Fair, DistinctKeys, Drawn, SortByKey, Limit, FirstPart, Of;
    var selected := Drawn(items, special, n);
    AscendingIsDistinct(items);
    DrawnIsExact(items, special, n);
    SortAscends(selected);
    SortKeeps(selected);
    DrawnIsSpacedOrFilled(items, special, n, SortByKey(selected));
    hide SpacedOrFilled;
  }

  lemma LimitIs(n: nat)
    ensures Limit(n) == Least(35, n * 35 / 100)
  {
  }

  lemma SortKeeps(rows: seq<Item>)
    ensures |SortByKey(rows)| == |rows| && forall x :: x in SortByKey(rows) <==> x in rows
  {
    var r := SortByKey(rows);
    assert |multiset(r)| == |multiset(rows)|;
    forall x ensures x in r <==> x in rows {
      assert x in multiset(r) <==> x in multiset(rows);
    }
  }
}
