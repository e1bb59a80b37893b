/**
Drawing the sample (src/oa_knowledge/backfill_mvp.py): the rounds over the special buckets are
fair, and the sample always has exactly the requested size.
*/
module SampleDraw {
  import opened SampleSelection

  function Size(rows: seq<Item>, i: nat): (n: nat)
    requires i < KINDS
  {
    |Of(rows, Priority(i))|
  }

  /** How many rows fall into the first `n` special buckets. */
  function SizesTo(rows: seq<Item>, n: nat): nat
    requires n <= KINDS
  {
    if n == 0 then 0 else SizesTo(rows, n - 1) + Size(rows, n - 1)
  }

  lemma {:induction false} SizesAppend(rows: seq<Item>, x: Item, n: nat)
    requires n <= KINDS
    ensures SizesTo(rows + [x], n) == SizesTo(rows, n) + if Rank(x.bucket) < n then 1 else 0
  {
    if n > 0 {
      hide Rank, Priority, Of;
      SizesAppend(rows, x, n - 1);
      OfAppend(rows, x, Priority(n - 1));
      PriorityHas(n - 1, x.bucket);
      var b := Priority(n - 1);
      assert SizesTo(rows + [x], n) == SizesTo(rows + [x], n - 1) + |Of(rows + [x], b)|;
      assert SizesTo(rows, n) == SizesTo(rows, n - 1) + |Of(rows, b)|;
    }
  }

  /** Every row is in one special bucket or ordinary. */
  lemma {:induction false} BucketsSplit(rows: seq<Item>)
    ensures |rows| == SizesTo(rows, KINDS) + |Of(rows, Ordinary)|
  {
    hide Rank, Priority, SizesTo;
    if rows == [] {
      NothingInBuckets(KINDS);
    } else {
      var init, x := rows[..|rows| - 1], rows[|rows| - 1];
      BucketsSplit(init);
      SizesAppend(init, x, KINDS);
      OfAppend(init, x, Ordinary);
      assert init + [x] == rows;
    }
  }

  lemma {:induction false} NothingInBuckets(n: nat)
    requires n <= KINDS
    ensures SizesTo([], n) == 0
  {
  }

  lemma PriorityHas(i: nat, b: Bucket)
    requires i < KINDS
    ensures Priority(i) == b <==> Rank(b) == i
  {
  }

  lemma {:induction false} SizesCompare(a: seq<Item>, b: seq<Item>, n: nat)
    requires n <= KINDS && forall i :: 0 <= i < n ==> Size(a, i) <= Size(b, i)
    ensures SizesTo(a, n) <= SizesTo(b, n)
    ensures SizesTo(a, n) == SizesTo(b, n) ==> forall i :: 0 <= i < n ==> Size(a, i) == Size(b, i)
  {
    hide Of, Rank, Priority, Size;
    if n > 0 {
      SizesCompare(a, b, n - 1);
    }
  }

  // --- the rounds ---

  function Least(a: nat, b: nat): nat {
    if a < b then a else b
  }

  /**
  The special part holds the first rows of each bucket, as many as allowed, and no bucket that still has rows is
  behind.
  */
  ghost predicate Fair(items: seq<Item>, special: seq<Item>, limit: nat) {
    && |special| == Least(limit, SizesTo(items, KINDS))
    && Of(special, Ordinary) == []
    && (forall i :: 0 <= i < KINDS ==> Of(special, Priority(i)) <= Of(items, Priority(i)))
    && (forall i, j :: 0 <= i < KINDS && 0 <= j < KINDS && Size(special, i) < Size(items, i) ==>
          Size(special, j) <= Size(special, i) + if i < j then 0 else 1)
  }

  /** After `round` whole rounds and `stop` buckets of the next one. */
  ghost predicate Dealt(items: seq<Item>, special: seq<Item>, round: nat, stop: nat) {
    && Of(special, Ordinary) == []
    && forall i :: 0 <= i < KINDS ==> DealtFrom(items, special, round, stop, i)
  }

  ghost predicate DealtFrom(items: seq<Item>, special: seq<Item>, round: nat, stop: nat, i: int)
    requires 0 <= i < KINDS
  {
    Of(special, Priority(i)) == Of(items, Priority(i))[..Least(Size(items, i), round + if i < stop then 1 else 0)]
  }

  lemma DealtIsFair(items: seq<Item>, special: seq<Item>, limit: nat, round: nat, stop: nat)
    requires Dealt(items, special, round, stop)
    requires |special| == limit ||
      (|special| <= limit && stop == 0 && forall i :: 0 <= i < KINDS ==> Size(items, i) <= round)
    ensures Fair(items, special, limit)
  {
    BucketsSplit(special);
    forall i | 0 <= i < KINDS
      ensures Of(special, Priority(i)) <= Of(items, Priority(i))
      ensures Size(special, i) == Least(Size(items, i), round + if i < stop then 1 else 0)
    {
      assert DealtFrom(items, special, round, stop, i);
    }
    SizesCompare(special, items, KINDS);
    if |special| != limit {
      SizesCompare(items, special, KINDS);
    }
  }

  lemma DealOne(items: seq<Item>, special: seq<Item>, round: nat, j: nat)
    requires j < KINDS && Dealt(items, special, round, j) && round < Size(items, j)
    ensures Dealt(items, special + [Of(items, Priority(j))[round]], round, j + 1)
  {
    hide Rank, Priority, Of, DealtFrom;
    var x, next := Of(items, Priority(j))[round], j + 1;
    assert x in Of(items, Priority(j));
    var more := special + [x];
    OfAppend(special, x, Ordinary);
    forall i | 0 <= i < KINDS ensures DealtFrom(items, more, round, next, i) {
      DealtInBucket(items, special, round, j, x, i);
    }
  }

  lemma DealtInBucket(items: seq<Item>, special: seq<Item>, round: nat, j: nat, x: Item, i: nat)
    requires j < KINDS && i < KINDS && round < Size(items, j) && DealtFrom(items, special, round, j, i)
    requires x == Of(items, Priority(j))[round] && x.bucket == Priority(j)
    ensures DealtFrom(items, special + [x], round, j + 1, i)
  {
    hide Rank, Priority, Of;
    OfAppend(special, x, Priority(i));
    PriorityHas(i, x.bucket);
    PriorityHas(j, x.bucket);
    var rows := Of(items, Priority(i));
    if i == j {
      assert rows[..round] + [rows[round]] == rows[..round + 1];
    }
  }

  lemma DealNone(items: seq<Item>, special: seq<Item>, round: nat, j: nat)
    requires j < KINDS && Dealt(items, special, round, j) && round >= Size(items, j)
    ensures Dealt(items, special, round, j + 1)
  {
    var next := j + 1;
    forall i | 0 <= i < KINDS ensures DealtFrom(items, special, round, next, i) {
      assert DealtFrom(items, special, round, j, i);
    }
  }

  lemma NextRound(items: seq<Item>, special: seq<Item>, round: nat)
    requires Dealt(items, special, round, KINDS)
    ensures Dealt(items, special, round + 1, 0)
  {
    var next := round + 1;
    forall i | 0 <= i < KINDS ensures DealtFrom(items, special, next, 0, i) {
      assert DealtFrom(items, special, round, KINDS, i);
    }
  }

  /** Which rows a fair special part holds is settled: two fair parts take as many rows of every bucket. */
  lemma FairIsUnique(items: seq<Item>, a: seq<Item>, b: seq<Item>, limit: nat)
    requires Fair(items, a, limit) && Fair(items, b, limit)
    ensures forall i :: 0 <= i < KINDS ==> Of(a, Priority(i)) == Of(b, Priority(i))
    ensures forall x :: x in a <==> x in b
  {
    BucketsSplit(a);
    BucketsSplit(b);
    if exists i :: 0 <= i < KINDS && Size(a, i) < Size(b, i) {
      Unbalanced(items, a, b, limit);
    } else if exists i :: 0 <= i < KINDS && Size(b, i) < Size(a, i) {
      Unbalanced(items, b, a, limit);
    } else {
      hide Of;
      forall i | 0 <= i < KINDS ensures Of(a, Priority(i)) == Of(b, Priority(i)) {
        assert Size(a, i) == Size(b, i);
      }
      forall x ensures x in a <==> x in b {
        if x.bucket != Ordinary {
          RankIsPlace(x.bucket);
        }
        assert x in a <==> x in Of(a, x.bucket);
        assert x in b <==> x in Of(b, x.bucket);
      }
    }
  }

  lemma Unbalanced(items: seq<Item>, a: seq<Item>, b: seq<Item>, limit: nat)
    requires Fair(items, a, limit) && Fair(items, b, limit)
    ensures !exists i :: 0 <= i < KINDS && Size(a, i) < Size(b, i)
  {
    hide Of, Rank, Priority, Size, Fair;
    SameTotal(items, a, b, limit);
    if exists i :: 0 <= i < KINDS && Size(a, i) < Size(b, i) {
      var i :| 0 <= i < KINDS && Size(a, i) < Size(b, i);
      forall j | 0 <= j < KINDS ensures Size(a, j) <= Size(b, j) {
        NoCrossing(items, a, b, limit, i, j);
      }
      SizesCompare(a, b, KINDS);
    }
  }

  lemma SameTotal(items: seq<Item>, a: seq<Item>, b: seq<Item>, limit: nat)
    requires Fair(items, a, limit) && Fair(items, b, limit)
    ensures SizesTo(a, KINDS) == SizesTo(b, KINDS)
  {
    hide Of, Rank, Priority, SizesTo;
    BucketsSplit(a);
    BucketsSplit(b);
  }

  lemma NoCrossing(items: seq<Item>, a: seq<Item>, b: seq<Item>, limit: nat, i: nat, j: nat)
    requires Fair(items, a, limit) && Fair(items, b, limit) && i < KINDS && j < KINDS
    requires Size(a, i) < Size(b, i)
    ensures Size(a, j) <= Size(b, j)
  {
    hide Of, Rank, Priority, SizesTo;
    assert Of(b, Priority(i)) <= Of(items, Priority(i));
    assert Of(a, Priority(j)) <= Of(items, Priority(j));
  }

  // --- the rest ---

  function Keys(rows: seq<Item>): set<string> {
    set x | x in rows :: x.key
  }

  /** The rows whose key is not chosen yet. */
  function Remaining(rows: seq<Item>, chosen: set<string>): (r: seq<Item>)
    ensures forall x :: x in r <==> x in rows && x.key !in chosen
  {
    if rows == [] then []
    else
      var last := rows[|rows| - 1];
      Remaining(rows[..|rows| - 1], chosen) + if last.key in chosen then [] else [last]
  }

  function RemainingTo(items: seq<Item>, chosen: set<string>, n: nat): (r: seq<Item>)
    requires n <= KINDS
    ensures forall x :: x in r ==> x in items && x.key !in chosen && Rank(x.bucket) < n
  {
    if n == 0 then [] else RemainingTo(items, chosen, n - 1) + Remaining(Of(items, Priority(n - 1)), chosen)
  }

  function Limit(n: nat): nat {
    Least(35, n * 35 / 100)
  }

  /** Everything selected, before sorting. */
  function Drawn(items: seq<Item>, special: seq<Item>, n: nat): (r: seq<Item>)
    ensures |r| <= n || |r| == |EvenlySpaced(Of(items, Ordinary), n - |special|) + special|
  {
    var part := EvenlySpaced(Of(items, Ordinary), n - |special|) + special;
    if |part| < n then
      var rest := RemainingTo(items, Keys(part), KINDS);
      part + rest[..Least(|rest|, n - |part|)]
    else part
  }

  lemma {:induction false} RemainingDistinct(rows: seq<Item>, chosen: set<string>)
    requires DistinctKeys(rows)
    ensures DistinctKeys(Remaining(rows, chosen))
  {
    if rows != [] {
      var init := rows[..|rows| - 1];
      RemainingDistinct(init, chosen);
      forall x | x in Remaining(init, chosen) ensures x.key != rows[|rows| - 1].key {
        var k :| 0 <= k < |init| && init[k] == x;
        assert rows[k] == x;
      }
    }
  }

  /** When the chosen rows of a list are its first `k`, the remaining ones are the others. */
  lemma {:induction false} RemainingCount(rows: seq<Item>, chosen: set<string>, k: nat)
    requires k <= |rows| && forall i :: 0 <= i < |rows| ==> (rows[i].key in chosen <==> i < k)
    ensures |Remaining(rows, chosen)| == |rows| - k
  {
    if rows != [] {
      RemainingCount(rows[..|rows| - 1], chosen, if k == |rows| then k - 1 else k);
    }
  }

  lemma Joined(a: seq<Item>, b: seq<Item>)
    requires DistinctKeys(a) && DistinctKeys(b) && forall x, y :: x in a && y in b ==> x.key != y.key
    ensures DistinctKeys(a + b)
  {
  }

  lemma SameKeySameRow(items: seq<Item>, x: Item, y: Item)
    requires DistinctKeys(items) && x in items && y in items && x.key == y.key
    ensures x == y
  {
    var i :| 0 <= i < |items| && items[i] == x;
    var j :| 0 <= j < |items| && items[j] == y;
  }

  lemma OtherBucketOtherKey(items: seq<Item>, x: Item, y: Item)
    requires DistinctKeys(items) && x in items && y in items && x.bucket != y.bucket
    ensures x.key != y.key
  {
  }

  lemma {:induction false} RemainingToDistinct(items: seq<Item>, chosen: set<string>, n: nat)
    requires n <= KINDS && DistinctKeys(items)
    ensures DistinctKeys(RemainingTo(items, chosen, n))
  {
    hide Of, Rank, Priority, Remaining;
    if n > 0 {
      RemainingToDistinct(items, chosen, n - 1);
      var a, b := RemainingTo(items, chosen, n - 1), Remaining(Of(items, Priority(n - 1)), chosen);
      OfDistinct(items, Priority(n - 1));
      RemainingDistinct(Of(items, Priority(n - 1)), chosen);
      forall x, y | x in a && y in b ensures x.key != y.key {
        OtherBucketOtherKey(items, x, y);
      }
      Joined(a, b);
    }
  }

  /** Special rows are drawn from the items, each once. */
  lemma SpecialRows(items: seq<Item>, special: seq<Item>, limit: nat)
    requires Fair(items, special, limit) && DistinctKeys(items)
    ensures forall x :: x in special ==> x in items && x.bucket != Ordinary
    ensures DistinctKeys(special)
  {
    hide Of, Rank, Priority;
    forall x | x in special ensures x in items && x.bucket != Ordinary {
      assert x in Of(special, x.bucket);
      RankIsPlace(x.bucket);
      assert Of(special, Priority(Rank(x.bucket))) <= Of(items, Priority(Rank(x.bucket)));
      assert x in Of(items, x.bucket);
    }
    forall b ensures DistinctKeys(Of(special, b)) {
      OfDistinct(items, b);
      if b != Ordinary {
        RankIsPlace(b);
        assert Of(special, Priority(Rank(b))) <= Of(items, Priority(Rank(b)));
      }
    }
    MergedDistinct(items, special);
  }

  lemma {:induction false} MergedDistinct(items: seq<Item>, rows: seq<Item>)
    requires DistinctKeys(items) && forall x :: x in rows ==> x in items
    requires forall b :: DistinctKeys(Of(rows, b))
    ensures DistinctKeys(rows)
  {
    if rows != [] {
      var init, x := rows[..|rows| - 1], rows[|rows| - 1];
      assert rows == init + [x];
      forall b ensures DistinctKeys(Of(init, b)) {
        OfAppend(init, x, b);
        assert DistinctKeys(Of(rows, b));
        assert Of(init, b) <= Of(rows, b);
      }
      MergedDistinct(items, init);
      forall y | y in init ensures y.key != x.key {
        if y.key == x.key {
          SameKeySameRow(items, x, y);
          OfAppend(init, x, x.bucket);
          RepeatedLast(Of(init, x.bucket), x);
        }
      }
      Joined(init, [x]);
    }
  }

  lemma RepeatedLast(rows: seq<Item>, x: Item)
    requires DistinctKeys(rows + [x])
    ensures x !in rows
  {
    var more := rows + [x];
    forall i | 0 <= i < |rows| ensures rows[i] != x {
      assert more[i].key != more[|rows|].key;
    }
  }

  /** What a selected prefix of the special buckets leaves over. */
  lemma {:induction false} RemainingToCount(items: seq<Item>, special: seq<Item>, limit: nat, chosen: set<string>,
      n: nat)
    requires n <= KINDS && Fair(items, special, limit) && DistinctKeys(items)
    requires forall x :: x in items && x.bucket != Ordinary ==> (x.key in chosen <==> x in special)
    ensures |RemainingTo(items, chosen, n)| == SizesTo(items, n) - SizesTo(special, n)
  {
    hide Of, Rank, Priority, Fair, DistinctKeys, Remaining;
    if n > 0 {
      RemainingToCount(items, special, limit, chosen, n - 1);
      BucketRemainder(items, special, limit, chosen, n - 1);
    }
  }

  lemma BucketRemainder(items: seq<Item>, special: seq<Item>, limit: nat, chosen: set<string>, n: nat)
    requires n < KINDS && Fair(items, special, limit) && DistinctKeys(items)
    requires forall x :: x in items && x.bucket != Ordinary ==> (x.key in chosen <==> x in special)
    ensures |Remaining(Of(items, Priority(n)), chosen)| == Size(items, n) - Size(special, n)
  {
    var rows, taken := Of(items, Priority(n)), Of(special, Priority(n));
    assert taken <= rows;
    OfDistinct(items, Priority(n));
    hide Of, Rank, Priority, Fair;
    forall i | 0 <= i < |rows| ensures rows[i].key in chosen <==> i < |taken| {
      assert rows[i] in items && rows[i].bucket == Priority(n);
      assert rows[i] in special <==> rows[i] in taken;
      if i < |taken| {
        assert taken[i] == rows[i];
      } else {
        PrefixHasNot(rows, |taken|, i);
      }
    }
    RemainingCount(rows, chosen, |taken|);
  }

  lemma PrefixHasNot(rows: seq<Item>, k: nat, i: nat)
    requires DistinctKeys(rows) && k <= i < |rows|
    ensures rows[i] !in rows[..k]
  {
  }
}
