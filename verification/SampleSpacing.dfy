/**
What the sample looks like in the list it is drawn from (src/oa_knowledge/backfill_mvp.py): where the
ordinary rows stand, and in which order special rows fill up what is missing.
*/
module SampleSpacing {
  import opened TextOrder
  import opened SampleSelection
  import opened SampleDraw

  /** Steps of `n` rows divided into `c` parts: the floor or, if they do not divide evenly, the ceiling of the mean. */
  predicate EvenStep(n: nat, c: nat, gap: int)
    requires c > 0
  {
    gap == n / c || (n % c != 0 && gap == n / c + 1)
  }

  /** The chosen rows stand at these places: the first row, even steps, each the last one within its share. */
  ghost predicate EvenPlaces(rows: seq<Item>, chosen: seq<Item>, places: seq<nat>)
    requires |chosen| > 0
  {
    var n, c := |rows|, |chosen|;
    && |places| == c && places[0] == 0
    && (forall i :: 0 <= i < c ==> places[i] < n && chosen[i] == rows[places[i]])
    && (forall i :: 0 <= i < c ==> places[i] * c <= i * n < (places[i] + 1) * c)
    && (forall i, j :: 0 <= i < j < c && j == i + 1 ==> places[i] < places[j] && EvenStep(n, c, places[j] - places[i]))
  }

  ghost predicate EvenlyChosen(rows: seq<Item>, chosen: seq<Item>) {
    chosen == [] || exists places :: EvenPlaces(rows, chosen, places)
  }

  lemma EvenlySpacedIsEven(rows: seq<Item>, count: nat)
    requires count < |rows|
    ensures EvenlyChosen(rows, EvenlySpaced(rows, count))
  {
    if count > 0 {
      var n, chosen := |rows|, EvenlySpaced(rows, count);
      SpotsFit(n, count);
      var places := seq(count, i requires 0 <= i < count => Spot(i, n, count));
      hide Spot;
      forall i | 0 <= i < count ensures places[i] * count <= i * n < (places[i] + 1) * count {
        SpotIsLast(i, n, count);
      }
      forall i, j | 0 <= i < j < count && j == i + 1
        ensures places[i] < places[j] && EvenStep(n, count, places[j] - places[i])
      {
        SpotsAdvance(i, n, count);
      }
      SpotsAdvance(0, n, count);
      assert EvenPlaces(rows, chosen, places);
    }
  }

  lemma SpotIsLast(i: nat, n: nat, c: nat)
    requires c > 0
    ensures Spot(i, n, c) * c <= i * n < (Spot(i, n, c) + 1) * c
  {
    var x, s := QuotientParts(i * n, c);
    TimesMonotone(x, x, c);
  }

  // --- sorted lists ---

  lemma {:induction false} OfAscends(rows: seq<Item>, b: Bucket)
    requires Ascending(rows)
    ensures Ascending(Of(rows, b))
  {
    hide Less;
    if rows != [] {
      var init, last := rows[..|rows| - 1], rows[|rows| - 1];
      OfAscends(init, b);
      forall x | x in Of(init, b) ensures Less(x.key, last.key) {
        var k :| 0 <= k < |init| && init[k] == x;
        assert rows[k] == x;
      }
    }
  }

  lemma EvenlySpacedAscends(rows: seq<Item>, count: int)
    requires Ascending(rows)
    ensures Ascending(EvenlySpaced(rows, count))
  {
    hide Less;
    if 0 < count < |rows| {
      SpotsFit(|rows|, count);
      var r := EvenlySpaced(rows, count);
      forall i, j | 0 <= i < j < |r| ensures Less(r[i].key, r[j].key) {
        SpotsApart(i, j, |rows|, count);
      }
    }
  }

  /** A list in ascending order is determined by the rows in it. */
  lemma {:induction false} AscendingIsUnique(a: seq<Item>, b: seq<Item>)
    requires Ascending(a) && Ascending(b) && forall x :: x in a <==> x in b
    ensures a == b
  {
    hide Less;
    if a == [] || b == [] {
      NoneIn(if a == [] then b else a);
    } else {
      var x, y := a[|a| - 1], b[|b| - 1];
      LastIsLast(a, y);
      LastIsLast(b, x);
      LessAsymmetric(x.key, y.key);
      var a', b' := a[..|a| - 1], b[..|b| - 1];
      forall z ensures z in a' <==> z in b' {
        InFront(a, z);
        InFront(b, z);
      }
      AscendingIsUnique(a', b');
    }
  }

  lemma NoneIn(rows: seq<Item>)
    requires forall x :: x !in rows
    ensures rows == []
  {
    if rows != [] {
      var x := FirstOf(rows);
    }
  }

  lemma FirstOf(rows: seq<Item>) returns (x: Item)
    requires rows != []
    ensures x in rows
  {
    x := rows[0];
  }

  lemma LastIsLast(rows: seq<Item>, x: Item)
    requires Ascending(rows) && x in rows
    ensures x == rows[|rows| - 1] || Less(x.key, rows[|rows| - 1].key)
  {
  }

  lemma InFront(rows: seq<Item>, x: Item)
    requires Ascending(rows) && rows != []
    ensures x in rows[..|rows| - 1] <==> x in rows && x != rows[|rows| - 1]
  {
    AscendingIsDistinct(rows);
    hide Less;
    if x in rows && x != rows[|rows| - 1] {
      var k :| 0 <= k < |rows| && rows[k] == x;
      assert rows[..|rows| - 1][k] == x;
    }
  }

  // --- the fill ---

  /** Bucket by bucket in priority order, and by key inside a bucket. */
  predicate Precedes(x: Item, y: Item) {
    Rank(x.bucket) < Rank(y.bucket) || (x.bucket == y.bucket && Less(x.key, y.key))
  }

  ghost predicate InOrder(rows: seq<Item>) {
    forall i, j :: 0 <= i < j < |rows| ==> Precedes(rows[i], rows[j])
  }

  lemma {:induction false} RemainingAscends(rows: seq<Item>, chosen: set<string>)
    requires Ascending(rows)
    ensures Ascending(Remaining(rows, chosen))
  {
    hide Less;
    if rows != [] {
      var init, last := rows[..|rows| - 1], rows[|rows| - 1];
      RemainingAscends(init, chosen);
      forall x | x in Remaining(init, chosen) ensures Less(x.key, last.key) {
        var k :| 0 <= k < |init| && init[k] == x;
        assert rows[k] == x;
      }
    }
  }

  lemma {:induction false} RemainingInOrder(items: seq<Item>, chosen: set<string>, n: nat)
    requires Ascending(items) && n <= KINDS
    ensures InOrder(RemainingTo(items, chosen, n))
    ensures forall x :: x in items && Rank(x.bucket) < n && x.key !in chosen ==> x in RemainingTo(items, chosen, n)
  {
    hide Less, Of, Remaining, Priority, Rank;
    if n > 0 {
      RemainingInOrder(items, chosen, n - 1);
      var b := Priority(n - 1);
      OfAscends(items, b);
      RemainingAscends(Of(items, b), chosen);
      var before, more := RemainingTo(items, chosen, n - 1), Remaining(Of(items, b), chosen);
      var all := RemainingTo(items, chosen, n);
      forall i, j | 0 <= i < j < |all| ensures Precedes(all[i], all[j]) {
        if i < |before| <= j {
          assert all[i] in before && all[j] in more;
        } else if |before| <= i {
          assert all[i] == more[i - |before|] && all[j] == more[j - |before|] && all[i] in more && all[j] in more;
        }
      }
      forall x | x in items && Rank(x.bucket) < n && x.key !in chosen ensures x in all {
        if Rank(x.bucket) == n - 1 {
          PriorityHas(n - 1, x.bucket);
          assert x in more;
        }
      }
    }
  }
}
