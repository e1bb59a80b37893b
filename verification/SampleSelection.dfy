/**
The representative sample (src/oa_knowledge/backfill_mvp.py): ordinary rows evenly spaced, special
rows taken bucket by bucket in rounds up to a limit, and special rows again when too few are left.

The facts about a row that need text patterns or the configuration are given.
*/
module SampleSelection {
  import opened TextOrder

  datatype Bucket =
    | AttachmentAbnormal | NoAttachment | MultipleAttachments | MixedInitiator | FileTransfer
    | ExternalDocumentNumber | InternalTemplate | NoDocumentNumber
    | Ordinary

  const KINDS: nat := 8

  /** The place of a bucket in the priority order; ordinary rows come after all of them. */
  function Rank(b: Bucket): (r: nat)
    ensures r <= KINDS && (r < KINDS <==> b != Ordinary)
  {
    match b
    case AttachmentAbnormal => 0
    case NoAttachment => 1
    case MultipleAttachments => 2
    case MixedInitiator => 3
    case FileTransfer => 4
    case ExternalDocumentNumber => 5
    case InternalTemplate => 6
    case NoDocumentNumber => 7
    case Ordinary => 8
  }

  function Priority(i: nat): (b: Bucket)
    requires i < KINDS
    ensures Rank(b) == i && b != Ordinary
  {
    if i == 0 then AttachmentAbnormal
    else if i == 1 then NoAttachment
    else if i == 2 then MultipleAttachments
    else if i == 3 then MixedInitiator
    else if i == 4 then FileTransfer
    else if i == 5 then ExternalDocumentNumber
    else if i == 6 then InternalTemplate
    else NoDocumentNumber
  }

  lemma RankIsPlace(b: Bucket)
    requires b != Ordinary
    ensures Priority(Rank(b)) == b
  {
  }

  /** What is known about one target row. */
  datatype Target = Target(
    key: string, abnormalFiles: nat, noAttachmentConfirmed: bool, files: nat, mixedRole: bool, transferTitle: bool,
    numbered: bool, issuerNumber: bool, templateTitle: bool, unknownRole: bool)

  datatype Item = Item(key: string, bucket: Bucket)

  datatype SampleError = NotPositive | ExceedsTargets | NotEnough

  function BucketOf(t: Target): Bucket {
    if t.abnormalFiles > 0 then AttachmentAbnormal
    else if t.noAttachmentConfirmed then NoAttachment
    else if t.files >= 3 then MultipleAttachments
    else if t.mixedRole then MixedInitiator
    else if t.transferTitle then FileTransfer
    else if t.numbered && t.issuerNumber then ExternalDocumentNumber
    else if t.templateTitle then InternalTemplate
    else if !t.numbered && t.unknownRole then NoDocumentNumber
    else Ordinary
  }

  /** What puts a row in a bucket, whatever else is true of it. */
  predicate Applies(t: Target, b: Bucket) {
    match b
    case AttachmentAbnormal => t.abnormalFiles > 0
    case NoAttachment => t.noAttachmentConfirmed
    case MultipleAttachments => t.files >= 3
    case MixedInitiator => t.mixedRole
    case FileTransfer => t.transferTitle
    case ExternalDocumentNumber => t.numbered && t.issuerNumber
    case InternalTemplate => t.templateTitle
    case NoDocumentNumber => !t.numbered && t.unknownRole
    case Ordinary => true
  }

  /** A row is in the first bucket, in the order in which the rounds take them, that applies to it. */
  lemma BucketIsFirst(t: Target, b: Bucket)
    ensures BucketOf(t) == b <==> Applies(t, b) && forall c :: Rank(c) < Rank(b) ==> !Applies(t, c)
  {
    assert Applies(t, BucketOf(t));
    assert BucketOf(t) != b ==> Rank(BucketOf(t)) < Rank(b) || Rank(b) < Rank(BucketOf(t));
  }

  function Items(ts: seq<Target>): (r: seq<Item>)
    ensures |r| == |ts|
    ensures forall i :: 0 <= i < |ts| ==> r[i] == Item(ts[i].key, BucketOf(ts[i]))
  {
    if ts == [] then []
    else Items(ts[..|ts| - 1]) + [Item(ts[|ts| - 1].key, BucketOf(ts[|ts| - 1]))]
  }

  /** The rows of one bucket, in order. */
  function Of(rows: seq<Item>, b: Bucket): (r: seq<Item>)
    ensures forall x :: x in r <==> x in rows && x.bucket == b
  {
    if rows == [] then []
    else
      var last := rows[|rows| - 1];
      Of(rows[..|rows| - 1], b) + if last.bucket == b then [last] else []
  }

  lemma OfAppend(rows: seq<Item>, x: Item, b: Bucket)
    ensures Of(rows + [x], b) == Of(rows, b) + if x.bucket == b then [x] else []
  {
    assert (rows + [x])[..|rows|] == rows;
  }

  predicate Ascending(rows: seq<Item>) {
    forall i, j :: 0 <= i < j < |rows| ==> Less(rows[i].key, rows[j].key)
  }

  predicate DistinctKeys(rows: seq<Item>) {
    forall i, j :: 0 <= i < j < |rows| ==> rows[i].key != rows[j].key
  }

  lemma AscendingIsDistinct(rows: seq<Item>)
    requires Ascending(rows)
    ensures DistinctKeys(rows)
  {
    forall i, j | 0 <= i < j < |rows| ensures rows[i].key != rows[j].key {
      LessIrreflexive(rows[i].key);
    }
  }

  lemma {:induction false} OfDistinct(rows: seq<Item>, b: Bucket)
    requires DistinctKeys(rows)
    ensures DistinctKeys(Of(rows, b))
  {
    hide Rank;
    if rows != [] {
      var init := rows[..|rows| - 1];
      OfDistinct(init, b);
      forall x | x in Of(init, b) ensures x.key != rows[|rows| - 1].key {
        var k :| 0 <= k < |init| && init[k] == x;
        assert rows[k] == x;
      }
    }
  }

  // --- evenly spaced rows ---

  function Spot(i: nat, length: nat, count: nat): nat
    requires count > 0
  {
    i * length / count
  }

  function EvenlySpaced(rows: seq<Item>, count: int): (r: seq<Item>)
    ensures |r| == if count <= 0 then 0 else if count >= |rows| then |rows| else count
    ensures forall x :: x in r ==> x in rows
  {
    if count <= 0 then []
    else if count >= |rows| then rows
    else
      SpotsFit(|rows|, count);
      seq(count, i requires 0 <= i < count => rows[Spot(i, |rows|, count)])
  }

  lemma QuotientIsUnique(c: nat, x: nat, y: nat, s: nat, t: nat)
    requires x * c + s == y * c + t && s < c && t < c
    ensures x == y
  {
    if x < y {
      TimesMonotone(x + 1, y, c);
    } else if y < x {
      TimesMonotone(y + 1, x, c);
    }
  }

  lemma TimesMonotone(a: nat, b: nat, c: nat)
    requires a <= b
    ensures a * c <= b * c
    ensures (a + 1) * c == a * c + c
  {
    assert b * c == a * c + (b - a) * c;
  }

  lemma QuotientParts(a: nat, c: nat) returns (x: nat, s: nat)
    requires c > 0
    ensures x == a / c && s == a % c && s < c && a == x * c + s
  {
    x, s := a / c, a % c;
  }

  /** Adding `n` moves a quotient by the floor or the ceiling of n / c. */
  lemma DivStep(a: nat, n: nat, c: nat)
    requires c > 0
    ensures var gap := (a + n) / c - a / c; gap == n / c || (n % c != 0 && gap == n / c + 1)
  {
    var x, s := QuotientParts(a, c);
    var q, r := QuotientParts(n, c);
    var y, t := QuotientParts(a + n, c);
    SumOfQuotients(c, x, s, q, r, y, t);
  }

  lemma SumOfQuotients(c: nat, x: nat, s: nat, q: nat, r: nat, y: nat, t: nat)
    requires s < c && r < c && t < c && (x * c + s) + (q * c + r) == y * c + t
    ensures y == x + q || (r != 0 && y == x + q + 1)
  {
    assert (x + q) * c == x * c + q * c;
    if s + r < c {
      QuotientIsUnique(c, y, x + q, t, s + r);
    } else {
      TimesMonotone(x + q, x + q, c);
      QuotientIsUnique(c, y, x + q + 1, t, s + r - c);
    }
  }

  lemma AtLeastOne(length: nat, count: nat)
    requires 0 < count <= length
    ensures length / count >= 1
  {
  }

  /** The spots start at the first row, advance by the floor or the ceiling of the mean gap, and stay inside. */
  lemma SpotsAdvance(i: nat, length: nat, count: nat)
    requires 0 < count <= length
    ensures Spot(0, length, count) == 0
    ensures var gap := Spot(i + 1, length, count) - Spot(i, length, count);
      gap >= 1 && (gap == length / count || (length % count != 0 && gap == length / count + 1))
  {
    TimesMonotone(i, i, length);
    DivStep(i * length, length, count);
    AtLeastOne(length, count);
  }

  lemma SpotsFit(length: nat, count: nat)
    requires 0 < count <= length
    ensures forall i :: 0 <= i < count ==> Spot(i, length, count) < length
  {
    forall i | 0 <= i < count ensures Spot(i, length, count) < length {
      SpotFits(i, length, count);
    }
  }

  lemma SpotFits(i: nat, length: nat, count: nat)
    requires i < count <= length
    ensures Spot(i, length, count) < length
  {
  }

  lemma {:induction false} SpotsApart(i: nat, j: nat, length: nat, count: nat)
    requires i < j && 0 < count <= length
    ensures Spot(i, length, count) < Spot(j, length, count)
    decreases j
  {
    SpotsAdvance(j - 1, length, count);
    if i < j - 1 {
      SpotsApart(i, j - 1, length, count);
    }
  }

  lemma EvenlySpacedDistinct(rows: seq<Item>, count: int)
    requires DistinctKeys(rows)
    ensures DistinctKeys(EvenlySpaced(rows, count))
  {
    if 0 < count < |rows| {
      SpotsFit(|rows|, count);
      var r := EvenlySpaced(rows, count);
      forall i, j | 0 <= i < j < |r| ensures r[i].key != r[j].key {
        SpotsApart(i, j, |rows|, count);
      }
    }
  }
}
