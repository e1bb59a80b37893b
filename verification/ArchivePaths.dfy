/**
Stored archive paths and what they mean (src/oa_knowledge/archive_paths.py).

The database keeps a relative path as text; the file system is addressed by the path's
components. `Parts` is pathlib's reading of the text (repeated separators and "." components
disappear, a leading separator is kept as a root component), and the lemmas below say when
rewriting the text moves the components in the same way.
*/
module ArchivePaths {
  import opened Sequences
  import opened Wrappers

  type Path = seq<string>

  predicate Component(c: string) {
    c != "" && c != "." && '/' !in c
  }

  predicate Components(p: Path) {
    forall i :: 0 <= i < |p| ==> Component(p[i])
  }

  function FirstSlash(s: string): (i: nat)
    ensures i <= |s| && '/' !in s[..i] && (i < |s| ==> s[i] == '/')
  {
    if s == "" || s[0] == '/' then 0 else 1 + FirstSlash(s[1..])
  }

  function Keep(c: string): Path {
    if c == "" || c == "." then [] else [c]
  }

  function Pieces(s: string): Path
    decreases |s|
  {
    var i := FirstSlash(s);
    Keep(s[..i]) + if i == |s| then [] else Pieces(s[i + 1..])
  }

  lemma {:induction false} PiecesAreComponents(s: string)
    ensures Components(Pieces(s))
    decreases |s|
  {
    var i := FirstSlash(s);
    if i < |s| {
      PiecesAreComponents(s[i + 1..]);
    }
  }

  predicate Absolute(s: string) {
    s != "" && s[0] == '/'
  }

  /** The components of a stored path; a root component marks an absolute one. */
  function Parts(s: string): Path {
    (if Absolute(s) then ["/"] else []) + Pieces(s)
  }

  /** The normalised text of a relative path. */
  function AsPosix(p: Path): string {
    if p == [] then "." else if |p| == 1 then p[0] else p[0] + "/" + AsPosix(p[1..])
  }

  predicate IsLegacy(p: Path) {
    |p| >= 2 && p[0] == "raw" && (p[1] == "done" || p[1] == "pending")
  }

  predicate IsCurrent(p: Path) {
    |p| >= 2 && p[0] == "originals"
  }

  /** An initiation date, as the text of its year, month and day. */
  datatype Day = Day(year: string, month: string, day: string)

  function DoneDirectory(title: string, initiated: Option<Day>): Path {
    match initiated
    case Some(d) => ["originals", d.year, d.month, d.year + "-" + d.month + "-" + d.day + "_" + title]
    case None => ["originals", "unknown", "unknown_" + title]
  }

  function PendingDirectory(logicalId: string, snapshotId: string): Path {
    ["originals", "pending", logicalId, snapshotId]
  }

  /** The first position of a "done" or "pending" component that is not the last one. */
  function TailStart(p: Path, from: nat): (i: Option<nat>)
    requires from <= |p|
    ensures i.Some? ==> i.value + 1 < |p| && p[i.value] in {"done", "pending"}
    decreases |p| - from
  {
    if from + 1 >= |p| then None
    else if p[from] == "done" || p[from] == "pending" then Some(from)
    else TailStart(p, from + 1)
  }

  function MarkdownTail(p: Path): Option<Path> {
    if ".." in p || (p != [] && p[0] == "/") then None
    else if IsCurrent(p) then Some(p[1..])
    else match TailStart(p, 0)
      case None => None
      case Some(i) => Some(p[i..])
  }

  /** The text `v` is the text `base` or continues it below a separator. */
  predicate Under(v: string, base: string) {
    v == base || base + "/" <= v
  }

  function ReplacePrefix(value: Option<string>, src: string, dst: string): Option<string> {
    match value
    case None => None
    case Some(v) =>
      if v == src then Some(dst)
      else if v != "" && src + "/" <= v then Some(dst + v[|src|..])
      else Some(v)
  }

  /** Swapping the two prefixes undoes the rewrite, except on text that was already below the new prefix. */
  lemma ReplaceUndo(v: string, src: string, dst: string)
    ensures ReplacePrefix(ReplacePrefix(Some(v), src, dst), dst, src) == Some(v)
            <==> Under(v, src) || !Under(v, dst)
  {
    if src + "/" <= v {
      var w := dst + v[|src|..];
      assert v[|src|] == (src + "/")[|src|] == '/';
      assert dst + "/" <= w by {
        assert w[..|dst| + 1] == dst + "/";
      }
      assert src + w[|dst|..] == v by {
        assert w[|dst|..] == v[|src|..];
        assert v[..|src|] == (src + "/")[..|src|] == src;
      }
    } else if v != src && dst + "/" <= v {
      assert v[..|dst|] == (dst + "/")[..|dst|] == dst;
      assert src + v[|dst|..] == v ==> v[..|src|] == src;
    }
  }

  // --- text and components agree ---

  lemma {:induction false} FirstSlashAfter(c: string, rest: string)
    requires '/' !in c
    ensures FirstSlash(c) == |c|
    ensures FirstSlash(c + "/" + rest) == |c|
  {
    if c != "" {
      assert (c + "/" + rest)[1..] == c[1..] + "/" + rest;
      FirstSlashAfter(c[1..], rest);
    }
  }

  lemma PiecesStep(c: string, rest: string)
    requires '/' !in c
    ensures Pieces(c) == Keep(c)
    ensures Pieces(c + "/" + rest) == Keep(c) + Pieces(rest)
  {
    FirstSlashAfter(c, rest);
    var s := c + "/" + rest;
    assert c[..|c|] == c && s[..|c|] == c && s[|c| + 1..] == rest;
  }

  lemma SplitAtSlash(a: string) returns (c: string, tail: string)
    requires FirstSlash(a) < |a|
    ensures a == c + "/" + tail && '/' !in c && |tail| < |a|
  {
    var i := FirstSlash(a);
    c, tail := a[..i], a[i + 1..];
  }

  lemma {:induction false} PiecesJoin(a: string, b: string)
    ensures Pieces(a + "/" + b) == Pieces(a) + Pieces(b)
    decreases |a|
  {
    if FirstSlash(a) == |a| {
      assert a[..|a|] == a;
      PiecesStep(a, b);
    } else {
      var c, tail := SplitAtSlash(a);
      PiecesJoin(tail, b);
      PiecesJoinStep(c, tail, b);
    }
  }

  lemma PiecesJoinStep(c: string, tail: string, b: string)
    requires '/' !in c
    requires Pieces(tail + "/" + b) == Pieces(tail) + Pieces(b)
    ensures Pieces(c + "/" + tail + "/" + b) == Pieces(c + "/" + tail) + Pieces(b)
  {
    PiecesStep(c, tail);
    PiecesStep(c, tail + "/" + b);
    Associate(Keep(c), Pieces(tail), Pieces(b));
    Associate(c, "/", tail + "/" + b);
    Associate(c + "/", tail, "/");
    Associate(c + "/", tail + "/", b);
  }

  /** Normalised text reads back as the components it was made from. */
  lemma {:induction false} PartsOfPosix(p: Path)
    requires Components(p) && p != []
    ensures Pieces(AsPosix(p)) == p
    ensures Parts(AsPosix(p)) == p
  {
    hide Absolute;
    assert Component(p[0]) && p == [p[0]] + p[1..];
    PiecesStep(p[0], if |p| > 1 then AsPosix(p[1..]) else "");
    if |p| > 1 {
      PartsOfPosix(p[1..]);
    }
    PosixIsRelative(p);
  }

  lemma PosixIsRelative(p: Path)
    requires Components(p) && p != []
    ensures AsPosix(p) != "" && AsPosix(p)[0] == p[0][0] && !Absolute(AsPosix(p))
  {
    assert Component(p[0]);
  }

  lemma {:induction false} PosixConcat(p: Path, q: Path)
    requires p != [] && q != []
    ensures AsPosix(p + q) == AsPosix(p) + "/" + AsPosix(q)
  {
    if |p| == 1 {
      assert (p + q)[1..] == q;
    } else {
      assert (p + q)[1..] == p[1..] + q;
      PosixConcat(p[1..], q);
    }
  }

  /** Moving `src` to `dst`, on components. */
  function Moved(p: Path, src: Path, dst: Path): Path {
    if src <= p then dst + p[|src|..] else p
  }

  /** The text `v` shows that it lies at or below `src`, if its components do. */
  predicate Tracked(v: string, src: Path) {
    src <= Parts(v) ==> Under(v, AsPosix(src))
  }

  lemma BelowText(v: string, base: string) returns (rest: string)
    requires base + "/" <= v
    ensures v == base + "/" + rest && v[|base|..] == "/" + rest
  {
    rest := v[|base| + 1..];
    assert v[..|base| + 1] == base + "/";
    assert v[|base|] == (base + "/")[|base|] == '/';
  }

  lemma BelowParts(p: Path, rest: string)
    requires Components(p) && p != []
    ensures Parts(AsPosix(p) + "/" + rest) == p + Pieces(rest)
  {
    PartsOfPosix(p);
    PiecesJoin(AsPosix(p), rest);
    PosixIsRelative(p);
    assert (AsPosix(p) + "/" + rest)[0] == AsPosix(p)[0];
  }

  /**
  Rewriting the stored text moves its components exactly when the text shows its prefix:
  a path whose components lie below `src` but whose text is spelled differently keeps pointing
  at the place that was vacated.
  */
  lemma ReplaceMovesParts(v: string, src: Path, dst: Path)
    requires Components(src) && Components(dst) && src != [] && dst != []
    requires src[0] != dst[0]
    ensures var w := ReplacePrefix(Some(v), AsPosix(src), AsPosix(dst)).value;
            Parts(w) == Moved(Parts(v), src, dst) <==> Tracked(v, src)
  {
    var o, n := AsPosix(src), AsPosix(dst);
    if v == o {
      PartsOfPosix(src);
      PartsOfPosix(dst);
      assert src[|src|..] == [] && dst + [] == dst;
    } else if o + "/" <= v {
      var rest := BelowText(v, o);
      ReplaceBelow(rest, src, dst);
    } else if src <= Parts(v) {
      var q := dst + Parts(v)[|src|..];
      assert Parts(v)[0] == src[0] && q[0] == dst[0];
    }
  }

  lemma ReplaceBelow(rest: string, src: Path, dst: Path)
    requires Components(src) && Components(dst) && src != [] && dst != []
    ensures var v, w := AsPosix(src) + "/" + rest, AsPosix(dst) + "/" + rest;
            && ReplacePrefix(Some(v), AsPosix(src), AsPosix(dst)) == Some(w)
            && Parts(w) == Moved(Parts(v), src, dst)
  {
    BelowParts(src, rest);
    BelowParts(dst, rest);
    assert (src + Pieces(rest))[|src|..] == Pieces(rest);
    ReplaceBelowText(AsPosix(src), AsPosix(dst), rest);
  }

  lemma ReplaceBelowText(o: string, n: string, rest: string)
    ensures ReplacePrefix(Some(o + "/" + rest), o, n) == Some(n + "/" + rest)
  {
    var v := o + "/" + rest;
    assert v[|o|..] == "/" + rest;
    Associate(n, "/", rest);
  }

  /** Text that was written in normalised form always shows its prefix. */
  lemma NormalTextIsTracked(p: Path, src: Path)
    requires Components(p) && Components(src) && p != [] && src != []
    ensures Tracked(AsPosix(p), src)
  {
    PartsOfPosix(p);
    if src <= p && src != p {
      var rest := p[|src|..];
      assert p == src + rest;
      PosixConcat(src, rest);
    }
  }
}
