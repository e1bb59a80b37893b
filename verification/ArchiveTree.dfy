/**
The data tree: what `mkdir(parents=True)`, `rename` and `_tree_fingerprint` do to it
(src/oa_knowledge/archive_reconciliation.py).

A tree maps component paths to nodes; the root directory is the empty path and is not listed.
A fingerprint is the listing itself, because distinct listings have distinct digests.
*/
module ArchiveTree {
  import opened Wrappers
  import opened ArchivePaths

  type Bytes = seq<bv8>

  datatype Node = Dir | File(bytes: Bytes) | Link | Special

  type Tree = map<Path, Node>

  predicate IsDir(t: Tree, p: Path) {
    p == [] || (p in t && t[p].Dir?)
  }

  function Parent(p: Path): Path
    requires p != []
  {
    p[..|p| - 1]
  }

  /** Every entry lies in a directory. */
  ghost predicate WellFormed(t: Tree) {
    [] !in t && forall p :: p in t ==> p != [] && IsDir(t, Parent(p))
  }

  lemma {:induction false} AncestorsAreDirs(t: Tree, p: Path, base: Path)
    requires WellFormed(t) && p in t && base <= p && base != p
    ensures IsDir(t, base)
    decreases |p|
  {
    if base != Parent(p) {
      assert base <= Parent(p);
      AncestorsAreDirs(t, Parent(p), base);
    }
  }

  /** `mkdir(parents=True, exist_ok=True)`: None when an entry on the way is not a directory. */
  function MakeDirs(t: Tree, p: Path): Option<Tree>
    decreases |p|
  {
    if IsDir(t, p) then Some(t)
    else if p in t then None
    else match MakeDirs(t, Parent(p))
      case None => None
      case Some(above) => Some(above[p := Dir])
  }

  lemma {:induction false} MakeDirsOnlyAdds(t: Tree, p: Path)
    requires MakeDirs(t, p).Some?
    ensures var u := MakeDirs(t, p).value;
      && IsDir(u, p)
      && (forall q :: q in t ==> q in u && u[q] == t[q])
      && (forall q :: q in u && q !in t ==> u[q] == Dir && q <= p && q != [])
      && (WellFormed(t) ==> WellFormed(u))
      && (IsDir(t, p) <==> u == t)
    decreases |p|
  {
    if !IsDir(t, p) {
      MakeDirsOnlyAdds(t, Parent(p));
      var above := MakeDirs(t, Parent(p)).value;
      var u := MakeDirs(t, p).value;
      assert u[p] == Dir && p !in t;
      forall q | WellFormed(t) && q in u ensures q != [] && IsDir(u, Parent(q)) {
        if q != p {
          assert q in above && IsDir(above, Parent(q));
        }
      }
    }
  }

  /** Neither path lies inside the other. */
  predicate Separate(o: Path, n: Path) {
    !(o <= n) && !(n <= o)
  }

  ghost predicate Vacant(t: Tree, n: Path) {
    forall q :: q in t ==> !(n <= q)
  }

  lemma MissingIsVacant(t: Tree, n: Path)
    requires WellFormed(t) && n !in t && n != []
    ensures Vacant(t, n)
  {
    forall q | q in t ensures !(n <= q) {
      if n <= q {
        AncestorsAreDirs(t, q, n);
      }
    }
  }

  lemma Cut(base: Path, rest: Path)
    ensures base <= base + rest && (base + rest)[|base|..] == rest
  {
  }

  lemma Rejoin(base: Path, p: Path)
    requires base <= p
    ensures base + p[|base|..] == p
  {
  }

  /** Where the entry at `q` was before `o` was renamed to `n`. */
  function Origin(q: Path, o: Path, n: Path): Path {
    if n <= q then o + q[|n|..] else q
  }

  predicate Occupied(t: Tree, o: Path, n: Path, q: Path) {
    Origin(q, o, n) in t && (n <= q || !(o <= q))
  }

  function Targets(t: Tree, o: Path, n: Path): set<Path> {
    (set q | q in t && !(o <= q)) + (set q | q in t && o <= q :: n + q[|o|..])
  }

  lemma TargetIff(t: Tree, o: Path, n: Path, q: Path)
    requires Separate(o, n) && Vacant(t, n)
    ensures q in Targets(t, o, n) <==> Occupied(t, o, n, q)
  {
    if q in Targets(t, o, n) && (q !in t || o <= q) {
      var r :| r in t && o <= r && q == n + r[|o|..];
      Cut(n, r[|o|..]);
      Rejoin(o, r);
    }
    if Occupied(t, o, n, q) && n <= q {
      Cut(o, q[|n|..]);
      Rejoin(n, q);
    }
  }

  function Rename(t: Tree, o: Path, n: Path): Tree
    requires Separate(o, n) && Vacant(t, n)
  {
    map q | q in Targets(t, o, n) :: TargetIff(t, o, n, q); t[Origin(q, o, n)]
  }

  lemma RenameIff(t: Tree, o: Path, n: Path, q: Path)
    requires Separate(o, n) && Vacant(t, n)
    ensures q in Rename(t, o, n) <==> Occupied(t, o, n, q)
    ensures q in Rename(t, o, n) ==> Rename(t, o, n)[q] == t[Origin(q, o, n)]
  {
    TargetIff(t, o, n, q);
  }

  /** A rename moves each entry of the tree, and leaves nothing at the old place. */
  lemma RenameAt(t: Tree, o: Path, n: Path, r: Path)
    requires Separate(o, n) && Vacant(t, n) && !(n <= r)
    ensures var u := Rename(t, o, n);
      && (Moved(r, o, n) in u <==> r in t)
      && (r in t ==> u[Moved(r, o, n)] == t[r])
      && (o <= r ==> r !in u)
  {
    RenameIff(t, o, n, Moved(r, o, n));
    RenameIff(t, o, n, r);
    if o <= r {
      Cut(n, r[|o|..]);
      Rejoin(o, r);
    }
  }

  lemma MovedBack(r: Path, o: Path, n: Path)
    requires Separate(o, n) && !(n <= r)
    ensures Moved(Moved(r, o, n), n, o) == r
  {
  }

  lemma OriginTwice(o: Path, n: Path, q: Path)
    requires Separate(o, n) && (n <= q ==> !(o <= q))
    ensures o <= q ==> Origin(Origin(q, n, o), o, n) == q
    ensures !(o <= q) && !(n <= q) ==> Origin(Origin(q, n, o), o, n) == q
    ensures o <= q ==> n <= Origin(q, n, o)
  {
  }

  lemma NotBoth(o: Path, n: Path, q: Path)
    requires Separate(o, n)
    ensures !(o <= q && n <= q)
  {
  }

  lemma RenameVacates(t: Tree, o: Path, n: Path)
    requires Separate(o, n) && Vacant(t, n)
    ensures Vacant(Rename(t, o, n), o)
  {
  }

  /** Renaming back restores the tree. */
  lemma RenameUndone(t: Tree, o: Path, n: Path)
    requires Separate(o, n) && Vacant(t, n)
    ensures Vacant(Rename(t, o, n), o)
    ensures Rename(Rename(t, o, n), n, o) == t
  {
    RenameVacates(t, o, n);
    var u := Rename(t, o, n);
    var v := Rename(u, n, o);
    forall q ensures (q in v <==> q in t) && (q in t ==> v[q] == t[q]) {
      RenameUndoneAt(t, u, v, o, n, q);
    }
    assert v.Keys == t.Keys;
  }

  lemma RenameUndoneAt(t: Tree, u: Tree, v: Tree, o: Path, n: Path, q: Path)
    requires Separate(o, n) && Vacant(t, n) && Vacant(u, o)
    requires u == Rename(t, o, n) && v == Rename(u, n, o)
    ensures (q in v <==> q in t) && (q in t ==> v[q] == t[q])
  {
    NotBoth(o, n, q);
    OriginTwice(o, n, q);
    RenameIff(u, n, o, q);
    RenameIff(t, o, n, Origin(q, n, o));
  }

  lemma ParentOf(base: Path, p: Path)
    requires p != []
    ensures base <= Parent(p) ==> base <= p
    ensures base <= p && base != p ==> base <= Parent(p) && Parent(p)[|base|..] == p[|base|..][..|p| - |base| - 1]
  {
  }

  lemma OriginOfParent(o: Path, n: Path, q: Path)
    requires q != [] && q != n && o != []
    ensures Origin(q, o, n) != []
    ensures Parent(Origin(q, o, n)) == Origin(Parent(q), o, n)
    ensures n <= q <==> n <= Parent(q)
  {
  }

  lemma RenameWellFormed(t: Tree, o: Path, n: Path)
    requires WellFormed(t) && Separate(o, n) && Vacant(t, n)
    requires IsDir(t, Parent(n))
    ensures WellFormed(Rename(t, o, n))
  {
    var u := Rename(t, o, n);
    assert [] <= o && [] <= n;
    forall q | q in u ensures q != [] && IsDir(u, Parent(q)) {
      RenameIff(t, o, n, q);
      assert q != [];
      RenameIff(t, o, n, Parent(q));
      if q == n {
        ParentOf(o, n);
        assert !(n <= Parent(n));
      } else {
        OriginOfParent(o, n, q);
        assert IsDir(t, Parent(Origin(q, o, n)));
        ParentOf(o, q);
      }
    }
    RenameIff(t, o, n, []);
  }

  // --- fingerprints ---

  predicate Readable(t: Tree, root: Path) {
    forall q :: q in t && root <= q && q != root ==> t[q].Dir? || t[q].File?
  }

  function Below(t: Tree, root: Path): set<Path> {
    set q | q in t && root <= q && q != root :: q[|root|..]
  }

  lemma BelowIff(t: Tree, root: Path, r: Path)
    ensures r in Below(t, root) <==> r != [] && root + r in t
  {
    Cut(root, r);
    if r in Below(t, root) {
      var q :| q in t && root <= q && q != root && q[|root|..] == r;
      Rejoin(root, q);
      assert root + [] == root;
    }
  }

  /** The listing below `root`, relative to it: None when it holds a link or a special entry. */
  function Fingerprint(t: Tree, root: Path): Option<Tree> {
    if Readable(t, root) then Some(map r | r in Below(t, root) :: BelowIff(t, root, r); t[root + r]) else None
  }

  lemma FingerprintIff(t: Tree, root: Path)
    ensures Fingerprint(t, root).Some? <==> Readable(t, root)
  {
  }

  lemma RenameCarries(t: Tree, o: Path, n: Path, r: Path)
    requires Separate(o, n) && Vacant(t, n)
    ensures n + r in Rename(t, o, n) <==> o + r in t
    ensures o + r in t ==> Rename(t, o, n)[n + r] == t[o + r]
  {
    Cut(n, r);
    RenameIff(t, o, n, n + r);
  }

  lemma RenameKeepsReadable(t: Tree, o: Path, n: Path)
    requires Separate(o, n) && Vacant(t, n)
    ensures Readable(Rename(t, o, n), n) <==> Readable(t, o)
  {
    var u := Rename(t, o, n);
    forall q | q in u && n <= q && q != n ensures Readable(t, o) ==> u[q].Dir? || u[q].File? {
      RenameIff(t, o, n, q);
      Cut(o, q[|n|..]);
      Rejoin(n, q);
      assert n + [] == n;
    }
    forall q | q in t && o <= q && q != o ensures Readable(u, n) ==> t[q].Dir? || t[q].File? {
      RenameCarries(t, o, n, q[|o|..]);
      Rejoin(o, q);
      Cut(n, q[|o|..]);
      assert o + [] == o;
    }
  }

  /** A rename carries the fingerprint along, so the comparison after it cannot fail by itself. */
  lemma RenameKeepsFingerprint(t: Tree, o: Path, n: Path)
    requires Separate(o, n) && Vacant(t, n)
    ensures Fingerprint(Rename(t, o, n), n) == Fingerprint(t, o)
  {
    RenameKeepsReadable(t, o, n);
    if Readable(t, o) {
      RenameKeepsListing(t, o, n);
    }
  }

  lemma SameMap(a: Tree, b: Tree)
    requires forall r: Path :: r in a <==> r in b
    requires forall r: Path :: r in a ==> a[r] == b[r]
    ensures a == b
  {
    assert a.Keys == b.Keys;
  }

  lemma RenameKeepsListing(t: Tree, o: Path, n: Path)
    requires Separate(o, n) && Vacant(t, n)
    requires Readable(t, o) && Readable(Rename(t, o, n), n)
    ensures Fingerprint(Rename(t, o, n), n) == Fingerprint(t, o)
  {
    var u := Rename(t, o, n);
    var a, b := Fingerprint(t, o).value, Fingerprint(u, n).value;
    forall r: Path ensures (r in a <==> r in b) && (r in a && r in b ==> a[r] == b[r]) {
      BelowIff(t, o, r);
      BelowIff(u, n, r);
      RenameCarries(t, o, n, r);
    }
    SameMap(a, b);
  }
}
