/** Facts about sequences that proofs need by name. */
module Sequences {

  lemma Associate<T>(a: seq<T>, b: seq<T>, c: seq<T>)
    ensures a + b + c == a + (b + c)
  {
  }

  /** The members of which something is true. */
  function Those<T>(xs: seq<T>, p: T -> bool): set<T> {
    set x | x in xs && p(x)
  }

  lemma ThoseAppend<T>(xs: seq<T>, x: T, p: T -> bool)
    requires x !in xs
    ensures |Those(xs + [x], p)| == |Those(xs, p)| + if p(x) then 1 else 0
  {
    if p(x) {
      assert Those(xs + [x], p) == Those(xs, p) + {x};
    } else {
      assert Those(xs + [x], p) == Those(xs, p);
    }
  }

  lemma ThoseAlike<T>(xs: seq<T>, p: T -> bool, q: T -> bool)
    requires forall x :: x in xs ==> p(x) == q(x)
    ensures Those(xs, p) == Those(xs, q)
  {
  }

  /** The numbers below `n` of which something is true. */
  function Places(n: nat, p: int -> bool): set<int> {
    set i | 0 <= i < n && p(i)
  }

  lemma PlacesNext(n: nat, p: int -> bool)
    ensures |Places(n + 1, p)| == |Places(n, p)| + if p(n) then 1 else 0
  {
    assert Places(n + 1, p) == if p(n) then Places(n, p) + {n as int} else Places(n, p);
  }

  lemma NoPlaces(p: int -> bool)
    ensures |Places(0, p)| == 0
  {
  }
}
