/** Facts about finite sets and sequences that several modules need. */
module Collections {

  ghost predicate Distinct<T>(xs: seq<T>) {
    forall i, j :: 0 <= i < j < |xs| ==> xs[i] != xs[j]
  }

  /** The last n elements; what a bounded queue of capacity n keeps. */
  function LastN<T>(xs: seq<T>, n: nat): seq<T> {
    if |xs| <= n then xs else xs[|xs| - n..]
  }

  /** `kept` is the end of xs, all of it or n elements. */
  ghost predicate LastOf<T>(xs: seq<T>, n: nat, kept: seq<T>) {
    |kept| == Min(|xs|, n) && forall i :: 0 <= i < |kept| ==> kept[i] == xs[|xs| - |kept| + i]
  }

  lemma LastNIsEnd<T>(xs: seq<T>, n: nat)
    ensures LastOf(xs, n, LastN(xs, n))
  {
  }

  function Min(a: nat, b: nat): nat {
    if a < b then a else b
  }

  lemma {:induction false} SubsetSize<T>(a: set<T>, b: set<T>)
    requires a <= b
    ensures |a| <= |b|
  {
    if a != {} {
      var x :| x in a;
      SubsetSize(a - {x}, b - {x});
    }
  }

  lemma TwoElements<T>(s: set<T>)
    ensures |s| >= 2 <==> exists x, y :: x in s && y in s && x != y
  {
    if |s| >= 2 {
      var x :| x in s;
      assert |s - {x}| >= 1;
      var y :| y in s - {x};
    }
    if x, y :| x in s && y in s && x != y {
      SubsetSize({x, y}, s);
    }
  }
}
