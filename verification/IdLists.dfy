/** Lists of natural numbers that stand for sets: orders of operation ids, lists of shards. */
module IdLists {

  function Elements(p: seq<nat>): set<nat> {
    set x | x in p
  }

  predicate Below(x: nat, n: nat) {
    x < n
  }

  /** The numbers below n. */
  function Ids(n: nat): set<nat> {
    set x: nat | x < n && Below(x, n)
  }

  predicate Over(p: seq<nat>, n: nat) {
    forall i :: 0 <= i < |p| ==> p[i] < n
  }

  ghost predicate Distinct(p: seq<nat>) {
    forall i, j :: 0 <= i < j < |p| ==> p[i] != p[j]
  }

  // ---------------------------------------------------------------- counting

  lemma {:induction false} DistinctSize(p: seq<nat>)
    requires Distinct(p)
    ensures |Elements(p)| == |p|
  {
    if p != [] {
      var front := p[..|p| - 1];
      DistinctSize(front);
      assert p == front + [p[|p| - 1]];
      assert Elements(p) == Elements(front) + {p[|p| - 1]};
    }
  }

  lemma {:induction false} IdsSize(n: nat)
    ensures |Ids(n)| == n
  {
    if n > 0 {
      IdsSize(n - 1);
      assert Ids(n) == Ids(n - 1) + {n - 1};
    }
  }

  lemma SubsetSize<T>(a: set<T>, b: set<T>)
    requires a <= b
    ensures |a| <= |b| && (|a| == |b| ==> a == b)
  {
    assert b == a + (b - a);
  }

  /** Different ids below n: at most n of them, and n of them are all. */
  lemma DistinctCovers(p: seq<nat>, n: nat)
    requires Distinct(p) && Over(p, n)
    ensures |p| <= n && (|p| == n <==> Elements(p) == Ids(n))
  {
    DistinctSize(p);
    IdsSize(n);
    assert Elements(p) <= Ids(n);
    SubsetSize(Elements(p), Ids(n));
  }
}
