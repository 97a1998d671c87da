/**
 The allocation of shards to groups in labs/src/shardctrler/server.go (`gidShards`), and the
 rebalancing that moves one shard at a time from the largest group to the smallest.
 */
module Rebalance {
  import opened IdLists
  import opened MapIteration
  import opened Shards

  const NA: int := -1

  type Alloc = map<int, seq<nat>>

  // ---------------------------------------------------------------- smallest and largest group

  /** The group with fewest shards, the least gid among those. */
  ghost predicate IsMin(a: Alloc, g: int) {
    g in a && forall x :: x in a ==> |a[g]| < |a[x]| || (|a[g]| == |a[x]| && g <= x)
  }

  /** The group with most shards, the greatest gid among those. */
  ghost predicate IsMax(a: Alloc, g: int) {
    g in a && forall x :: x in a ==> |a[g]| > |a[x]| || (|a[g]| == |a[x]| && g >= x)
  }

  lemma {:induction false} MinExists(a: Alloc)
    requires a != map[]
    ensures exists g :: IsMin(a, g)
    decreases |a|
  {
    var x := AnyKey(a);
    var others := a - {x};
    assert a.Keys == others.Keys + {x} && forall y :: y in others ==> others[y] == a[y];
    if others == map[] {
      assert IsMin(a, x);
    } else {
      assert |a.Keys| == |others.Keys| + 1;
      MinExists(others);
      var g :| IsMin(others, g);
      assert IsMin(a, if |a[x]| < |a[g]| || (|a[x]| == |a[g]| && x < g) then x else g);
    }
  }

  lemma {:induction false} MaxExists(a: Alloc)
    requires a != map[]
    ensures exists g :: IsMax(a, g)
    decreases |a|
  {
    var x := AnyKey(a);
    var others := a - {x};
    assert a.Keys == others.Keys + {x} && forall y :: y in others ==> others[y] == a[y];
    if others == map[] {
      assert IsMax(a, x);
    } else {
      assert |a.Keys| == |others.Keys| + 1;
      MaxExists(others);
      var g :| IsMax(others, g);
      assert IsMax(a, if |a[x]| > |a[g]| || (|a[x]| == |a[g]| && x > g) then x else g);
    }
  }

  /** What `findMinMaxGidL` returns first. */
  ghost function MinGid(a: Alloc): (r: int)
    ensures a != map[] ==> IsMin(a, r)
  {
    if a == map[] then NA
    else
      MinExists(a);
      var g :| IsMin(a, g);
      g
  }

  /** What `findMinMaxGidL` returns second. */
  ghost function MaxGid(a: Alloc): (r: int)
    ensures a != map[] ==> IsMax(a, r)
  {
    if a == map[] then NA
    else
      MaxExists(a);
      var g :| IsMax(a, g);
      g
  }

  // ---------------------------------------------------------------- one move

  ghost predicate Uneven(a: Alloc) {
    a != map[] && |a[MaxGid(a)]| - |a[MinGid(a)]| > 1
  }

  /** Sizes differ by at most one. */
  ghost predicate Balanced(a: Alloc) {
    forall g, h :: g in a && h in a ==> |a[g]| <= |a[h]| + 1
  }

  lemma UnevenIffNotBalanced(a: Alloc)
    ensures Uneven(a) <==> !Balanced(a)
  {
  }

  /** The last shard of the largest group goes to the end of the smallest. */
  ghost function Shift(a: Alloc): Alloc
    requires Uneven(a)
  {
    var (lo, hi) := (MinGid(a), MaxGid(a));
    var last := |a[hi]| - 1;
    a[hi := a[hi][..last]][lo := a[lo] + [a[hi][last]]]
  }

  // ---------------------------------------------------------------- termination

  ghost function SumOfSquares(a: Alloc): nat
    decreases |a|
  {
    if a == map[] then 0
    else
      var g := AnyKey(a);
      assert a.Keys == (a - {g}).Keys + {g};
      |a[g]| * |a[g]| + SumOfSquares(a - {g})
  }

  lemma {:induction false} SumPick(a: Alloc, g: int)
    requires g in a
    ensures SumOfSquares(a) == |a[g]| * |a[g]| + SumOfSquares(a - {g})
    decreases |a|
  {
    var x := AnyKey(a);
    if x != g {
      assert a.Keys == (a - {x}).Keys + {x};
      SumPick(a - {x}, g);
      assert a.Keys == (a - {g}).Keys + {g};
      SumPick(a - {g}, x);
      assert a - {x} - {g} == a - {g} - {x};
    }
  }

  lemma ShiftFalls(a: Alloc)
    requires Uneven(a)
    ensures SumOfSquares(Shift(a)) < SumOfSquares(a)
  {
    var (lo, hi, b) := (MinGid(a), MaxGid(a), Shift(a));
    SumPick(a, lo);
    SumPick(a - {lo}, hi);
    SumPick(b, lo);
    SumPick(b - {lo}, hi);
    assert a - {lo} - {hi} == b - {lo} - {hi};
    var (p, q) := (|a[lo]|, |a[hi]|);
    assert |b[lo]| == p + 1 && |b[hi]| == q - 1;
    Squares(p, q);
  }

  lemma Squares(p: int, q: int)
    requires q - p > 1
    ensures (p + 1) * (p + 1) + (q - 1) * (q - 1) < p * p + q * q
  {
  }

  /** The loop of `rebalanceL`. */
  ghost function Rebalanced(a: Alloc): Alloc
    decreases SumOfSquares(a)
  {
    if Uneven(a) then
      ShiftFalls(a);
      Rebalanced(Shift(a))
    else a
  }

  // ---------------------------------------------------------------- nothing is lost or doubled

  ghost predicate Owns(a: Alloc, g: int, s: nat) {
    g in a && s in a[g]
  }

  /** Every group lists different shards below the number of shards, and no two groups share one. */
  ghost predicate Disjoint(a: Alloc) {
    && (forall g :: g in a ==> Distinct(a[g]) && Over(a[g], NShards))
    && (forall g, h, s: nat :: Owns(a, g, s) && Owns(a, h, s) ==> g == h)
  }

  ghost predicate Held(a: Alloc, s: nat) {
    exists g :: Owns(a, g, s)
  }

  lemma ShiftOwns(a: Alloc, g: int, s: nat)
    requires Uneven(a) && Disjoint(a)
    ensures var (lo, hi) := (MinGid(a), MaxGid(a));
      var moved := a[hi][|a[hi]| - 1];
      Owns(Shift(a), g, s) <==> if s == moved then g == lo else Owns(a, g, s)
  {
    var (lo, hi, b) := (MinGid(a), MaxGid(a), Shift(a));
    var moved := a[hi][|a[hi]| - 1];
    var kept := a[hi][..|a[hi]| - 1];
    assert lo != hi && b[lo] == a[lo] + [moved] && b[hi] == kept;
    assert a[hi] == kept + [moved] && moved !in kept;
    assert Owns(a, hi, moved);
    assert Owns(a, g, moved) ==> g == hi;
    assert g != lo && g != hi && g in a ==> b[g] == a[g];
  }

  lemma ShiftDisjoint(a: Alloc)
    requires Uneven(a) && Disjoint(a)
    ensures Disjoint(Shift(a)) && Shift(a).Keys == a.Keys
    ensures forall s: nat :: Held(Shift(a), s) <==> Held(a, s)
  {
    var b := Shift(a);
    var (lo, hi) := (MinGid(a), MaxGid(a));
    var moved := a[hi][|a[hi]| - 1];
    forall g, h, s: nat | Owns(b, g, s) && Owns(b, h, s) ensures g == h {
      ShiftOwns(a, g, s);
      ShiftOwns(a, h, s);
    }
    assert Owns(a, hi, moved);
    forall g | g in b ensures Distinct(b[g]) && Over(b[g], NShards) {
      if g == lo {
        assert !Owns(a, lo, moved);
      }
    }
    forall s: nat ensures Held(b, s) <==> Held(a, s) {
      if g :| Owns(a, g, s) {
        ShiftOwns(a, if s == moved then lo else g, s);
      }
      if g :| Owns(b, g, s) {
        ShiftOwns(a, g, s);
      }
    }
  }

  /** Rebalancing ends balanced and keeps groups, shards and disjointness. */
  lemma {:induction false} RebalancedKeeps(a: Alloc)
    requires Disjoint(a)
    ensures Balanced(Rebalanced(a)) && Disjoint(Rebalanced(a)) && Rebalanced(a).Keys == a.Keys
    ensures forall s: nat :: Held(Rebalanced(a), s) <==> Held(a, s)
    decreases SumOfSquares(a)
  {
    UnevenIffNotBalanced(a);
    hide Balanced, Disjoint, Held, Uneven;
    if Uneven(a) {
      ShiftDisjoint(a);
      ShiftFalls(a);
      RebalancedKeeps(Shift(a));
    }
  }

  // ---------------------------------------------------------------- movement

  /** Some bounds on the sizes. */
  ghost predicate SizesFrom(a: Alloc, lo: int) {
    forall g :: g in a ==> |a[g]| >= lo
  }

  ghost predicate SizesTo(a: Alloc, hi: int) {
    forall g :: g in a ==> |a[g]| <= hi
  }

  lemma ShiftSizes(a: Alloc, lo: int, hi: int)
    requires Uneven(a) && SizesFrom(a, lo) && SizesTo(a, hi)
    ensures SizesFrom(Shift(a), lo) && SizesTo(Shift(a), hi)
  {
  }

  /** A group within one of the smallest never gives a shard away. */
  lemma {:induction false} NeverGives(a: Alloc, g: int, lo: int)
    requires SizesFrom(a, lo) && g in a && |a[g]| <= lo + 1
    ensures g in Rebalanced(a) && a[g] <= Rebalanced(a)[g]
    decreases SumOfSquares(a)
  {
    if Uneven(a) {
      ShiftFalls(a);
      var b := Shift(a);
      if g == MinGid(a) {
        assert SizesFrom(a, |a[g]|);
        assert SizesFrom(b, |a[g]|);
        NeverGives(b, g, |a[g]|);
      } else {
        ShiftSizes(a, lo, |a[MaxGid(a)]|);
        NeverGives(b, g, lo);
      }
    }
  }

  /** A group within one of the largest never receives a shard. */
  lemma {:induction false} NeverReceives(a: Alloc, g: int, hi: int)
    requires SizesTo(a, hi) && g in a && |a[g]| >= hi - 1
    ensures g in Rebalanced(a) && Rebalanced(a)[g] <= a[g]
    decreases SumOfSquares(a)
  {
    if Uneven(a) {
      ShiftFalls(a);
      var b := Shift(a);
      if g == MaxGid(a) {
        assert SizesTo(a, |a[g]|);
        assert SizesTo(b, |a[g]|);
        NeverReceives(b, g, |a[g]|);
      } else {
        ShiftSizes(a, 0, hi);
        NeverReceives(b, g, hi);
      }
    }
  }

  /** No group that receives ever gives, and none that gives receives: each list only grows or only shrinks. */
  lemma {:induction false} OneWay(a: Alloc, g: int)
    requires g in a
    ensures g in Rebalanced(a) && (a[g] <= Rebalanced(a)[g] || Rebalanced(a)[g] <= a[g])
    decreases SumOfSquares(a)
  {
    if Uneven(a) {
      ShiftFalls(a);
      var b := Shift(a);
      if g == MinGid(a) {
        NeverGives(a, g, |a[g]|);
      } else if g == MaxGid(a) {
        NeverReceives(a, g, |a[g]|);
      } else {
        OneWay(b, g);
      }
    }
  }

  /** The smallest size never falls. */
  lemma {:induction false} SmallestGrows(a: Alloc, lo: int)
    requires SizesFrom(a, lo)
    ensures SizesFrom(Rebalanced(a), lo)
    decreases SumOfSquares(a)
  {
    if Uneven(a) {
      ShiftFalls(a);
      ShiftSizes(a, lo, |a[MaxGid(a)]|);
      SmallestGrows(Shift(a), lo);
    }
  }
}
