/** Go's `range` over a map, which visits the keys in no particular order. */
module MapIteration {

  /** The next key: any of those not yet visited. */
  method PickKey<K, V>(m: map<K, V>) returns (k: K)
    requires m != map[]
    ensures k in m
  {
    k :| k in m.Keys;
  }

  /** A `range` under way: what it has visited and what is left. */
  ghost predicate Visiting<K(!new), V>(all: map<K, V>, seen: map<K, V>, rest: map<K, V>) {
    && (forall k :: k in all <==> k in seen || k in rest)
    && (forall k :: k in seen ==> k !in rest && seen[k] == all[k])
    && (forall k :: k in rest ==> rest[k] == all[k])
  }

  lemma VisitStart<K(!new), V>(all: map<K, V>)
    ensures Visiting(all, map[], all)
  {
  }

  lemma VisitOne<K(!new), V>(all: map<K, V>, seen: map<K, V>, rest: map<K, V>, k: K)
    requires Visiting(all, seen, rest) && k in rest
    ensures Visiting(all, seen[k := rest[k]], rest - {k}) && |rest - {k}| < |rest|
    ensures k in all && all[k] == rest[k] && k !in seen
    ensures forall g :: g in seen[k := rest[k]] ==> g in all && seen[k := rest[k]][g] == all[g]
  {
    SmallerMap(rest, k);
  }

  lemma SmallerMap<K, V>(m: map<K, V>, k: K)
    requires k in m
    ensures |m - {k}| < |m|
  {
    assert m.Keys == (m - {k}).Keys + {k};
    assert |m.Keys| == |(m - {k}).Keys| + 1;
  }

  lemma VisitEnd<K(!new), V>(all: map<K, V>, seen: map<K, V>)
    requires Visiting(all, seen, map[])
    ensures seen == all
  {
  }

  ghost function AnyKey<K, V>(m: map<K, V>): (k: K)
    requires m != map[]
    ensures k in m
  {
    var k :| k in m.Keys;
    k
  }
}
