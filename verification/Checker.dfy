/**
 The decision procedure of labs/src/porcupine/checker.go for one partition of a history: a
 depth-first search over in-place linked entries with a cache keyed by bitsets.
 */
module Checker {
  import opened IdLists
  import opened Linearizability
  import opened Entries
  import opened LinkedEntries
  import opened Search
  import Bitset

  datatype Option<T> = None | Some(value: T)

  // ---------------------------------------------------------------- the cache

  datatype CacheEntry<S> = CacheEntry(linearized: seq<bv64>, state: S)

  datatype Key = Key(hash: bv64)

  type Cache<S> = map<Key, seq<CacheEntry<S>>>

  ghost function Meaning<S>(e: CacheEntry<S>): Seen<S> {
    Seen(Bitset.SetOf(e.linearized), e.state)
  }

  /** A bucket's entries have the bucket's hash, all bitsets are of one size, and seen lists them all. */
  ghost predicate Filed<S>(cache: Cache<S>, size: nat, seen: seq<Seen<S>>, h: Key, i: nat) {
    h in cache && i < |cache[h]| ==>
      && |cache[h][i].linearized| == size && Key(Bitset.HashOf(cache[h][i].linearized)) == h
      && Meaning(cache[h][i]) in seen
  }

  ghost predicate HeldAt<S>(cache: Cache<S>, s: Seen<S>, h: Key, i: nat) {
    h in cache && i < |cache[h]| && Meaning(cache[h][i]) == s
  }

  ghost predicate Stored<S>(cache: Cache<S>, s: Seen<S>) {
    exists h, i: nat :: HeldAt(cache, s, h, i)
  }

  ghost predicate CacheIs<S>(cache: Cache<S>, size: nat, seen: seq<Seen<S>>) {
    && (forall h, i: nat :: Filed(cache, size, seen, h, i))
    && (forall k :: 0 <= k < |seen| ==> Stored(cache, seen[k]))
  }

  /** `cacheContains`: it is enough to look at the entries with the same hash. */
  method CacheContains<S, I, O>(m: Model<S, I, O>, cache: Cache<S>, entry: CacheEntry<S>, ghost seen: seq<Seen<S>>) returns (found: bool)
    requires CacheIs(cache, |entry.linearized|, seen)
    ensures found <==> Matches(m, seen, Bitset.SetOf(entry.linearized), entry.state)
  {
    hide Bitset.HashOf, Bitset.SetOf;
    var word := Bitset.Hash(entry.linearized);
    var hash := Key(word);
    var bucket := if hash in cache then cache[hash] else [];
    for i := 0 to |bucket|
      invariant forall k :: 0 <= k < i ==> !(entry.linearized == bucket[k].linearized && m.equal(entry.state, bucket[k].state))
    {
      assert Filed(cache, |entry.linearized|, seen, hash, i);
      var same := Bitset.Equals(entry.linearized, bucket[i].linearized);
      if same && m.equal(entry.state, bucket[i].state) {
        assert Meaning(bucket[i]) in seen;
        return true;
      }
    }
    if Matches(m, seen, Bitset.SetOf(entry.linearized), entry.state) {
      ghost var k :| 0 <= k < |seen| && seen[k].done == Bitset.SetOf(entry.linearized) && m.equal(entry.state, seen[k].state);
      assert Stored(cache, seen[k]);
      ghost var h, i: nat :| HeldAt(cache, seen[k], h, i);
      assert Filed(cache, |entry.linearized|, seen, h, i);
      Bitset.SameSetSameWords(cache[h][i].linearized, entry.linearized);
    }
    return false;
  }

  method CacheAdd<S>(cache: Cache<S>, entry: CacheEntry<S>, ghost seen: seq<Seen<S>>) returns (r: Cache<S>)
    requires CacheIs(cache, |entry.linearized|, seen)
    ensures CacheIs(r, |entry.linearized|, seen + [Meaning(entry)])
  {
    hide Bitset.HashOf, Bitset.SetOf;
    var word := Bitset.Hash(entry.linearized);
    var hash := Key(word);
    r := Grown(cache, entry, hash);
    ghost var size, seen' := |entry.linearized|, seen + [Meaning(entry)];
    forall h, i: nat ensures Filed(r, size, seen', h, i) {
      AddFiled(cache, entry, seen, hash, h, i);
    }
    forall k | 0 <= k < |seen'| ensures Stored(r, seen'[k]) {
      AddStored(cache, entry, seen, hash, k);
    }
  }

  /** `append` to a bucket, which may not exist yet. */
  function Grown<K, V>(cache: map<K, seq<V>>, entry: V, hash: K): map<K, seq<V>> {
    cache[hash := (if hash in cache then cache[hash] else []) + [entry]]
  }

  lemma GrownAt<K, V>(cache: map<K, seq<V>>, entry: V, hash: K, h: K)
    ensures h in Grown(cache, entry, hash) <==> h in cache || h == hash
    ensures h != hash && h in cache ==> Grown(cache, entry, hash)[h] == cache[h]
    ensures Grown(cache, entry, hash)[hash] == (if hash in cache then cache[hash] else []) + [entry]
  {
  }

  lemma AddFiled<S>(cache: Cache<S>, entry: CacheEntry<S>, seen: seq<Seen<S>>, hash: Key, h: Key, i: nat)
    requires CacheIs(cache, |entry.linearized|, seen) && hash == Key(Bitset.HashOf(entry.linearized))
    ensures Filed(Grown(cache, entry, hash), |entry.linearized|, seen + [Meaning(entry)], h, i)
  {
    hide Bitset.HashOf, Bitset.SetOf, Grown;
    assert Filed(cache, |entry.linearized|, seen, h, i);
    GrownAt(cache, entry, hash, h);
  }

  lemma AddStored<S>(cache: Cache<S>, entry: CacheEntry<S>, seen: seq<Seen<S>>, hash: Key, k: nat)
    requires CacheIs(cache, |entry.linearized|, seen) && k < |seen + [Meaning(entry)]|
    ensures Stored(Grown(cache, entry, hash), (seen + [Meaning(entry)])[k])
  {
    hide Bitset.HashOf, Bitset.SetOf, Grown;
    var r, seen' := Grown(cache, entry, hash), seen + [Meaning(entry)];
    if k < |seen| {
      assert Stored(cache, seen[k]);
      var h, i: nat :| HeldAt(cache, seen[k], h, i);
      GrownAt(cache, entry, hash, h);
      assert HeldAt(r, seen'[k], h, i);
    } else {
      GrownAt(cache, entry, hash, hash);
      assert HeldAt(r, seen'[k], hash, |r[hash]| - 1);
    }
  }

  // ---------------------------------------------------------------- the loop's variables

  /** The frames on the stack are the call nodes of the ids with the states before them. */
  ghost predicate StackIs<S, I, O>(m: Model<S, I, O>, es: seq<Entry<I, O>>, n: nat, nodes: seq<Node<I, O>>, calls: seq<(Node<I, O>, S)>, ids: seq<nat>)
    requires Paired(es, n)
  {
    && |calls| == |ids| && Over(ids, n) && |nodes| == |es| + 1
    && forall d :: 0 <= d < |calls| ==> FrameIs(m, es, n, nodes, calls[d], ids, d)
  }

  ghost predicate FrameIs<S, I, O>(m: Model<S, I, O>, es: seq<Entry<I, O>>, n: nat, nodes: seq<Node<I, O>>, frame: (Node<I, O>, S), ids: seq<nat>, d: nat)
    requires Paired(es, n) && Over(ids, n) && d < |ids| && |nodes| == |es| + 1
  {
    && HasPair(es, ids[d]) && frame.0 == nodes[CallAt(es, ids[d]) + 1] && frame.0.id == ids[d]
    && frame.1 == StateAfter(m, Operations(es, n), ids[..d])
  }

  /** The entry under consideration is a live one, unless the list is empty. */
  ghost predicate AtIs<I, O>(es: seq<Entry<I, O>>, nodes: seq<Node<I, O>>, ids: seq<nat>, entry: Node?<I, O>, at: nat) {
    && at <= |es| + 1 && |nodes| == |es| + 1
    && if entry == null then forall p :: p in Live(es, Elements(ids)) ==> p == 0
       else 0 < at <= |es| && nodes[at] == entry && at in Live(es, Elements(ids))
  }

  /** The entry after a call of the list is the next live one; there is one, for its return is live. */
  lemma AfterCall<I, O>(es: seq<Entry<I, O>>, n: nat, ids: seq<nat>, at: nat)
    requires Paired(es, n) && Over(ids, n) && Distinct(ids) && 0 < at <= |es| && at in Live(es, Elements(ids)) && es[at - 1].Call?
    ensures var h := HeapAfter(es, n, ids);
      && at < |h.next| && at < h.next[at] <= |es| && h.next[at] in Live(es, Elements(ids))
      && forall p :: p in Live(es, Elements(ids)) ==> p <= at || h.next[at] <= p
  {
    hide Paired, DL.Linked, HeapAfter, Distinct, Over;
    HeapLinked(es, n, ids);
    LiveNext(HeapAfter(es, n, ids), Live(es, Elements(ids)), at);
    var x := es[at - 1].id;
    IdBelow(es, n, at - 1);
    PairAt(es, n, x);
    assert IsCall(es, x, at - 1);
    assert ReturnAt(es, x) + 1 in Live(es, Elements(ids));
  }

  lemma LiveNext(h: DL.Heap, live: set<nat>, p: nat)
    requires DL.Linked(h, live) && p in live
    ensures DL.NextOk(h, live, p)
  {
  }

  lemma IdBelow<I, O>(es: seq<Entry<I, O>>, n: nat, i: nat)
    requires Paired(es, n) && i < |es|
    ensures es[i].id < n
  {
  }

  /** What follows the head. */
  lemma AfterHead<I, O>(es: seq<Entry<I, O>>, n: nat, ids: seq<nat>)
    requires Paired(es, n) && Over(ids, n) && Distinct(ids)
    ensures var h := HeapAfter(es, n, ids);
      && 0 < |h.next|
      && (h.next[0] == DL.NIL ==> forall p :: p in Live(es, Elements(ids)) ==> p == 0)
      && (h.next[0] != DL.NIL ==> 0 < h.next[0] <= |es| && h.next[0] in Live(es, Elements(ids)))
      && (h.next[0] != DL.NIL ==> forall p :: p in Live(es, Elements(ids)) ==> p <= 0 || h.next[0] <= p)
  {
    hide Paired;
    HeapLinked(es, n, ids);
    assert DL.NextOk(HeapAfter(es, n, ids), Live(es, Elements(ids)), 0);
  }

  /** A node with a mate is a call, and carries its operation's input; its mate carries the output. */
  lemma CallNode<I, O>(es: seq<Entry<I, O>>, n: nat, nodes: seq<Node<I, O>>, ids: seq<nat>, at: nat)
    requires Paired(es, n) && Built(es, nodes) && 0 < at <= |es| && at in Live(es, Elements(ids)) && nodes[at].mate != null
    ensures var (node, x) := (nodes[at], es[at - 1].id);
      && node.id == x < n && x !in ids && IsCall(es, x, at - 1) && HasPair(es, x)
      && node.pos == at == CallAt(es, x) + 1 && node.mate.pos == ReturnAt(es, x) + 1
      && node.mate.pos < |nodes| && nodes[node.mate.pos] == node.mate
      && node.value.Input? && node.value.input == Operations(es, n)[x].input
      && node.mate.value.Output? && node.mate.value.output == Operations(es, n)[x].output
  {
    var x := es[at - 1].id;
    PairAt(es, n, x);
    assert NodeFor(es, nodes[at], at - 1) && MatePlaced(nodes, nodes[at], 0);
    assert IsCall(es, x, at - 1);
    assert MateFor(es, nodes[at].mate, x, nodes[at].mate.pos - 1);
  }

  lemma ReturnNode<I, O>(es: seq<Entry<I, O>>, n: nat, nodes: seq<Node<I, O>>, at: nat)
    requires Paired(es, n) && Built(es, nodes) && 0 < at <= |es| && nodes[at].mate == null
    ensures es[at - 1].id < n && IsReturn(es, es[at - 1].id, at - 1)
  {
    assert NodeFor(es, nodes[at], at - 1);
  }

  lemma BuiltNumbered<I, O>(es: seq<Entry<I, O>>, nodes: seq<Node<I, O>>)
    requires Built(es, nodes)
    ensures Numbered(nodes)
  {
    forall i | 0 <= i < |nodes| ensures nodes[i].pos == i {
      if i > 0 {
        assert NodeFor(es, nodes[i], i - 1);
      }
    }
  }

  // ---------------------------------------------------------------- sequences already tried

  ghost predicate VisitedIs<S, I, O>(m: Model<S, I, O>, ops: seq<Operation<I, O>>, visited: set<seq<nat>>, seen: seq<Seen<S>>) {
    forall p :: p in visited ==> Over(p, |ops|) && Seen(Elements(p), StateAfter(m, ops, p)) in seen
  }

  ghost function Unvisited(n: nat, visited: set<seq<nat>>): nat {
    |Sequences(n, n) - visited|
  }

  /** A call that the cache does not know makes the stack a sequence never visited. */
  lemma VisitOneMore<S(!new), I(!new), O(!new)>(m: Model<S, I, O>, ops: seq<Operation<I, O>>, ids: seq<nat>, visited: set<seq<nat>>, seen: seq<Seen<S>>)
    requires Lawful(m) && Over(ids, |ops|) && Distinct(ids) && VisitedIs(m, ops, visited, seen)
    requires !Matches(m, seen, Elements(ids), StateAfter(m, ops, ids))
    ensures Unvisited(|ops|, visited + {ids}) < Unvisited(|ops|, visited)
    ensures VisitedIs(m, ops, visited + {ids}, seen + [Seen(Elements(ids), StateAfter(m, ops, ids))])
  {
    hide Sequences, StateAfter;
    var e := Seen(Elements(ids), StateAfter(m, ops, ids));
    assert m.equal(e.state, e.state);
    assert e !in seen;
    assert ids !in visited;
    DistinctCovers(ids, |ops|);
    AllSequences(|ops|, |ops|, ids);
    var all := Sequences(|ops|, |ops|);
    assert all - (visited + {ids}) == (all - visited) - {ids};
    var seen' := seen + [e];
    assert forall s :: s in seen ==> s in seen';
    assert seen'[|seen|] == e;
  }

  // ---------------------------------------------------------------- longest

  ghost predicate LongestIs<S, I, O>(m: Model<S, I, O>, ops: seq<Operation<I, O>>, longest: seq<Option<seq<nat>>>) {
    && |longest| == |ops|
    && forall x :: 0 <= x < |longest| && longest[x].Some? ==> x in longest[x].value && Partial(m, ops, longest[x].value)
  }

  /** Every operation of the set remembers a sequence at least as long as the set is large. */
  ghost predicate Covers(longest: seq<Option<seq<nat>>>, done: set<nat>) {
    forall x :: x in done ==> x < |longest| && longest[x].Some? && |longest[x].value| >= |done|
  }

  /** All cached pairs that are no longer on the path have been recorded. */
  ghost predicate Recorded<S, I, O>(m: Model<S, I, O>, ops: seq<Operation<I, O>>, longest: seq<Option<seq<nat>>>, ids: seq<nat>, seen: seq<Seen<S>>)
    requires Over(ids, |ops|)
  {
    forall i :: 0 <= i < |seen| ==> OnPath(m, ops, ids, seen[i]) || Covers(longest, seen[i].done)
  }

  /** What every operation remembers is as long as any beginning of a possible linearization that includes it. */
  ghost predicate LongestIsMaximal<S, I, O>(m: Model<S, I, O>, ops: seq<Operation<I, O>>, longest: seq<Option<seq<nat>>>) {
    forall q, x :: Partial(m, ops, q) && x in q ==> x < |longest| && longest[x].Some? && |longest[x].value| >= |q|
  }

  lemma RecordedPush<S, I, O>(m: Model<S, I, O>, ops: seq<Operation<I, O>>, longest: seq<Option<seq<nat>>>, ids: seq<nat>, seen: seq<Seen<S>>)
    requires Over(ids, |ops|) && ids != [] && Over(ids[..|ids| - 1], |ops|) && Recorded(m, ops, longest, ids[..|ids| - 1], seen)
    ensures Recorded(m, ops, longest, ids, seen + [Seen(Elements(ids), StateAfter(m, ops, ids))])
  {
    hide OnPath, Covers, StateAfter, Elements;
    assert ids == ids[..|ids| - 1] + [ids[|ids| - 1]];
    PairPush(m, ops, ids[..|ids| - 1], ids[|ids| - 1]);
  }

  /** Recording the stack and giving up its top. */
  lemma RecordedPop<S, I, O>(m: Model<S, I, O>, ops: seq<Operation<I, O>>, longest: seq<Option<seq<nat>>>, ids: seq<nat>, seen: seq<Seen<S>>)
    requires Over(ids, |ops|) && ids != [] && Recorded(m, ops, longest, ids, seen) && Covers(longest, Elements(ids))
    ensures Over(ids[..|ids| - 1], |ops|) && Recorded(m, ops, longest, ids[..|ids| - 1], seen)
  {
    hide OnPath, Covers, StateAfter, Elements;
    assert ids == ids[..|ids| - 1] + [ids[|ids| - 1]];
    PairPush(m, ops, ids[..|ids| - 1], ids[|ids| - 1]);
  }

  lemma RecordedMore<S, I, O>(m: Model<S, I, O>, ops: seq<Operation<I, O>>, longest: seq<Option<seq<nat>>>, ids: seq<nat>, seen: seq<Seen<S>>, r: seq<Option<seq<nat>>>)
    requires Over(ids, |ops|) && Distinct(ids) && |longest| == |r| == |ops| && Recorded(m, ops, longest, ids, seen)
    requires forall x :: 0 <= x < |longest| ==>
      r[x] == if x in ids && (longest[x].None? || |ids| > |longest[x].value|) then Some(ids) else longest[x]
    ensures Recorded(m, ops, r, ids, seen) && Covers(r, Elements(ids))
  {
    hide OnPath;
    DistinctSize(ids);
    forall i | 0 <= i < |seen| && Covers(longest, seen[i].done) ensures Covers(r, seen[i].done) {
    }
  }

  /** The search has ended in vain and every pair has been recorded. */
  lemma RecordedAll<S, I, O>(m: Model<S, I, O>, ops: seq<Operation<I, O>>, longest: seq<Option<seq<nat>>>, seen: seq<Seen<S>>)
    requires Recorded(m, ops, longest, [], seen)
    requires forall q :: Partial(m, ops, q) && q != [] ==> Known(m, ops, seen, q)
    ensures LongestIsMaximal(m, ops, longest)
  {
    hide Partial, StateAfter;
    forall q, x | Partial(m, ops, q) && x in q ensures x < |longest| && longest[x].Some? && |longest[x].value| >= |q| {
      assert Known(m, ops, seen, q);
      var k := MatchAt(m, seen, Elements(q), StateAfter(m, ops, q));
      assert !OnPath(m, ops, [], seen[k]);
      assert Covers(longest, seen[k].done) && x in Elements(q);
      PartialDistinct(m, ops, q);
      DistinctSize(q);
    }
  }

  lemma PartialDistinct<S, I, O>(m: Model<S, I, O>, ops: seq<Operation<I, O>>, q: seq<nat>)
    requires Partial(m, ops, q)
    ensures Distinct(q) && Over(q, |ops|)
  {
  }

  /** Every operation on the stack remembers the stack if it is longer than what it remembers. */
  method RecordLongest<S, I, O>(calls: seq<(Node<I, O>, S)>, longest: seq<Option<seq<nat>>>, ghost ids: seq<nat>) returns (r: seq<Option<seq<nat>>>)
    requires |calls| == |ids| && Over(ids, |longest|) && forall d :: 0 <= d < |calls| ==> calls[d].0.id == ids[d]
    ensures |r| == |longest|
    ensures forall x :: 0 <= x < |longest| ==>
      r[x] == if x in ids && (longest[x].None? || |ids| > |longest[x].value|) then Some(ids) else longest[x]
  {
    r := longest;
    var taken := StackIds(calls, ids);
    for d := 0 to |calls|
      invariant |r| == |longest|
      invariant forall x :: 0 <= x < |longest| ==>
        r[x] == if x in ids[..d] && (longest[x].None? || |ids| > |longest[x].value|) then Some(ids) else longest[x]
    {
      var x := calls[d].0.id;
      assert ids[..d + 1] == ids[..d] + [x];
      if r[x].None? || |calls| > |r[x].value| {
        r := r[x := Some(taken)];
      }
    }
    assert ids[..|calls|] == ids;
  }

  /** The ids of the frames. */
  method StackIds<S, I, O>(calls: seq<(Node<I, O>, S)>, ghost ids: seq<nat>) returns (r: seq<nat>)
    requires |calls| == |ids| && forall d :: 0 <= d < |calls| ==> calls[d].0.id == ids[d]
    ensures r == ids
  {
    r := [];
    for d := 0 to |calls|
      invariant r == ids[..d]
    {
      r := r + [calls[d].0.id];
    }
  }

  // ---------------------------------------------------------------- one turn of the loop, on values

  lemma StackPush<S, I, O>(m: Model<S, I, O>, es: seq<Entry<I, O>>, n: nat, nodes: seq<Node<I, O>>, calls: seq<(Node<I, O>, S)>, ids: seq<nat>, node: Node<I, O>, x: nat)
    requires Paired(es, n) && StackIs(m, es, n, nodes, calls, ids) && x < n && HasPair(es, x)
    requires node == nodes[CallAt(es, x) + 1] && node.id == x
    ensures StackIs(m, es, n, nodes, calls + [(node, StateAfter(m, Operations(es, n), ids))], ids + [x])
  {
    hide Paired, StateAfter, HasPair;
    var s := StateAfter(m, Operations(es, n), ids);
    var calls', ids' := calls + [(node, s)], ids + [x];
    forall d | 0 <= d < |calls'| ensures FrameIs(m, es, n, nodes, calls'[d], ids', d) {
      if d < |calls| {
        assert FrameIs(m, es, n, nodes, calls[d], ids, d);
        assert ids'[..d] == ids[..d];
      } else {
        assert ids'[..d] == ids;
      }
    }
  }

  lemma StackPop<S, I, O>(m: Model<S, I, O>, es: seq<Entry<I, O>>, n: nat, nodes: seq<Node<I, O>>, calls: seq<(Node<I, O>, S)>, ids: seq<nat>)
    requires Paired(es, n) && StackIs(m, es, n, nodes, calls, ids) && ids != []
    ensures StackIs(m, es, n, nodes, calls[..|calls| - 1], ids[..|ids| - 1])
    ensures FrameIs(m, es, n, nodes, calls[|calls| - 1], ids, |ids| - 1)
  {
    hide Paired, StateAfter, HasPair;
    var k := |calls| - 1;
    forall d | 0 <= d < k ensures FrameIs(m, es, n, nodes, calls[..k][d], ids[..k], d) {
      assert FrameIs(m, es, n, nodes, calls[d], ids, d);
      assert ids[..k][..d] == ids[..d];
    }
    assert FrameIs(m, es, n, nodes, calls[k], ids, k);
  }

  lemma LongestGrows<S, I, O>(m: Model<S, I, O>, ops: seq<Operation<I, O>>, longest: seq<Option<seq<nat>>>, ids: seq<nat>, r: seq<Option<seq<nat>>>)
    requires LongestIs(m, ops, longest) && Partial(m, ops, ids) && |r| == |longest|
    requires forall x :: 0 <= x < |longest| ==> r[x] == longest[x] || (x in ids && r[x] == Some(ids))
    ensures LongestIs(m, ops, r)
  {
    hide Partial;
  }

  lemma StartBuilt<I, O>(es: seq<Entry<I, O>>, head: Node<I, O>, tail: seq<Node<I, O>>)
    requires Nodes(es, 0, tail) && head.pos == 0 && head.mate == null
    ensures Built(es, [head] + tail)
  {
    var nodes := [head] + tail;
    forall p | 0 < p < |nodes| ensures NodeFor(es, nodes[p], p - 1) && MatePlaced(nodes, nodes[p], 0) {
      assert NodeFor(es, tail[p - 1], p - 1) && MatePlaced(tail, tail[p - 1], 1);
    }
  }

  lemma StartMirrors<I, O>(nodes: seq<Node<I, O>>)
    requires Chain(nodes) && nodes != []
    ensures Mirrors(nodes, DL.Chain(|nodes| - 1))
  {
    forall i | 0 <= i < |nodes|
      ensures Points(nodes, nodes[i].next, DL.Chain(|nodes| - 1).next[i]) && Points(nodes, nodes[i].prev, DL.Chain(|nodes| - 1).prev[i])
    {
      assert Chained(nodes, i);
    }
  }

  // ---------------------------------------------------------------- checkSingle

  /** The loop's variables. */
  class Searcher<S(!new), I(!new), O(!new)> {
    const m: Model<S, I, O>
    const head: Node<I, O>
    const linearized: array<bv64>
    var entry: Node?<I, O>
    var state: S
    var cache: Cache<S>
    var calls: seq<(Node<I, O>, S)>

    /** The history, the number of its operations and the nodes of its entries. */
    ghost const es: seq<Entry<I, O>>
    ghost const n: nat
    ghost const nodes: seq<Node<I, O>>
    /** The ids on the stack, the place of the entry, the cached pairs and the sequences visited. */
    ghost var ids: seq<nat>
    ghost var at: nat
    ghost var seen: seq<Seen<S>>
    ghost var visited: set<seq<nat>>

    ghost predicate Fixed() {
      && Lawful(m) && Paired(es, n) && Built(es, nodes) && Numbered(nodes) && |nodes| == |es| + 1 && nodes[0] == head
      && n <= 64 * linearized.Length
    }

    ghost predicate Valid()
      reads this, nodes, linearized
    {
      && Fixed()
      && Over(ids, n) && Distinct(ids)
      && StackIs(m, es, n, nodes, calls, ids) && state == StateAfter(m, Operations(es, n), ids)
      && Knows(m, es, n, ids, at, seen) && AtIs(es, nodes, ids, entry, at)
      && Mirrors(nodes, HeapAfter(es, n, ids))
      && Bitset.SetOf(linearized[..]) == Elements(ids)
      && CacheIs(cache, linearized.Length, seen) && VisitedIs(m, Operations(es, n), visited, seen)
    }

    constructor (m: Model<S, I, O>, head: Node<I, O>, root: Node?<I, O>, n: nat, linearized: array<bv64>,
                 ghost es: seq<Entry<I, O>>, ghost nodes: seq<Node<I, O>>)
      requires Lawful(m) && Paired(es, n) && Built(es, nodes) && Chain(nodes) && nodes[0] == head
      requires root == if es == [] then null else nodes[1]
      requires n <= 64 * linearized.Length && Bitset.SetOf(linearized[..]) == {}
      ensures Valid() && this.m == m && this.head == head && this.linearized == linearized
      ensures this.es == es && this.n == n && this.nodes == nodes && ids == [] && seen == []
    {
      this.m, this.head, this.linearized, this.es, this.n, this.nodes := m, head, linearized, es, n, nodes;
      entry, state, cache, calls := root, m.init, map[], [];
      ids, at, seen, visited := [], 1, [], {};
      new;
      hide Lawful, Paired, Built, Knows, Live, Mirrors, DL.Chain, Operations;
      BuiltNumbered(es, nodes);
      KnowsStart(m, es, n);
      StartMirrors(nodes);
      StartAt(es, nodes);
    }

    /** While the list is not empty, the entry is one of its nodes. */
    lemma EntryLive()
      requires Valid()
      ensures head.next != null ==> entry != null && entry.pos == at && 0 < at <= |es| && nodes[at] == entry && at in Live(es, Elements(ids))
      ensures head.next == null ==> forall p :: p in Live(es, Elements(ids)) ==> p == 0
    {
      hide Lawful, Paired, Built, Knows, Live, StackIs, CacheIs, VisitedIs, HeapAfter, Operations;
      AfterHead(es, n, ids);
      assert Points(nodes, head.next, HeapAfter(es, n, ids).next[0]);
    }

    /** `entry = entry.next`, after a call that leads nowhere. */
    method NextEntry()
      requires Valid() && head.next != null && entry != null && entry.mate != null
      requires es[at - 1].id < n && Futile(m, Operations(es, n), ids, es[at - 1].id)
      requires Followed(m, Operations(es, n), seen, Elements(ids), state, es[at - 1].id)
      modifies this`entry, this`at
      ensures Valid() && at > old(at)
    {
      hide Lawful, Paired, Built, Knows, Live, StackIs, CacheIs, VisitedIs, HeapAfter, Operations, Futile, StateAfter, Followed;
      EntryLive();
      CallNode(es, n, nodes, ids, at);
      AfterCall(es, n, ids, at);
      ghost var next := HeapAfter(es, n, ids).next[at];
      KnowsNext(m, es, n, ids, at, seen, es[at - 1].id, next);
      assert Points(nodes, nodes[at].next, next);
      entry := entry.next;
      at := next;
    }

    /** The call is taken: remembered in the cache, pushed on the stack and lifted out of the list. */
    method TakeCall(newLinearized: seq<bv64>, newState: S)
      requires Valid() && head.next != null && entry != null && entry.mate != null
      requires es[at - 1].id < n && Step(m, Operations(es, n), state, es[at - 1].id) == (true, newState)
      requires |newLinearized| == linearized.Length && Bitset.SetOf(newLinearized) == Elements(ids + [es[at - 1].id])
      requires !Matches(m, seen, Elements(ids + [es[at - 1].id]), newState)
      modifies this, nodes, linearized
      ensures Valid() && Unvisited(n, visited) < Unvisited(n, old(visited))
      ensures Pushed(old(ids), old(seen))
    {
      hide *;
      EntryLive();
      FixedParts();
      ghost var x := es[at - 1].id;
      ghost var ids' := ids + [x];
      CallNode(es, n, nodes, ids, at);
      PushOnStack(m, es, n, nodes, calls, ids, at, x, newState);
      PushKnows(m, es, n, ids, at, seen, visited, x, newState);
      HeapPush(es, n, ids, x);
      RestPush(Operations(es, n), ids, x);
      calls := calls + [(entry, state)];
      state := newState;
      Mark(entry.id, newLinearized);
      Lift(entry, nodes, HeapAfter(es, n, ids));
      FirstIs(es, n, nodes, ids');
      visited := visited + {ids'};
      entry := head.next;
      at := First(es, n, ids');
      ids := ids';
      MakeValid();
      IsPushed(this, old(ids), old(seen));
    }

    /** The stack has one id more and the cache its pair. */
    ghost predicate Pushed(before: seq<nat>, known: seq<Seen<S>>)
      requires Paired(es, n)
      reads this
    {
      && ids != [] && Over(ids, n) && before == ids[..|ids| - 1]
      && seen == known + [Seen(Elements(ids), StateAfter(m, Operations(es, n), ids))]
    }

    /** The pair goes into the cache and the id into the set. */
    method Mark(id: nat, newLinearized: seq<bv64>)
      requires CacheIs(cache, linearized.Length, seen) && |newLinearized| == linearized.Length && id < 64 * linearized.Length
      modifies this`cache, this`seen, linearized
      ensures CacheIs(cache, linearized.Length, seen) && seen == old(seen) + [Seen(Bitset.SetOf(newLinearized), state)]
      ensures Bitset.SetOf(linearized[..]) == Bitset.SetOf(old(linearized[..])) + {id}
    {
      hide *;
      MeaningIs(newLinearized, state);
      cache := CacheAdd(cache, CacheEntry(newLinearized, state), seen);
      seen := seen + [Seen(Bitset.SetOf(newLinearized), state)];
      Bitset.Set(linearized, id);
    }

    /** A call entry: take it if the model accepts it and the cache does not know where it leads. */
    method Consider()
      requires Valid() && head.next != null && entry != null && entry.mate != null
      modifies this, nodes, linearized
      ensures Valid()
      ensures (Unvisited(n, visited) < Unvisited(n, old(visited)) && Pushed(old(ids), old(seen))) ||
        (visited == old(visited) && ids == old(ids) && seen == old(seen) && at > old(at))
    {
      hide *;
      EntryLive();
      FixedParts();
      CallNode(es, n, nodes, ids, at);
      ghost var x := es[at - 1].id;
      var (ok, newState) := m.step(state, entry.value.input, entry.mate.value.output);
      assert Step(m, Operations(es, n), state, x) == (ok, newState) by { StepIs(m, Operations(es, n), state, x); }
      if ok {
        var newLinearized := Bitset.Clone(linearized);
        Bitset.Set(newLinearized, entry.id);
        RestPush(Operations(es, n), ids, x);
        var words := newLinearized[..];
        var found := CacheContains(m, cache, CacheEntry(words, newState), seen);
        if !found {
          TakeCall(words, newState);
        } else {
          FoundIsFutile(m, es, n, ids, at, seen, x, newState);
          NextEntry();
        }
      } else {
        RefusedIsFutile(m, Operations(es, n), ids, seen, x);
        NextEntry();
      }
    }

    /** The top of the stack is given up; the search goes on with the entry after its call. */
    method BackUp()
      requires Valid() && head.next != null && entry != null && entry.mate == null && calls != []
      modifies this, nodes, linearized
      ensures Valid() && visited == old(visited) && seen == old(seen)
      ensures old(ids) != [] && ids == old(ids[..|ids| - 1])
    {
      hide *;
      EntryLive();
      FixedParts();
      PopStack(m, es, n, nodes, calls, ids);
      ghost var front, x := ids[..|calls| - 1], ids[|calls| - 1];
      PopKnows(m, es, n, nodes, ids, at, seen);
      var callsTop := calls[|calls| - 1];
      entry, state := callsTop.0, callsTop.1;
      Bitset.Clear(linearized, entry.id);
      calls := calls[..|calls| - 1];
      PopNode(es, n, nodes, front, x);
      Unlift(entry, nodes, HeapAfter(es, n, ids));
      NextIs(es, n, nodes, front, CallAt(es, x) + 1);
      entry := entry.next;
      at := Following(es, n, front, CallAt(es, x) + 1);
      ids := front;
      MakeValid();
    }

    /** The frames on the stack spell the beginning of a possible linearization. */
    lemma Frames()
      requires Valid()
      ensures Paired(es, n) && Partial(m, Operations(es, n), ids)
      ensures |calls| == |ids| && forall d :: 0 <= d < |calls| ==> calls[d].0.id == ids[d]
    {
      hide *;
      FixedParts();
      FrameIds(m, es, n, nodes, calls, ids);
      KnowsPartial(m, es, n, ids, at, seen);
    }

    /** When the empty stack has reached a return, there is no linearization, and the cache knows every beginning of one. */
    lemma Exhausted()
      requires Valid() && head.next != null && entry != null && entry.mate == null && calls == []
      ensures Paired(es, n) && !Linearizable(m, Operations(es, n)) && ids == []
      ensures forall q :: Partial(m, Operations(es, n), q) && q != [] ==> Known(m, Operations(es, n), seen, q)
    {
      hide *;
      EntryLive();
      FixedParts();
      Frames();
      KnowsPartial(m, es, n, ids, at, seen);
      ReturnNode(es, n, nodes, at);
      NoLinearization(m, es, n, at, es[at - 1].id);
      ghost var ops := Operations(es, n);
      ExploresNext(m, ops, ids, at, seen, at);
      TopIsClosed(m, es, n, ids, at, seen, es[at - 1].id);
      StartPair(m, ops);
      forall q | Partial(m, ops, q) && q != [] ensures Known(m, ops, seen, q) {
        AllExplored(m, ops, at, seen, q);
        IsKnown(m, ops, seen, q);
      }
    }

    /** When the list is empty, the stack is a linearization. */
    lemma Complete()
      requires Valid() && head.next == null
      ensures Paired(es, n) && Linearization(m, Operations(es, n), ids)
    {
      hide *;
      EntryLive();
      FixedParts();
      Frames();
      StackIsLinearization(m, es, n, ids);
    }

    lemma FixedParts()
      requires Valid()
      ensures Fixed() && Lawful(m) && Paired(es, n) && Built(es, nodes) && Numbered(nodes) && |nodes| == |es| + 1 && nodes[0] == head
      ensures n <= 64 * linearized.Length && Over(ids, n) && Distinct(ids)
      ensures StackIs(m, es, n, nodes, calls, ids) && state == StateAfter(m, Operations(es, n), ids)
      ensures Knows(m, es, n, ids, at, seen) && AtIs(es, nodes, ids, entry, at) && Mirrors(nodes, HeapAfter(es, n, ids))
      ensures Bitset.SetOf(linearized[..]) == Elements(ids)
      ensures CacheIs(cache, linearized.Length, seen) && VisitedIs(m, Operations(es, n), visited, seen)
    {
      hide Lawful, Paired, Built, Numbered, Knows, Live, StackIs, CacheIs, VisitedIs, HeapAfter, Operations, StateAfter, Mirrors,
        Bitset.SetOf, Elements, AtIs, Distinct;
    }

    lemma MakeValid()
      requires Fixed() && Paired(es, n) && Over(ids, n) && Distinct(ids)
      requires StackIs(m, es, n, nodes, calls, ids) && state == StateAfter(m, Operations(es, n), ids)
      requires Knows(m, es, n, ids, at, seen) && AtIs(es, nodes, ids, entry, at) && Mirrors(nodes, HeapAfter(es, n, ids))
      requires Bitset.SetOf(linearized[..]) == Elements(ids)
      requires CacheIs(cache, linearized.Length, seen) && VisitedIs(m, Operations(es, n), visited, seen)
      ensures Valid()
    {
      hide Lawful, Paired, Built, Numbered, Knows, Live, StackIs, CacheIs, VisitedIs, HeapAfter, Operations, StateAfter, Mirrors,
        Bitset.SetOf, Elements, AtIs, Distinct;
    }
  }

  /** The live entry after a call. */
  ghost function Following<I, O>(es: seq<Entry<I, O>>, n: nat, ids: seq<nat>, at: nat): nat
    requires Paired(es, n) && Over(ids, n)
  {
    var h := HeapAfter(es, n, ids);
    if at < |h.next| && h.next[at] > 0 then h.next[at] else |es| + 1
  }

  lemma NextIs<I, O>(es: seq<Entry<I, O>>, n: nat, nodes: seq<Node<I, O>>, ids: seq<nat>, at: nat)
    requires Paired(es, n) && Over(ids, n) && Distinct(ids) && |nodes| == |es| + 1 && Mirrors(nodes, HeapAfter(es, n, ids))
    requires 0 < at <= |es| && at in Live(es, Elements(ids)) && es[at - 1].Call?
    ensures AtIs(es, nodes, ids, nodes[at].next, Following(es, n, ids, at))
  {
    hide Paired, Live, HeapAfter, Distinct;
    AfterCall(es, n, ids, at);
    assert Points(nodes, nodes[at].next, HeapAfter(es, n, ids).next[at]);
  }

  lemma PopStack<S, I, O>(m: Model<S, I, O>, es: seq<Entry<I, O>>, n: nat, nodes: seq<Node<I, O>>, calls: seq<(Node<I, O>, S)>, ids: seq<nat>)
    requires Paired(es, n) && StackIs(m, es, n, nodes, calls, ids) && calls != [] && Over(ids, n) && Distinct(ids)
    ensures |calls| == |ids| && |nodes| == |es| + 1
    ensures var (front, x, top) := (ids[..|calls| - 1], ids[|calls| - 1], calls[|calls| - 1]);
      && Over(front, n) && Distinct(front) && x !in front && x < n && HasPair(es, x) && ids == front + [x]
      && StackIs(m, es, n, nodes, calls[..|calls| - 1], front)
      && top.0 == nodes[CallAt(es, x) + 1] && top.0.id == x && top.1 == StateAfter(m, Operations(es, n), front)
      && Elements(front) == Elements(ids) - {x}
  {
    hide Paired, HasPair, StateAfter, Operations;
    StackPop(m, es, n, nodes, calls, ids);
  }

  lemma LastApart(ids: seq<nat>, n: nat)
    requires ids != [] && Over(ids, n) && Distinct(ids)
    ensures var (front, x) := (ids[..|ids| - 1], ids[|ids| - 1]);
      ids == front + [x] && Over(front, n) && Distinct(front) && x !in front && x < n
  {
  }

  lemma PopKnows<S(!new), I(!new), O(!new)>(m: Model<S, I, O>, es: seq<Entry<I, O>>, n: nat, nodes: seq<Node<I, O>>, ids: seq<nat>, at: nat, seen: seq<Seen<S>>)
    requires Lawful(m) && Paired(es, n) && Built(es, nodes) && Over(ids, n) && Distinct(ids) && ids != [] && Knows(m, es, n, ids, at, seen)
    requires 0 < at <= |es| && at in Live(es, Elements(ids)) && nodes[at].mate == null
    ensures var (front, x) := (ids[..|ids| - 1], ids[|ids| - 1]);
      && Over(front, n) && HasPair(es, x) && Knows(m, es, n, front, Following(es, n, front, CallAt(es, x) + 1), seen)
  {
    hide *;
    LastApart(ids, n);
    var front, x, y := ids[..|ids| - 1], ids[|ids| - 1], es[at - 1].id;
    ReturnNode(es, n, nodes, at);
    KnowsPop(m, es, n, front, x, at, seen, y);
    LivePush(es, n, front, x);
    var c := CallAt(es, x) + 1;
    CallIs(es, x, c - 1);
    AfterCall(es, n, front, c);
    FollowingIs(es, n, front, c);
    KnowsNext(m, es, n, front, c, seen, x, Following(es, n, front, c));
  }

  lemma CallIs<I, O>(es: seq<Entry<I, O>>, x: nat, i: nat)
    requires IsCall(es, x, i)
    ensures i < |es| && es[i].Call? && es[i].id == x
  {
  }

  lemma FollowingIs<I, O>(es: seq<Entry<I, O>>, n: nat, ids: seq<nat>, at: nat)
    requires Paired(es, n) && Over(ids, n) && at < |HeapAfter(es, n, ids).next| && at < HeapAfter(es, n, ids).next[at]
    ensures Following(es, n, ids, at) == HeapAfter(es, n, ids).next[at]
  {
    hide HeapAfter, Paired, Over;
  }

  lemma PopNode<I, O>(es: seq<Entry<I, O>>, n: nat, nodes: seq<Node<I, O>>, front: seq<nat>, x: nat)
    requires Paired(es, n) && Built(es, nodes) && Numbered(nodes) && Over(front, n) && Distinct(front) && x < n && x !in front
    ensures Over(front + [x], n) && HasPair(es, x)
    ensures var (h, node) := (HeapAfter(es, n, front + [x]), nodes[CallAt(es, x) + 1]);
      && node.pos == CallAt(es, x) + 1 && node.mate != null && node.mate.pos < |nodes| && nodes[node.mate.pos] == node.mate
      && DL.Unliftable(h, node.pos, node.mate.pos) && DL.Unlift(h, node.pos, node.mate.pos) == HeapAfter(es, n, front)
      && node.pos <= |es| && node.pos in Live(es, Elements(front)) && es[node.pos - 1].Call?
  {
    hide HeapAfter, Over, Distinct, Live, DL.Unliftable, DL.Unlift, HasPair, Operations, Paired;
    LivePush(es, n, front, x);
    HeapPush(es, n, front, x);
    var c := CallAt(es, x) + 1;
    assert IsCall(es, x, c - 1);
    assert NodeFor(es, nodes[c], c - 1);
    CallNode(es, n, nodes, front, c);
  }

  lemma StepIs<S, I, O>(m: Model<S, I, O>, ops: seq<Operation<I, O>>, s: S, x: nat)
    requires x < |ops|
    ensures Step(m, ops, s, x) == m.step(s, ops[x].input, ops[x].output)
  {
  }

  lemma MeaningIs<S>(words: seq<bv64>, s: S)
    ensures Meaning(CacheEntry(words, s)) == Seen(Bitset.SetOf(words), s)
  {
  }

  lemma PushOnStack<S, I, O>(m: Model<S, I, O>, es: seq<Entry<I, O>>, n: nat, nodes: seq<Node<I, O>>, calls: seq<(Node<I, O>, S)>, ids: seq<nat>, at: nat, x: nat, newState: S)
    requires Paired(es, n) && StackIs(m, es, n, nodes, calls, ids) && Over(ids, n) && Distinct(ids) && x < n && x !in ids && HasPair(es, x)
    requires at < |nodes| && at == CallAt(es, x) + 1 && nodes[at].id == x
    requires Step(m, Operations(es, n), StateAfter(m, Operations(es, n), ids), x) == (true, newState)
    ensures Over(ids + [x], n) && Distinct(ids + [x])
    ensures StackIs(m, es, n, nodes, calls + [(nodes[at], StateAfter(m, Operations(es, n), ids))], ids + [x])
    ensures StateAfter(m, Operations(es, n), ids + [x]) == newState
  {
    hide *;
    DistinctPush(ids, x);
    StatePush(m, Operations(es, n), ids, x);
    StackPush(m, es, n, nodes, calls, ids, nodes[at], x);
  }

  /** Where the search starts again: the first live entry, or past the end. */
  ghost function First<I, O>(es: seq<Entry<I, O>>, n: nat, ids: seq<nat>): nat
    requires Paired(es, n) && Over(ids, n)
  {
    var h := HeapAfter(es, n, ids);
    if |h.next| > 0 && h.next[0] > 0 then h.next[0] else |es| + 1
  }

  lemma FirstGap<I, O>(es: seq<Entry<I, O>>, n: nat, ids: seq<nat>)
    requires Paired(es, n) && Over(ids, n) && Distinct(ids)
    ensures forall p :: p in Live(es, Elements(ids)) ==> p <= 0 || First(es, n, ids) <= p
  {
    hide Paired, Live, HeapAfter, Distinct;
    AfterHead(es, n, ids);
  }

  lemma FirstIs<I, O>(es: seq<Entry<I, O>>, n: nat, nodes: seq<Node<I, O>>, ids: seq<nat>)
    requires Paired(es, n) && Over(ids, n) && Distinct(ids) && |nodes| == |es| + 1 && Mirrors(nodes, HeapAfter(es, n, ids))
    ensures AtIs(es, nodes, ids, nodes[0].next, First(es, n, ids))
  {
    hide Paired, Live, HeapAfter, Distinct;
    AfterHead(es, n, ids);
    FirstPlace(es, nodes, ids, HeapAfter(es, n, ids));
  }

  lemma PushKnows<S(!new), I(!new), O(!new)>(m: Model<S, I, O>, es: seq<Entry<I, O>>, n: nat, ids: seq<nat>, at: nat, seen: seq<Seen<S>>, visited: set<seq<nat>>, x: nat, newState: S)
    requires Lawful(m) && Paired(es, n) && Over(ids, n) && Distinct(ids) && x < n && x !in ids
    requires at > 0 && IsCall(es, x, at - 1) && at in Live(es, Elements(ids)) && Knows(m, es, n, ids, at, seen)
    requires Step(m, Operations(es, n), StateAfter(m, Operations(es, n), ids), x) == (true, newState)
    requires VisitedIs(m, Operations(es, n), visited, seen) && !Matches(m, seen, Elements(ids + [x]), newState)
    ensures Over(ids + [x], n)
    ensures Knows(m, es, n, ids + [x], First(es, n, ids + [x]), seen + [Seen(Elements(ids + [x]), newState)])
    ensures VisitedIs(m, Operations(es, n), visited + {ids + [x]}, seen + [Seen(Elements(ids + [x]), newState)])
    ensures Unvisited(n, visited + {ids + [x]}) < Unvisited(n, visited)
  {
    hide *;
    DistinctPush(ids, x);
    StatePush(m, Operations(es, n), ids, x);
    FirstGap(es, n, ids + [x]);
    KnowsPush(m, es, n, ids, at, seen, x, First(es, n, ids + [x]));
    VisitOneMore(m, Operations(es, n), ids + [x], visited, seen);
  }

  lemma DistinctPush(ids: seq<nat>, x: nat)
    requires Distinct(ids) && x !in ids
    ensures Distinct(ids + [x])
  {
  }

  /** After the head comes the first live node, or nothing. */
  lemma FirstPlace<I, O>(es: seq<Entry<I, O>>, nodes: seq<Node<I, O>>, ids: seq<nat>, h: DL.Heap)
    requires |nodes| == |es| + 1 && Mirrors(nodes, h)
    requires h.next[0] == DL.NIL ==> forall p :: p in Live(es, Elements(ids)) ==> p == 0
    requires h.next[0] != DL.NIL ==> 0 < h.next[0] <= |es| && h.next[0] in Live(es, Elements(ids))
    ensures AtIs(es, nodes, ids, nodes[0].next, if h.next[0] == DL.NIL then |es| + 1 else h.next[0])
  {
    assert Points(nodes, nodes[0].next, h.next[0]);
  }

  lemma StartAt<I, O>(es: seq<Entry<I, O>>, nodes: seq<Node<I, O>>)
    requires |nodes| == |es| + 1
    ensures AtIs(es, nodes, [], if es == [] then null else nodes[1], 1)
  {
  }

  lemma FrameIds<S, I, O>(m: Model<S, I, O>, es: seq<Entry<I, O>>, n: nat, nodes: seq<Node<I, O>>, calls: seq<(Node<I, O>, S)>, ids: seq<nat>)
    requires Paired(es, n) && StackIs(m, es, n, nodes, calls, ids)
    ensures |calls| == |ids| && forall d :: 0 <= d < |calls| ==> calls[d].0.id == ids[d]
  {
    hide Paired, HasPair, StateAfter;
    forall d | 0 <= d < |calls| ensures calls[d].0.id == ids[d] {
      assert FrameIs(m, es, n, nodes, calls[d], ids, d);
    }
  }

  lemma KnowsPartial<S, I, O>(m: Model<S, I, O>, es: seq<Entry<I, O>>, n: nat, ids: seq<nat>, at: nat, seen: seq<Seen<S>>)
    requires Paired(es, n) && Knows(m, es, n, ids, at, seen)
    ensures Partial(m, Operations(es, n), ids) && Tried(m, Operations(es, n), ids, at)
    ensures CacheExplained(m, Operations(es, n), ids, seen) && Explores(m, Operations(es, n), ids, at, seen)
  {
    hide Partial, Tried, CacheExplained, Explores, PathTried, OnlyCallsBefore;
  }

  /** The cache holds the operations of the sequence, with a state that the model calls equal. */
  ghost predicate Known<S, I, O>(m: Model<S, I, O>, ops: seq<Operation<I, O>>, seen: seq<Seen<S>>, q: seq<nat>) {
    Over(q, |ops|) && Matches(m, seen, Elements(q), StateAfter(m, ops, q))
  }

  lemma IsKnown<S, I, O>(m: Model<S, I, O>, ops: seq<Operation<I, O>>, seen: seq<Seen<S>>, q: seq<nat>)
    requires Over(q, |ops|) && Matches(m, seen, Elements(q), StateAfter(m, ops, q))
    ensures Known(m, ops, seen, q)
  {
  }

  /** A pair found in the cache: taking the call is futile. */
  lemma FoundIsFutile<S(!new), I(!new), O(!new)>(m: Model<S, I, O>, es: seq<Entry<I, O>>, n: nat, ids: seq<nat>, at: nat, seen: seq<Seen<S>>, x: nat, s: S)
    requires Lawful(m) && Paired(es, n) && Over(ids, n) && Distinct(ids) && x < n && x !in ids && Knows(m, es, n, ids, at, seen)
    requires s == Step(m, Operations(es, n), StateAfter(m, Operations(es, n), ids), x).1
    requires Matches(m, seen, Elements(ids + [x]), s)
    ensures Futile(m, Operations(es, n), ids, x)
    ensures Followed(m, Operations(es, n), seen, Elements(ids), StateAfter(m, Operations(es, n), ids), x)
  {
    hide Lawful, Paired, Knows, Elements, Step, StateAfter, Futile, Distinct, Matches, Minimal;
    RestPush(Operations(es, n), ids, x);
    KnowsPartial(m, es, n, ids, at, seen);
    var k := MatchAt(m, seen, Elements(ids + [x]), s);
    CachedIsDead(m, Operations(es, n), ids, x, seen, k);
  }

  lemma RefusedIsFutile<S, I, O>(m: Model<S, I, O>, ops: seq<Operation<I, O>>, ids: seq<nat>, seen: seq<Seen<S>>, x: nat)
    requires Over(ids, |ops|) && x < |ops| && !Step(m, ops, StateAfter(m, ops, ids), x).0
    ensures Futile(m, ops, ids, x) && Followed(m, ops, seen, Elements(ids), StateAfter(m, ops, ids), x)
  {
  }

  ghost predicate AllAre(longest: seq<Option<seq<nat>>>, p: seq<nat>) {
    forall x :: 0 <= x < |longest| ==> longest[x] == Some(p)
  }

  lemma FullLongest<S, I, O>(m: Model<S, I, O>, ops: seq<Operation<I, O>>, p: seq<nat>, longest: seq<Option<seq<nat>>>)
    requires Partial(m, ops, p) && Linearization(m, ops, p) && |longest| == |ops| && AllAre(longest, p)
    ensures LongestIs(m, ops, longest)
  {
    hide Partial;
    forall x | 0 <= x < |longest| ensures x in longest[x].value {
      assert x in Ids(|ops|);
      assert x in Elements(p);
    }
  }

  /**
   Decides linearizability: it stops on every well-formed history, answers true exactly when a
   linearization exists, then gives one, and every order it records is the beginning of a
   possible linearization that includes the operation it is recorded for.  If asked for them, it
   records the longest such orders.
   */
  method CheckSingle<S(!new), I(!new), O(!new)>(m: Model<S, I, O>, history: seq<Entry<I, O>>, computePartial: bool)
    returns (ok: bool, longest: seq<Option<seq<nat>>>)
    requires Lawful(m) && Paired(history, |history| / 2)
    ensures ok <==> Linearizable(m, Operations(history, |history| / 2))
    ensures ok ==> exists p :: Linearization(m, Operations(history, |history| / 2), p) && AllAre(longest, p)
    ensures LongestIs(m, Operations(history, |history| / 2), longest)
    ensures ok || computePartial ==> LongestIsMaximal(m, Operations(history, |history| / 2), longest)
  {
    hide *;
    var s := Setup(m, history);
    ghost var ops := Operations(history, |history| / 2);
    longest := seq(|history| / 2, _ => None);
    NoLongest(m, ops, longest);
    NothingRecorded(m, ops, longest, s.ids, s.seen);
    while s.head.next != null
      invariant fresh(s) && fresh(s.nodes) && fresh(s.linearized)
      invariant s.m == m && s.es == history && s.n == |history| / 2 && s.Valid()
      invariant LongestIs(m, ops, longest) && Over(s.ids, |ops|)
      invariant computePartial ==> Recorded(m, ops, longest, s.ids, s.seen)
      decreases Unvisited(s.n, s.visited), |s.ids|, |history| + 2 - s.at
    {
      s.EntryLive();
      if s.entry.mate != null {
        ghost var (before, known) := (s.ids, s.seen);
        s.Consider();
        StackOver(s);
        if computePartial && s.Pushed(before, known) {
          PushedIs(s, before, known);
          RecordedPush(m, ops, longest, s.ids, known);
        }
      } else {
        if |s.calls| == 0 {
          s.Exhausted();
          if computePartial {
            RecordedAll(m, ops, longest, s.seen);
          }
          return false, longest;
        }
        s.Frames();
        if computePartial {
          longest := Remember(m, ops, s.calls, longest, s.ids, s.seen);
          RecordedPop(m, ops, longest, s.ids, s.seen);
        }
        s.BackUp();
        StackOver(s);
      }
    }
    s.Complete();
    s.Frames();
    var order := StackIds(s.calls, s.ids);
    longest := seq(|history| / 2, _ => Some(order));
    Finished(m, ops, order, longest);
    return true, longest;
  }

  lemma StackOver<S(!new), I(!new), O(!new)>(s: Searcher<S, I, O>)
    requires s.Valid()
    ensures Paired(s.es, s.n) && Over(s.ids, |Operations(s.es, s.n)|)
  {
    hide *;
    s.FixedParts();
  }

  lemma IsPushed<S(!new), I(!new), O(!new)>(s: Searcher<S, I, O>, before: seq<nat>, known: seq<Seen<S>>)
    requires Paired(s.es, s.n) && s.ids != [] && Over(s.ids, s.n) && s.ids == before + [s.ids[|s.ids| - 1]]
    requires s.seen == known + [Seen(Elements(s.ids), StateAfter(s.m, Operations(s.es, s.n), s.ids))]
    ensures s.Pushed(before, known)
  {
  }

  lemma PushedIs<S(!new), I(!new), O(!new)>(s: Searcher<S, I, O>, before: seq<nat>, known: seq<Seen<S>>)
    requires Paired(s.es, s.n) && s.Pushed(before, known)
    ensures s.ids != [] && Over(s.ids, s.n) && before == s.ids[..|s.ids| - 1]
    ensures s.seen == known + [Seen(Elements(s.ids), StateAfter(s.m, Operations(s.es, s.n), s.ids))]
  {
  }

  lemma NoLongest<S, I, O>(m: Model<S, I, O>, ops: seq<Operation<I, O>>, longest: seq<Option<seq<nat>>>)
    requires |longest| == |ops| && forall x :: 0 <= x < |longest| ==> longest[x].None?
    ensures LongestIs(m, ops, longest)
  {
  }

  lemma Finished<S, I, O>(m: Model<S, I, O>, ops: seq<Operation<I, O>>, p: seq<nat>, longest: seq<Option<seq<nat>>>)
    requires Partial(m, ops, p) && Linearization(m, ops, p) && |longest| == |ops|
    requires forall x :: 0 <= x < |longest| ==> longest[x] == Some(p)
    ensures LongestIs(m, ops, longest) && Linearizable(m, ops)
    ensures exists q :: Linearization(m, ops, q) && AllAre(longest, q)
    ensures LongestIsMaximal(m, ops, longest)
  {
    hide Partial, Linearization;
    assert AllAre(longest, p);
    FullLongest(m, ops, p, longest);
    FullIsMaximal(m, ops, p, longest);
  }

  lemma FullIsMaximal<S, I, O>(m: Model<S, I, O>, ops: seq<Operation<I, O>>, p: seq<nat>, longest: seq<Option<seq<nat>>>)
    requires Linearization(m, ops, p) && |longest| == |ops| && AllAre(longest, p)
    ensures LongestIsMaximal(m, ops, longest)
  {
    hide Partial, Accepts;
    DistinctCovers(p, |ops|);
    forall q, x | Partial(m, ops, q) && x in q ensures x < |longest| && longest[x].Some? && |longest[x].value| >= |q| {
      PartialDistinct(m, ops, q);
      DistinctCovers(q, |ops|);
    }
  }

  lemma NothingRecorded<S, I, O>(m: Model<S, I, O>, ops: seq<Operation<I, O>>, longest: seq<Option<seq<nat>>>, ids: seq<nat>, seen: seq<Seen<S>>)
    requires ids == [] && seen == []
    ensures Over(ids, |ops|) && Recorded(m, ops, longest, ids, seen)
  {
  }

  method Remember<S, I, O>(ghost m: Model<S, I, O>, ghost ops: seq<Operation<I, O>>, calls: seq<(Node<I, O>, S)>, longest: seq<Option<seq<nat>>>, ghost ids: seq<nat>, ghost seen: seq<Seen<S>>)
    returns (r: seq<Option<seq<nat>>>)
    requires LongestIs(m, ops, longest) && Partial(m, ops, ids) && Over(ids, |ops|) && Recorded(m, ops, longest, ids, seen)
    requires |calls| == |ids| && forall d :: 0 <= d < |calls| ==> calls[d].0.id == ids[d]
    ensures LongestIs(m, ops, r) && Recorded(m, ops, r, ids, seen) && Covers(r, Elements(ids))
  {
    hide Recorded, Covers;
    r := RecordLongest(calls, longest, ids);
    LongestGrows(m, ops, longest, ids, r);
    PartialDistinct(m, ops, ids);
    RecordedMore(m, ops, longest, ids, seen, r);
  }

  /** The list with its head, an empty bitset and the first entry. */
  method Setup<S(!new), I(!new), O(!new)>(m: Model<S, I, O>, history: seq<Entry<I, O>>) returns (s: Searcher<S, I, O>)
    requires Lawful(m) && Paired(history, |history| / 2)
    ensures fresh(s) && fresh(s.nodes) && fresh(s.linearized)
    ensures s.m == m && s.es == history && s.n == |history| / 2 && s.Valid() && s.ids == [] && s.seen == []
  {
    hide Lawful, Paired, Nodes, Chain, Built;
    var root, tail := MakeLinkedEntries(history, |history| / 2);
    var len := Length(root, history, tail);
    var n := len / 2;
    var linearized := Bitset.NewBitset(n);
    var head := new Node(Nothing, null, -1, 0);
    NodesCount(history, 0, tail);
    LinkFront(head, root, tail);
    ghost var nodes := [head] + tail;
    StartBuilt(history, head, tail);
    s := new Searcher(m, head, root, n, linearized, history, nodes);
  }
}
