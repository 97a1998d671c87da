/**
 What the depth-first search in labs/src/porcupine/checker.go knows at every turn of its loop,
 stated over the ids on its stack.
 */
module Search {
  import opened IdLists
  import opened Linearizability
  import opened Entries
  import DL = DancingLinks

  // ---------------------------------------------------------------- the list during the search

  predicate Open<I, O>(es: seq<Entry<I, O>>, done: set<nat>, p: nat) {
    p == 0 || (p <= |es| && es[p - 1].id !in done)
  }

  /** The head and the entries of operations not yet on the stack. */
  ghost function Live<I, O>(es: seq<Entry<I, O>>, done: set<nat>): set<nat> {
    set p: nat | p <= |es| && Open(es, done, p)
  }

  ghost function Lifted(h: DL.Heap, c: nat, r: nat): DL.Heap {
    if DL.Liftable(h, c, r) then DL.Lift(h, c, r) else h
  }

  /** The links after the ids have been lifted one after the other. */
  ghost function HeapAfter<I, O>(es: seq<Entry<I, O>>, n: nat, ids: seq<nat>): DL.Heap
    requires Paired(es, n) && Over(ids, n)
  {
    if ids == [] then DL.Chain(|es|)
    else
      var x := ids[|ids| - 1];
      assert HasPair(es, x);
      Lifted(HeapAfter(es, n, ids[..|ids| - 1]), CallAt(es, x) + 1, ReturnAt(es, x) + 1)
  }

  lemma LivePush<I, O>(es: seq<Entry<I, O>>, n: nat, ids: seq<nat>, x: nat)
    requires Paired(es, n) && x < n && x !in ids
    ensures HasPair(es, x)
    ensures var (c, r) := (CallAt(es, x) + 1, ReturnAt(es, x) + 1);
      && c in Live(es, Elements(ids)) && r in Live(es, Elements(ids)) && c < r
      && Live(es, Elements(ids + [x])) == Live(es, Elements(ids)) - {c, r}
  {
    PairAt(es, n, x);
    var (c, r) := (CallAt(es, x) + 1, ReturnAt(es, x) + 1);
    forall p: nat ensures p in Live(es, Elements(ids + [x])) <==> p in Live(es, Elements(ids)) - {c, r} {
      if 0 < p <= |es| && es[p - 1].id == x {
        assert IsCall(es, x, p - 1) || IsReturn(es, x, p - 1);
      }
    }
  }

  lemma WholeLinked<I, O>(es: seq<Entry<I, O>>)
    ensures DL.Linked(DL.Chain(|es|), Live(es, Elements([])))
  {
    hide DL.Linked;
    DL.ChainLinked(|es|);
    assert Live(es, Elements([])) == set p: nat | p <= |es| && DL.UpTo(p, |es|);
  }

  /** The list is the history without the pairs on the stack. */
  lemma {:induction false} HeapLinked<I, O>(es: seq<Entry<I, O>>, n: nat, ids: seq<nat>)
    requires Paired(es, n) && Over(ids, n) && Distinct(ids)
    ensures DL.Linked(HeapAfter(es, n, ids), Live(es, Elements(ids)))
  {
    hide Live, DL.Linked, DL.Liftable, Paired, DL.Lift, Elements, DL.Chain;
    if ids == [] {
      WholeLinked(es);
    } else {
      var front, x := ids[..|ids| - 1], ids[|ids| - 1];
      assert ids == front + [x];
      assert x !in front;
      HeapLinked(es, n, front);
      LivePush(es, n, front, x);
      DL.LiftUnlift(HeapAfter(es, n, front), Live(es, Elements(front)), CallAt(es, x) + 1, ReturnAt(es, x) + 1);
    }
  }

  /** Lifting and unlifting during the search go one step up and down this chain of heaps. */
  lemma HeapPush<I, O>(es: seq<Entry<I, O>>, n: nat, ids: seq<nat>, x: nat)
    requires Paired(es, n) && Over(ids, n) && Distinct(ids) && x < n && x !in ids
    ensures Over(ids + [x], n) && HasPair(es, x)
    ensures var (h, c, r) := (HeapAfter(es, n, ids), CallAt(es, x) + 1, ReturnAt(es, x) + 1);
      && DL.Liftable(h, c, r) && HeapAfter(es, n, ids + [x]) == DL.Lift(h, c, r)
      && DL.Unliftable(HeapAfter(es, n, ids + [x]), c, r) && DL.Unlift(HeapAfter(es, n, ids + [x]), c, r) == h
  {
    hide Live, DL.Linked, DL.Liftable, DL.Unliftable, Paired, DL.Lift, DL.Unlift, Elements, DL.Chain;
    HeapLinked(es, n, ids);
    LivePush(es, n, ids, x);
    DL.LiftUnlift(HeapAfter(es, n, ids), Live(es, Elements(ids)), CallAt(es, x) + 1, ReturnAt(es, x) + 1);
    assert (ids + [x])[..|ids|] == ids;
  }

  // ---------------------------------------------------------------- what the search knows

  /** From here the operations not yet done cannot be finished. */
  ghost predicate Dead<S, I, O>(m: Model<S, I, O>, ops: seq<Operation<I, O>>, done: set<nat>, s: S) {
    !CanFinish(m, ops, Ids(|ops|) - done, s)
  }

  /** A cached pair. */
  datatype Seen<S> = Seen(done: set<nat>, state: S)

  ghost predicate OnPath<S, I, O>(m: Model<S, I, O>, ops: seq<Operation<I, O>>, ids: seq<nat>, e: Seen<S>)
    requires Over(ids, |ops|)
  {
    exists d {:trigger ids[..d]} :: 0 < d <= |ids| && e == Seen(Elements(ids[..d]), StateAfter(m, ops, ids[..d]))
  }

  /** Every cached pair is on the current path or has been searched in vain. */
  ghost predicate CacheExplained<S, I, O>(m: Model<S, I, O>, ops: seq<Operation<I, O>>, ids: seq<nat>, seen: seq<Seen<S>>)
    requires Over(ids, |ops|)
  {
    forall i :: 0 <= i < |seen| ==> OnPath(m, ops, ids, seen[i]) || Dead(m, ops, seen[i].done, seen[i].state)
  }

  /** Taking x next leads nowhere. */
  ghost predicate Futile<S, I, O>(m: Model<S, I, O>, ops: seq<Operation<I, O>>, ids: seq<nat>, x: nat)
    requires Over(ids, |ops|)
  {
    !Opens(m, ops, Rest(ops, ids), StateAfter(m, ops, ids), x)
  }

  /** Everything that could be taken after the ids and stands before the position has been tried. */
  ghost predicate Tried<S, I, O>(m: Model<S, I, O>, ops: seq<Operation<I, O>>, ids: seq<nat>, at: int)
    requires Over(ids, |ops|)
  {
    forall x :: 0 <= x < |ops| && ops[x].call + 1 < at ==> Futile(m, ops, ids, x)
  }

  /** On every level of the stack, everything before the id chosen there has been tried. */
  ghost predicate PathTried<S, I, O>(m: Model<S, I, O>, ops: seq<Operation<I, O>>, ids: seq<nat>)
    requires Over(ids, |ops|)
  {
    forall d {:trigger ids[d]} :: 0 <= d < |ids| ==> Tried(m, ops, ids[..d], ops[ids[d]].call + 1)
  }

  /** No return stands in the list before the position. */
  ghost predicate OnlyCallsBefore<I, O>(es: seq<Entry<I, O>>, ids: seq<nat>, at: nat) {
    forall p: nat :: 0 < p < at && p in Live(es, Elements(ids)) ==> es[p - 1].Call?
  }

  /** Some cached pair has the same set and an equal state. */
  ghost predicate Matches<S, I, O>(m: Model<S, I, O>, seen: seq<Seen<S>>, done: set<nat>, s: S) {
    exists k :: 0 <= k < |seen| && seen[k].done == done && m.equal(s, seen[k].state)
  }

  /** If x can be taken from here, the cache knows where that leads. */
  ghost predicate Followed<S, I, O>(m: Model<S, I, O>, ops: seq<Operation<I, O>>, seen: seq<Seen<S>>, done: set<nat>, s: S, x: nat) {
    Minimal(ops, Ids(|ops|) - done, x) && Step(m, ops, s, x).0 ==> Matches(m, seen, done + {x}, Step(m, ops, s, x).1)
  }

  ghost predicate FollowedAll<S, I, O>(m: Model<S, I, O>, ops: seq<Operation<I, O>>, seen: seq<Seen<S>>, done: set<nat>, s: S, at: int) {
    forall x: nat :: x < |ops| && ops[x].call + 1 < at ==> Followed(m, ops, seen, done, s, x)
  }

  ghost predicate Closed<S, I, O>(m: Model<S, I, O>, ops: seq<Operation<I, O>>, seen: seq<Seen<S>>, e: Seen<S>) {
    forall x: nat :: x < |ops| ==> Followed(m, ops, seen, e.done, e.state, x)
  }

  /** The pair that the beginning of the stack stands for. */
  ghost function PairOf<S, I, O>(m: Model<S, I, O>, ops: seq<Operation<I, O>>, ids: seq<nat>, d: nat): Seen<S>
    requires Over(ids, |ops|) && d <= |ids|
  {
    Seen(Elements(ids[..d]), StateAfter(m, ops, ids[..d]))
  }

  ghost predicate LevelExplored<S, I, O>(m: Model<S, I, O>, ops: seq<Operation<I, O>>, ids: seq<nat>, d: nat, seen: seq<Seen<S>>)
    requires Over(ids, |ops|) && d < |ids|
  {
    var pair := PairOf(m, ops, ids, d);
    FollowedAll(m, ops, seen, pair.done, pair.state, ops[ids[d]].call + 1) && PairOf(m, ops, ids, d + 1) in seen
  }

  /**
   The cache knows every way on from every pair it holds, but for those on the current path, where
   it knows every way that comes before the one chosen.
   */
  ghost predicate Explores<S, I, O>(m: Model<S, I, O>, ops: seq<Operation<I, O>>, ids: seq<nat>, at: int, seen: seq<Seen<S>>)
    requires Over(ids, |ops|)
  {
    && (forall i :: 0 <= i < |seen| ==> OnPath(m, ops, ids, seen[i]) || Closed(m, ops, seen, seen[i]))
    && (forall d :: 0 <= d < |ids| ==> LevelExplored(m, ops, ids, d, seen))
    && FollowedAll(m, ops, seen, Elements(ids), StateAfter(m, ops, ids), at)
  }

  ghost predicate Knows<S, I, O>(m: Model<S, I, O>, es: seq<Entry<I, O>>, n: nat, ids: seq<nat>, at: nat, seen: seq<Seen<S>>)
    requires Paired(es, n)
  {
    var ops := Operations(es, n);
    && Partial(m, ops, ids) && PathTried(m, ops, ids) && Tried(m, ops, ids, at)
    && CacheExplained(m, ops, ids, seen) && OnlyCallsBefore(es, ids, at)
    && Explores(m, ops, ids, at, seen)
  }

  // ---------------------------------------------------------------- moving on past a call

  lemma CallMinimal<I, O>(es: seq<Entry<I, O>>, n: nat, ids: seq<nat>, at: nat, x: nat)
    requires Paired(es, n) && x < n && at > 0 && IsCall(es, x, at - 1) && at in Live(es, Elements(ids)) && OnlyCallsBefore(es, ids, at)
    ensures Operations(es, n)[x].call + 1 == at
    ensures Minimal(Operations(es, n), Rest(Operations(es, n), ids), x)
  {
    var ops := Operations(es, n);
    PairAt(es, n, x);
    forall y | y in Rest(ops, ids) ensures ops[x].call <= ops[y].ret {
      PairAt(es, n, y);
      var p := ReturnAt(es, y) + 1;
      assert p in Live(es, Elements(ids));
    }
  }

  lemma CallIsLive<I, O>(es: seq<Entry<I, O>>, n: nat, ids: seq<nat>, y: nat)
    requires Paired(es, n) && y in Rest(Operations(es, n), ids)
    ensures y < n && HasPair(es, y) && Operations(es, n)[y].call == CallAt(es, y)
    ensures CallAt(es, y) + 1 in Live(es, Elements(ids)) && es[CallAt(es, y)].id == y
  {
    PairAt(es, n, y);
  }

  lemma ReturnIsLive<I, O>(es: seq<Entry<I, O>>, n: nat, ids: seq<nat>, p: nat)
    requires Paired(es, n) && p > 0 && p in Live(es, Elements(ids)) && es[p - 1].Return?
    ensures es[p - 1].id in Rest(Operations(es, n), ids) && Operations(es, n)[es[p - 1].id].ret == p - 1
  {
    PairAt(es, n, es[p - 1].id);
    assert IsReturn(es, es[p - 1].id, p - 1);
  }

  lemma TriedOneMore<S, I, O>(m: Model<S, I, O>, es: seq<Entry<I, O>>, n: nat, ids: seq<nat>, at: nat, x: nat, next: int)
    requires Paired(es, n) && Over(ids, n) && x < n && at > 0 && IsCall(es, x, at - 1)
    requires Tried(m, Operations(es, n), ids, at) && Futile(m, Operations(es, n), ids, x)
    requires forall p :: p in Live(es, Elements(ids)) ==> p <= at || next <= p
    ensures Tried(m, Operations(es, n), ids, next)
  {
    var ops := Operations(es, n);
    hide Futile, Paired;
    forall y: nat | y < n && ops[y].call + 1 < next ensures Futile(m, ops, ids, y) {
      if y !in Rest(ops, ids) {
        NotInRest(m, ops, ids, y);
      } else {
        CallIsLive(es, n, ids, y);
      }
    }
  }

  lemma NotInRest<S, I, O>(m: Model<S, I, O>, ops: seq<Operation<I, O>>, ids: seq<nat>, y: nat)
    requires Over(ids, |ops|) && y !in Rest(ops, ids)
    ensures Futile(m, ops, ids, y)
  {
  }

  lemma FollowedOneMore<S, I, O>(m: Model<S, I, O>, es: seq<Entry<I, O>>, n: nat, ids: seq<nat>, at: nat, seen: seq<Seen<S>>, x: nat, next: int)
    requires Paired(es, n) && Over(ids, n) && x < n && at > 0 && IsCall(es, x, at - 1)
    requires var (ops, done) := (Operations(es, n), Elements(ids)); var s := StateAfter(m, ops, ids);
      FollowedAll(m, ops, seen, done, s, at) && Followed(m, ops, seen, done, s, x)
    requires forall p :: p in Live(es, Elements(ids)) ==> p <= at || next <= p
    ensures FollowedAll(m, Operations(es, n), seen, Elements(ids), StateAfter(m, Operations(es, n), ids), next)
  {
    var ops := Operations(es, n);
    hide Matches, Paired, Step, StateAfter;
    forall y: nat | y < n && ops[y].call + 1 < next ensures Followed(m, ops, seen, Elements(ids), StateAfter(m, ops, ids), y) {
      if y in Rest(ops, ids) {
        CallIsLive(es, n, ids, y);
      }
    }
  }

  lemma ExploresNext<S, I, O>(m: Model<S, I, O>, ops: seq<Operation<I, O>>, ids: seq<nat>, at: int, seen: seq<Seen<S>>, next: int)
    requires Over(ids, |ops|) && Explores(m, ops, ids, at, seen)
    ensures FollowedAll(m, ops, seen, Elements(ids), StateAfter(m, ops, ids), at)
    ensures FollowedAll(m, ops, seen, Elements(ids), StateAfter(m, ops, ids), next) ==> Explores(m, ops, ids, next, seen)
  {
    hide FollowedAll, Closed, OnPath, StateAfter, Elements, LevelExplored;
  }

  lemma OnlyCallsOneMore<I, O>(es: seq<Entry<I, O>>, n: nat, ids: seq<nat>, at: nat, next: nat)
    requires OnlyCallsBefore(es, ids, at) && 0 < at <= |es| && es[at - 1].Call?
    requires forall p :: p in Live(es, Elements(ids)) ==> p <= at || next <= p
    ensures OnlyCallsBefore(es, ids, next)
  {
  }

  /** The call at the position cannot be taken, or taking it is futile: go on to the next entry. */
  lemma KnowsNext<S, I, O>(m: Model<S, I, O>, es: seq<Entry<I, O>>, n: nat, ids: seq<nat>, at: nat, seen: seq<Seen<S>>, x: nat, next: nat)
    requires Paired(es, n) && Over(ids, n) && x < n && at > 0 && IsCall(es, x, at - 1)
    requires Knows(m, es, n, ids, at, seen) && Futile(m, Operations(es, n), ids, x)
    requires Followed(m, Operations(es, n), seen, Elements(ids), StateAfter(m, Operations(es, n), ids), x)
    requires forall p :: p in Live(es, Elements(ids)) ==> p <= at || next <= p
    ensures Knows(m, es, n, ids, next, seen)
  {
    hide Partial, PathTried, Tried, CacheExplained, OnlyCallsBefore, Live, Paired, Operations, Futile, Explores, FollowedAll, Followed,
         StateAfter, Elements;
    TriedOneMore(m, es, n, ids, at, x, next);
    ExploresNext(m, Operations(es, n), ids, at, seen, next);
    FollowedOneMore(m, es, n, ids, at, seen, x, next);
    OnlyCallsOneMore(es, n, ids, at, next);
  }

  // ---------------------------------------------------------------- a pair found in the cache

  lemma NotOnPath<S, I, O>(m: Model<S, I, O>, ops: seq<Operation<I, O>>, ids: seq<nat>, x: nat, e: Seen<S>)
    requires Over(ids, |ops|) && x in e.done && x !in ids
    ensures !OnPath(m, ops, ids, e)
  {
    assert forall d :: 0 < d <= |ids| ==> x !in ids[..d];
  }

  /** A cached pair with the same set as the child of the stack's top was searched in vain. */
  lemma CachedIsDead<S(!new), I(!new), O(!new)>(m: Model<S, I, O>, ops: seq<Operation<I, O>>, ids: seq<nat>, x: nat, seen: seq<Seen<S>>, i: nat)
    requires Lawful(m) && Over(ids, |ops|) && Distinct(ids) && x < |ops| && x !in ids
    requires CacheExplained(m, ops, ids, seen) && i < |seen|
    requires seen[i].done == Elements(ids + [x]) && m.equal(Step(m, ops, StateAfter(m, ops, ids), x).1, seen[i].state)
    ensures Futile(m, ops, ids, x)
  {
    var s := Step(m, ops, StateAfter(m, ops, ids), x).1;
    RestPush(ops, ids, x);
    assert x in seen[i].done;
    NotOnPath(m, ops, ids, x, seen[i]);
    assert Dead(m, ops, seen[i].done, seen[i].state);
    if CanFinish(m, ops, Rest(ops, ids) - {x}, s) {
      EqualCanFinish(m, ops, Rest(ops, ids) - {x}, s, seen[i].state);
    }
  }

  // ---------------------------------------------------------------- taking a call

  lemma PathPush<S, I, O>(m: Model<S, I, O>, ops: seq<Operation<I, O>>, ids: seq<nat>, x: nat, at: int)
    requires Over(ids, |ops|) && x < |ops| && PathTried(m, ops, ids) && Tried(m, ops, ids, at) && ops[x].call + 1 == at
    ensures Over(ids + [x], |ops|) && PathTried(m, ops, ids + [x])
  {
    hide Tried;
    var ids' := ids + [x];
    assert forall d :: 0 <= d <= |ids| ==> ids'[..d] == ids[..d];
    assert ids[..|ids|] == ids;
  }

  lemma CachePush<S, I, O>(m: Model<S, I, O>, ops: seq<Operation<I, O>>, ids: seq<nat>, x: nat, seen: seq<Seen<S>>)
    requires Over(ids, |ops|) && x < |ops| && CacheExplained(m, ops, ids, seen)
    ensures Over(ids + [x], |ops|)
    ensures CacheExplained(m, ops, ids + [x], seen + [Seen(Elements(ids + [x]), StateAfter(m, ops, ids + [x]))])
  {
    hide Dead, StateAfter, Elements;
    var ids' := ids + [x];
    var seen' := seen + [Seen(Elements(ids'), StateAfter(m, ops, ids'))];
    forall i | 0 <= i < |seen'| ensures OnPath(m, ops, ids', seen'[i]) || Dead(m, ops, seen'[i].done, seen'[i].state) {
      if i == |seen| {
        assert ids'[..|ids'|] == ids';
      } else if OnPath(m, ops, ids, seen[i]) {
        var d :| 0 < d <= |ids| && seen[i] == Seen(Elements(ids[..d]), StateAfter(m, ops, ids[..d]));
        assert ids'[..d] == ids[..d];
      }
    }
  }

  lemma TriedNothing<S, I, O>(m: Model<S, I, O>, es: seq<Entry<I, O>>, n: nat, ids: seq<nat>, first: int)
    requires Paired(es, n) && Over(ids, n)
    requires forall p :: p in Live(es, Elements(ids)) ==> p <= 0 || first <= p
    ensures Tried(m, Operations(es, n), ids, first)
  {
    var ops := Operations(es, n);
    forall y: nat | y < n && ops[y].call + 1 < first ensures Futile(m, ops, ids, y) {
      PairAt(es, n, y);
      assert CallAt(es, y) + 1 !in Live(es, Elements(ids));
      NotInRest(m, ops, ids, y);
    }
  }

  lemma MatchesMore<S, I, O>(m: Model<S, I, O>, seen: seq<Seen<S>>, e: Seen<S>, done: set<nat>, s: S)
    requires Matches(m, seen, done, s)
    ensures Matches(m, seen + [e], done, s)
  {
    var k :| 0 <= k < |seen| && seen[k].done == done && m.equal(s, seen[k].state);
    assert (seen + [e])[k] == seen[k];
  }

  lemma FollowedMore<S, I, O>(m: Model<S, I, O>, ops: seq<Operation<I, O>>, seen: seq<Seen<S>>, e: Seen<S>, done: set<nat>, s: S, at: int)
    ensures FollowedAll(m, ops, seen, done, s, at) ==> FollowedAll(m, ops, seen + [e], done, s, at)
    ensures Closed(m, ops, seen, Seen(done, s)) ==> Closed(m, ops, seen + [e], Seen(done, s))
  {
    hide Matches, Step, Minimal;
    forall x: nat | x < |ops| && Followed(m, ops, seen, done, s, x) ensures Followed(m, ops, seen + [e], done, s, x) {
      if Matches(m, seen, done + {x}, Step(m, ops, s, x).1) {
        MatchesMore(m, seen, e, done + {x}, Step(m, ops, s, x).1);
      }
    }
  }

  lemma PairPush<S, I, O>(m: Model<S, I, O>, ops: seq<Operation<I, O>>, ids: seq<nat>, x: nat)
    requires Over(ids, |ops|) && x < |ops|
    ensures var ids' := ids + [x];
      && Over(ids', |ops|)
      && (forall d: nat :: d <= |ids| ==> PairOf(m, ops, ids', d) == PairOf(m, ops, ids, d))
      && PairOf(m, ops, ids, |ids|) == Seen(Elements(ids), StateAfter(m, ops, ids))
      && PairOf(m, ops, ids', |ids'|) == Seen(Elements(ids'), StateAfter(m, ops, ids'))
      && (forall e: Seen<S> :: OnPath(m, ops, ids', e) <==> OnPath(m, ops, ids, e) || e == PairOf(m, ops, ids', |ids'|))
  {
    hide StateAfter, Elements;
    var ids' := ids + [x];
    assert ids'[..|ids'|] == ids' && ids[..|ids|] == ids;
    assert forall d: nat :: d <= |ids| ==> ids'[..d] == ids[..d];
    forall e: Seen<S> ensures OnPath(m, ops, ids', e) <==> OnPath(m, ops, ids, e) || e == PairOf(m, ops, ids', |ids'|) {
      if OnPath(m, ops, ids', e) {
        var d: nat :| 0 < d <= |ids'| && e == Seen(Elements(ids'[..d]), StateAfter(m, ops, ids'[..d]));
        if d <= |ids| {
          assert ids'[..d] == ids[..d];
        }
      }
      if OnPath(m, ops, ids, e) {
        var d: nat :| 0 < d <= |ids| && e == Seen(Elements(ids[..d]), StateAfter(m, ops, ids[..d]));
        assert ids'[..d] == ids[..d];
      }
    }
  }

  lemma ExploresPush<S, I, O>(m: Model<S, I, O>, ops: seq<Operation<I, O>>, ids: seq<nat>, x: nat, at: int, seen: seq<Seen<S>>, first: int)
    requires Over(ids, |ops|) && x < |ops| && Explores(m, ops, ids, at, seen) && ops[x].call + 1 == at
    requires Over(ids + [x], |ops|)
    requires var e := Seen(Elements(ids + [x]), StateAfter(m, ops, ids + [x])); FollowedAll(m, ops, seen + [e], e.done, e.state, first)
    ensures Explores(m, ops, ids + [x], first, seen + [Seen(Elements(ids + [x]), StateAfter(m, ops, ids + [x]))])
  {
    hide FollowedAll, Closed, OnPath, PairOf, StateAfter, Elements;
    var (ids', e) := (ids + [x], Seen(Elements(ids + [x]), StateAfter(m, ops, ids + [x])));
    var seen' := seen + [e];
    PairPush(m, ops, ids, x);
    forall i | 0 <= i < |seen'| ensures OnPath(m, ops, ids', seen'[i]) || Closed(m, ops, seen', seen'[i]) {
      if i < |seen| {
        FollowedMore(m, ops, seen, e, seen[i].done, seen[i].state, at);
      }
    }
    assert seen'[|seen|] == e;
    forall d | 0 <= d < |ids'| ensures LevelExplored(m, ops, ids', d, seen') {
      var pair := PairOf(m, ops, ids, d);
      FollowedMore(m, ops, seen, e, pair.done, pair.state, ops[ids'[d]].call + 1);
      if d < |ids| {
        assert ids'[d] == ids[d] && LevelExplored(m, ops, ids, d, seen);
        assert PairOf(m, ops, ids', d + 1) == PairOf(m, ops, ids, d + 1);
      }
    }
  }

  lemma FollowedNothing<S, I, O>(m: Model<S, I, O>, es: seq<Entry<I, O>>, n: nat, ids: seq<nat>, seen: seq<Seen<S>>, first: int)
    requires Paired(es, n) && Over(ids, n)
    requires forall p :: p in Live(es, Elements(ids)) ==> p <= 0 || first <= p
    ensures FollowedAll(m, Operations(es, n), seen, Elements(ids), StateAfter(m, Operations(es, n), ids), first)
  {
    var ops := Operations(es, n);
    hide Matches, Paired, Step, StateAfter;
    forall y: nat | y < n && ops[y].call + 1 < first ensures Followed(m, ops, seen, Elements(ids), StateAfter(m, ops, ids), y) {
      if y in Rest(ops, ids) {
        CallIsLive(es, n, ids, y);
      }
    }
  }

  /** The call is taken: the search starts again at the first entry of the shortened list. */
  lemma KnowsPush<S, I, O>(m: Model<S, I, O>, es: seq<Entry<I, O>>, n: nat, ids: seq<nat>, at: nat, seen: seq<Seen<S>>, x: nat, first: nat)
    requires Paired(es, n) && x < n && at > 0 && IsCall(es, x, at - 1) && at in Live(es, Elements(ids))
    requires Over(ids, n) && Knows(m, es, n, ids, at, seen)
    requires Step(m, Operations(es, n), StateAfter(m, Operations(es, n), ids), x).0
    requires forall p :: p in Live(es, Elements(ids + [x])) ==> p <= 0 || first <= p
    ensures Over(ids + [x], n)
    ensures Knows(m, es, n, ids + [x], first,
                  seen + [Seen(Elements(ids + [x]), StateAfter(m, Operations(es, n), ids + [x]))])
  {
    hide Partial, PathTried, Tried, CacheExplained, Live, Paired, Operations, StateAfter, Step, Minimal, OnlyCallsBefore, Elements,
         Explores, FollowedAll;
    var ops := Operations(es, n);
    CallMinimal(es, n, ids, at, x);
    FollowedNothing(m, es, n, ids + [x], seen + [Seen(Elements(ids + [x]), StateAfter(m, ops, ids + [x]))], first);
    ExploresPush(m, ops, ids, x, at, seen, first);
    PartialPush(m, ops, ids, x);
    PathPush(m, ops, ids, x, at);
    CachePush(m, ops, ids, x, seen);
    TriedNothing(m, es, n, ids + [x], first);
    NoCallsBefore(es, ids + [x], first);
  }

  lemma NoCallsBefore<I, O>(es: seq<Entry<I, O>>, ids: seq<nat>, first: nat)
    requires forall p :: p in Live(es, Elements(ids)) ==> p <= 0 || first <= p
    ensures OnlyCallsBefore(es, ids, first)
  {
  }

  // ---------------------------------------------------------------- backing up

  /** When the position has reached a return, the stack's top cannot be finished. */
  lemma TopIsDead<S, I, O>(m: Model<S, I, O>, es: seq<Entry<I, O>>, n: nat, ids: seq<nat>, at: nat, y: nat)
    requires Paired(es, n) && Over(ids, n) && y < n && at > 0 && IsReturn(es, y, at - 1) && at in Live(es, Elements(ids))
    requires Tried(m, Operations(es, n), ids, at)
    ensures Dead(m, Operations(es, n), Elements(ids), StateAfter(m, Operations(es, n), ids))
  {
    hide StateAfter, Step, CanFinish;
    var ops := Operations(es, n);
    var (rest, s) := (Rest(ops, ids), StateAfter(m, ops, ids));
    PairAt(es, n, y);
    assert y in rest;
    FinishFirst(m, ops, rest, s);
    forall x: nat ensures !Opens(m, ops, rest, s, x) {
      if Minimal(ops, rest, x) {
        CallIsLive(es, n, ids, x);
        assert IsCall(es, x, CallAt(es, x));
        assert Futile(m, ops, ids, x);
      }
    }
  }

  /** When the position has reached a return, the cache knows every way on from the stack's top. */
  lemma TopIsClosed<S, I, O>(m: Model<S, I, O>, es: seq<Entry<I, O>>, n: nat, ids: seq<nat>, at: nat, seen: seq<Seen<S>>, y: nat)
    requires Paired(es, n) && Over(ids, n) && y < n && at > 0 && IsReturn(es, y, at - 1) && at in Live(es, Elements(ids))
    requires FollowedAll(m, Operations(es, n), seen, Elements(ids), StateAfter(m, Operations(es, n), ids), at)
    ensures Closed(m, Operations(es, n), seen, Seen(Elements(ids), StateAfter(m, Operations(es, n), ids)))
  {
    hide StateAfter, Step, Matches;
    var ops := Operations(es, n);
    PairAt(es, n, y);
    assert y in Rest(ops, ids);
    forall x: nat | x < |ops| ensures Followed(m, ops, seen, Elements(ids), StateAfter(m, ops, ids), x) {
      if Minimal(ops, Rest(ops, ids), x) {
        CallIsLive(es, n, ids, x);
        assert IsCall(es, x, CallAt(es, x));
      }
    }
  }

  lemma ExploresPop<S, I, O>(m: Model<S, I, O>, ops: seq<Operation<I, O>>, ids: seq<nat>, x: nat, at: int, seen: seq<Seen<S>>)
    requires Over(ids, |ops|) && x < |ops| && Over(ids + [x], |ops|) && Explores(m, ops, ids + [x], at, seen)
    requires Closed(m, ops, seen, Seen(Elements(ids + [x]), StateAfter(m, ops, ids + [x])))
    ensures Explores(m, ops, ids, ops[x].call + 1, seen)
    ensures Seen(Elements(ids + [x]), StateAfter(m, ops, ids + [x])) in seen
  {
    hide FollowedAll, Closed, OnPath, PairOf, StateAfter, Elements;
    var ids' := ids + [x];
    PairPush(m, ops, ids, x);
    assert ids'[|ids|] == x;
    assert LevelExplored(m, ops, ids', |ids|, seen);
    forall d | 0 <= d < |ids| ensures LevelExplored(m, ops, ids, d, seen) {
      assert ids'[d] == ids[d] && LevelExplored(m, ops, ids', d, seen);
      assert PairOf(m, ops, ids', d + 1) == PairOf(m, ops, ids, d + 1);
    }
  }

  lemma SeenIsFollowed<S(!new), I(!new), O(!new)>(m: Model<S, I, O>, ops: seq<Operation<I, O>>, ids: seq<nat>, x: nat, seen: seq<Seen<S>>)
    requires Lawful(m) && Over(ids, |ops|) && x < |ops| && Over(ids + [x], |ops|)
    requires Seen(Elements(ids + [x]), StateAfter(m, ops, ids + [x])) in seen
    ensures Followed(m, ops, seen, Elements(ids), StateAfter(m, ops, ids), x)
  {
    StatePush(m, ops, ids, x);
    RestPush(ops, ids, x);
    var e := Seen(Elements(ids + [x]), StateAfter(m, ops, ids + [x]));
    var k :| 0 <= k < |seen| && seen[k] == e;
    assert m.equal(e.state, seen[k].state);
  }

  lemma CachePop<S, I, O>(m: Model<S, I, O>, ops: seq<Operation<I, O>>, ids: seq<nat>, x: nat, seen: seq<Seen<S>>)
    requires Over(ids, |ops|) && x < |ops| && Over(ids + [x], |ops|) && CacheExplained(m, ops, ids + [x], seen)
    requires Dead(m, ops, Elements(ids + [x]), StateAfter(m, ops, ids + [x]))
    ensures CacheExplained(m, ops, ids, seen)
  {
    hide Dead, StateAfter, Elements;
    var ids' := ids + [x];
    forall i | 0 <= i < |seen| ensures OnPath(m, ops, ids, seen[i]) || Dead(m, ops, seen[i].done, seen[i].state) {
      if OnPath(m, ops, ids', seen[i]) {
        var d :| 0 < d <= |ids'| && seen[i] == Seen(Elements(ids'[..d]), StateAfter(m, ops, ids'[..d]));
        if d == |ids'| {
          assert ids'[..d] == ids';
        } else {
          assert ids'[..d] == ids[..d];
        }
      }
    }
  }

  lemma PathPop<S, I, O>(m: Model<S, I, O>, ops: seq<Operation<I, O>>, ids: seq<nat>, x: nat)
    requires Over(ids, |ops|) && x < |ops| && Over(ids + [x], |ops|) && PathTried(m, ops, ids + [x])
    ensures PathTried(m, ops, ids) && Tried(m, ops, ids, ops[x].call + 1)
  {
    hide Tried;
    var ids' := ids + [x];
    assert forall d :: 0 <= d <= |ids| ==> ids'[..d] == ids[..d];
    assert ids[..|ids|] == ids;
    assert ids'[|ids|] == x;
    assert forall d :: 0 <= d < |ids| ==> ids'[d] == ids[d];
  }

  lemma DeadIsFutile<S, I, O>(m: Model<S, I, O>, ops: seq<Operation<I, O>>, ids: seq<nat>, x: nat)
    requires Over(ids, |ops|) && x < |ops| && Over(ids + [x], |ops|)
    requires Dead(m, ops, Elements(ids + [x]), StateAfter(m, ops, ids + [x]))
    ensures Futile(m, ops, ids, x)
  {
    RestPush(ops, ids, x);
    StatePush(m, ops, ids, x);
  }

  lemma ChosenWasFirst<S, I, O>(m: Model<S, I, O>, es: seq<Entry<I, O>>, n: nat, ids: seq<nat>, x: nat)
    requires Paired(es, n) && Over(ids, n) && Over(ids + [x], n) && x < n && Partial(m, Operations(es, n), ids + [x])
    ensures HasPair(es, x) && OnlyCallsBefore(es, ids, CallAt(es, x) + 1)
  {
    var ops := Operations(es, n);
    var ids' := ids + [x];
    assert ids'[|ids|] == x && ids'[..|ids|] == ids;
    assert Minimal(ops, Rest(ops, ids), x);
    PairAt(es, n, x);
    forall p: nat | 0 < p < CallAt(es, x) + 1 && p in Live(es, Elements(ids)) ensures es[p - 1].Call? {
      if es[p - 1].Return? {
        ReturnIsLive(es, n, ids, p);
      }
    }
  }

  /** The top of the stack is given up: the search goes on after its call, on the level below. */
  lemma KnowsPop<S(!new), I(!new), O(!new)>(m: Model<S, I, O>, es: seq<Entry<I, O>>, n: nat, ids: seq<nat>, x: nat, at: nat, seen: seq<Seen<S>>, y: nat)
    requires Paired(es, n) && Over(ids, n) && x < n && Over(ids + [x], n) && y < n
    requires at > 0 && IsReturn(es, y, at - 1) && at in Live(es, Elements(ids + [x]))
    requires Knows(m, es, n, ids + [x], at, seen) && Lawful(m)
    ensures HasPair(es, x) && IsCall(es, x, CallAt(es, x)) && Futile(m, Operations(es, n), ids, x)
    ensures Followed(m, Operations(es, n), seen, Elements(ids), StateAfter(m, Operations(es, n), ids), x)
    ensures Knows(m, es, n, ids, CallAt(es, x) + 1, seen)
  {
    hide Partial, PathTried, Tried, CacheExplained, Live, Paired, Operations, StateAfter, OnlyCallsBefore, Elements, Dead, Futile,
         Explores, FollowedAll, Closed, Followed, Lawful;
    var ops := Operations(es, n);
    PairAt(es, n, x);
    ExploresNext(m, ops, ids + [x], at, seen, at);
    TopIsClosed(m, es, n, ids + [x], at, seen, y);
    ExploresPop(m, ops, ids, x, at, seen);
    SeenIsFollowed(m, ops, ids, x, seen);
    TopIsDead(m, es, n, ids + [x], at, y);
    CachePop(m, ops, ids, x, seen);
    PathPop(m, ops, ids, x);
    DeadIsFutile(m, ops, ids, x);
    ChosenWasFirst(m, es, n, ids, x);
    PartialPop(m, ops, ids + [x], |ids|);
    assert (ids + [x])[..|ids|] == ids;
  }

  // ---------------------------------------------------------------- the answers

  lemma KnowsStart<S, I, O>(m: Model<S, I, O>, es: seq<Entry<I, O>>, n: nat)
    requires Paired(es, n)
    ensures Knows(m, es, n, [], 1, [])
  {
    TriedNothing(m, es, n, [], 1);
  }

  /** The list has run empty: the stack is a linearization. */
  lemma StackIsLinearization<S, I, O>(m: Model<S, I, O>, es: seq<Entry<I, O>>, n: nat, ids: seq<nat>)
    requires Paired(es, n) && Partial(m, Operations(es, n), ids)
    requires forall p :: p in Live(es, Elements(ids)) ==> p == 0
    ensures Linearization(m, Operations(es, n), ids)
  {
    var ops := Operations(es, n);
    forall x: nat | x < n ensures x in Elements(ids) {
      PairAt(es, n, x);
      assert CallAt(es, x) + 1 !in Live(es, Elements(ids));
    }
    assert Elements(ids) == Ids(n);
    OperationsTimely(es, n);
    CompletePartial(m, ops, ids);
  }

  /** The empty stack is at a return: there is no linearization. */
  lemma NoLinearization<S, I, O>(m: Model<S, I, O>, es: seq<Entry<I, O>>, n: nat, at: nat, y: nat)
    requires Paired(es, n) && y < n && at > 0 && IsReturn(es, y, at - 1) && at in Live(es, Elements([]))
    requires Tried(m, Operations(es, n), [], at)
    ensures !Linearizable(m, Operations(es, n))
  {
    hide CanFinish, Linearizable;
    var ops := Operations(es, n);
    TopIsDead(m, es, n, [], at, y);
    OperationsTimely(es, n);
    LinearizableByStages(m, ops);
    assert Ids(n) - Elements([]) == Ids(n);
  }

  /**
   The search has ended in vain: the cache knows every beginning of a possible linearization, in
   some order of the same operations.
   */
  lemma {:induction false} AllExplored<S(!new), I(!new), O(!new)>(m: Model<S, I, O>, ops: seq<Operation<I, O>>, at: int, seen: seq<Seen<S>>, q: seq<nat>)
    requires Lawful(m) && Explores(m, ops, [], at, seen) && Closed(m, ops, seen, Seen({}, m.init))
    requires Partial(m, ops, q) && q != []
    ensures Over(q, |ops|) && Matches(m, seen, Elements(q), StateAfter(m, ops, q))
    decreases |q|
  {
    hide *;
    var (front, x) := (q[..|q| - 1], q[|q| - 1]);
    PartialLast(m, ops, q);
    StatePush(m, ops, front, x);
    RestPush(ops, front, x);
    if front == [] {
      StartPair(m, ops);
      LawfulReflexive(m, m.init);
      MatchesOn(m, ops, seen, Seen({}, m.init), m.init, x);
    } else {
      AllExplored(m, ops, at, seen, front);
      var k := MatchAt(m, seen, Elements(front), StateAfter(m, ops, front));
      EndClosed(m, ops, at, seen, k);
      MatchesOn(m, ops, seen, seen[k], StateAfter(m, ops, front), x);
    }
  }

  lemma PartialLast<S, I, O>(m: Model<S, I, O>, ops: seq<Operation<I, O>>, q: seq<nat>)
    requires Partial(m, ops, q) && q != []
    ensures var (front, x) := (q[..|q| - 1], q[|q| - 1]);
      && q == front + [x] && Partial(m, ops, front) && Over(front, |ops|) && x < |ops|
      && Minimal(ops, Ids(|ops|) - Elements(front), x) && Step(m, ops, StateAfter(m, ops, front), x).0
  {
    hide Minimal, Step, StateAfter;
    var n := |q| - 1;
    assert q[n] == q[|q| - 1];
    PartialPop(m, ops, q, n);
    assert Minimal(ops, Rest(ops, q[..n]), q[n]);
  }

  lemma StartPair<S, I, O>(m: Model<S, I, O>, ops: seq<Operation<I, O>>)
    ensures Over([], |ops|) && Elements([]) == {} && StateAfter(m, ops, []) == m.init
  {
  }

  lemma LawfulReflexive<S(!new), I(!new), O(!new)>(m: Model<S, I, O>, s: S)
    requires Lawful(m)
    ensures m.equal(s, s)
  {
  }

  lemma MatchAt<S, I, O>(m: Model<S, I, O>, seen: seq<Seen<S>>, done: set<nat>, s: S) returns (k: nat)
    requires Matches(m, seen, done, s)
    ensures k < |seen| && seen[k].done == done && m.equal(s, seen[k].state)
  {
    k :| k < |seen| && seen[k].done == done && m.equal(s, seen[k].state);
  }

  lemma EndClosed<S, I, O>(m: Model<S, I, O>, ops: seq<Operation<I, O>>, at: int, seen: seq<Seen<S>>, k: nat)
    requires Explores(m, ops, [], at, seen) && k < |seen|
    ensures Closed(m, ops, seen, seen[k])
  {
    hide Closed, FollowedAll;
    assert !OnPath(m, ops, [], seen[k]);
  }

  lemma MatchesOn<S(!new), I(!new), O(!new)>(m: Model<S, I, O>, ops: seq<Operation<I, O>>, seen: seq<Seen<S>>, e: Seen<S>, s: S, x: nat)
    requires Lawful(m) && Closed(m, ops, seen, e) && m.equal(s, e.state) && Minimal(ops, Ids(|ops|) - e.done, x) && Step(m, ops, s, x).0
    ensures Matches(m, seen, e.done + {x}, Step(m, ops, s, x).1)
  {
    hide Minimal;
    MinimalIn(ops, Ids(|ops|) - e.done, x);
    assert Followed(m, ops, seen, e.done, e.state, x);
    var (t, u) := (Step(m, ops, e.state, x).1, Step(m, ops, s, x).1);
    assert m.equal(u, t);
    var k :| 0 <= k < |seen| && seen[k].done == e.done + {x} && m.equal(t, seen[k].state);
    assert m.equal(u, seen[k].state);
  }

  // ---------------------------------------------------------------- termination

  /** All sequences of at most k ids below n. */
  ghost function Sequences(n: nat, k: nat): set<seq<nat>> {
    if k == 0 then {[]}
    else
      var shorter := Sequences(n, k - 1);
      shorter + set p, x | p in shorter && x in Ids(n) :: p + [x]
  }

  lemma {:induction false} AllSequences(n: nat, k: nat, p: seq<nat>)
    requires |p| <= k && Over(p, n)
    ensures p in Sequences(n, k)
  {
    if p == [] {
      if k > 0 {
        AllSequences(n, k - 1, p);
      }
    } else {
      var front, x := p[..|p| - 1], p[|p| - 1];
      AllSequences(n, k - 1, front);
      assert p == front + [x] && x in Ids(n);
    }
  }
}
