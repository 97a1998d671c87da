/**
 The doubly linked list that the search in labs/src/porcupine/checker.go rewrites in place,
 as a value: `next` and `prev` by position, with -1 for nil.  Position 0 is the head node and
 position i + 1 is entry i of the history.
 */
module DancingLinks {

  const NIL: int := -1

  datatype Heap = Heap(next: seq<int>, prev: seq<int>)

  /** Following `next` from p leads to the next live position, which points back. */
  ghost predicate NextOk(h: Heap, live: set<nat>, p: nat) {
    && p < |h.next|
    && var q := h.next[p];
       if q == NIL then forall x :: x in live ==> x <= p
       else
         && 0 <= q < |h.prev| && q in live && p < q && h.prev[q] == p
         && forall x :: x in live ==> x <= p || q <= x
  }

  ghost predicate PrevOk(h: Heap, live: set<nat>, q: nat) {
    && q < |h.prev|
    && var p := h.prev[q]; 0 <= p < |h.next| && p in live && h.next[p] == q
  }

  /** The list runs through exactly the live positions, in order, in both directions. */
  ghost predicate Linked(h: Heap, live: set<nat>) {
    && |h.next| == |h.prev|
    && 0 in live
    && (forall p :: p in live ==> NextOk(h, live, p))
    && (forall q :: q in live && q != 0 ==> PrevOk(h, live, q))
  }

  /** Taking one node out: its neighbours point past it; its own links stay. */
  function Remove(h: Heap, c: nat): Heap
    requires Removable(h, c)
  {
    var (p, n) := (h.prev[c], h.next[c]);
    Heap(h.next[p := n], if n == NIL then h.prev else h.prev[n := p])
  }

  predicate Removable(h: Heap, c: nat) {
    && |h.next| == |h.prev| && c < |h.next| && h.prev[c] != c
    && 0 <= h.prev[c] < |h.next| && (h.next[c] == NIL || 0 <= h.next[c] < |h.prev|)
  }

  /** Putting it back: its neighbours point to it again. */
  function Restore(h: Heap, c: nat): Heap
    requires Removable(h, c)
  {
    var (p, n) := (h.prev[c], h.next[c]);
    Heap(h.next[p := c], if n == NIL then h.prev else h.prev[n := c])
  }

  lemma RemoveNextHere(h: Heap, live: set<nat>, c: nat, p: nat)
    requires Removable(h, c) && p != c && NextOk(h, live, p) && NextOk(h, live, c) && h.next[p] == c
    ensures NextOk(Remove(h, c), live - {c}, p)
  {
    var h' := Remove(h, c);
    assert h'.next[p] == h.next[c];
    assert h.next[c] != NIL ==> h'.prev[h.next[c]] == p;
  }

  lemma RemoveNextElse(h: Heap, live: set<nat>, c: nat, p: nat)
    requires Removable(h, c) && p != c && NextOk(h, live, p) && NextOk(h, live, c) && h.next[p] != c
    requires h.prev[c] != p
    ensures NextOk(Remove(h, c), live - {c}, p)
  {
    var h' := Remove(h, c);
    assert h'.next[p] == h.next[p];
    assert h.next[p] != NIL ==> h.next[p] != h.next[c];
  }

  lemma RemoveNext(h: Heap, live: set<nat>, c: nat, p: nat)
    requires Linked(h, live) && c in live && c != 0 && p in live && p != c && Removable(h, c)
    ensures NextOk(Remove(h, c), live - {c}, p)
  {
    assert NextOk(h, live, p) && NextOk(h, live, c) && PrevOk(h, live, c);
    hide Linked, NextOk, Remove;
    if h.next[p] == c {
      RemoveNextHere(h, live, c, p);
    } else {
      RemoveNextElse(h, live, c, p);
    }
  }

  lemma RemovePrev(h: Heap, live: set<nat>, c: nat, q: nat)
    requires Linked(h, live) && c in live && c != 0 && q in live && q != 0 && q != c && Removable(h, c)
    ensures PrevOk(Remove(h, c), live - {c}, q)
  {
    assert NextOk(h, live, c) && PrevOk(h, live, c) && PrevOk(h, live, q);
  }

  /** Removing a live node leaves the list of the others, and restoring it undoes the removal. */
  lemma RemoveRestore(h: Heap, live: set<nat>, c: nat)
    requires Linked(h, live) && c in live && c != 0
    ensures Removable(h, c) && Linked(Remove(h, c), live - {c})
    ensures Removable(Remove(h, c), c) && Restore(Remove(h, c), c) == h
  {
    assert NextOk(h, live, c) && PrevOk(h, live, c);
    forall p | p in live - {c} ensures NextOk(Remove(h, c), live - {c}, p) {
      RemoveNext(h, live, c, p);
    }
    forall q | q in live - {c} && q != 0 ensures PrevOk(Remove(h, c), live - {c}, q) {
      RemovePrev(h, live, c, q);
    }
    var h' := Remove(h, c);
    assert Restore(h', c).next == h.next;
    assert Restore(h', c).prev == h.prev;
  }

  // ---------------------------------------------------------------- lift and unlift

  predicate Liftable(h: Heap, c: nat, r: nat) {
    Removable(h, c) && Removable(Remove(h, c), r)
  }

  function Lift(h: Heap, c: nat, r: nat): Heap
    requires Liftable(h, c, r)
  {
    Remove(Remove(h, c), r)
  }

  predicate Unliftable(h: Heap, c: nat, r: nat) {
    Removable(h, r) && Removable(Restore(h, r), c)
  }

  function Unlift(h: Heap, c: nat, r: nat): Heap
    requires Unliftable(h, c, r)
  {
    Restore(Restore(h, r), c)
  }

  /** Lifting a call and its return leaves the list of the others, and unlift exactly undoes lift. */
  lemma LiftUnlift(h: Heap, live: set<nat>, c: nat, r: nat)
    requires Linked(h, live) && c in live && r in live && c != 0 && r != 0 && c != r
    ensures Liftable(h, c, r) && Linked(Lift(h, c, r), live - {c, r})
    ensures Unliftable(Lift(h, c, r), c, r) && Unlift(Lift(h, c, r), c, r) == h
  {
    hide Linked, Remove, Restore, Removable;
    RemoveRestore(h, live, c);
    RemoveRestore(Remove(h, c), live - {c}, r);
    assert live - {c} - {r} == live - {c, r};
  }

  // ---------------------------------------------------------------- the whole list

  function Chain(n: nat): Heap {
    Heap(seq(n + 1, i => if i < n then i + 1 else NIL), seq(n + 1, i => i - 1))
  }

  predicate UpTo(x: nat, n: nat) {
    x <= n
  }

  lemma ChainLinked(n: nat)
    ensures Linked(Chain(n), set p: nat | p <= n && UpTo(p, n))
  {
  }

  /** The positions that following `next` meets after p. */
  ghost function Walk(h: Heap, live: set<nat>, p: nat): seq<nat>
    requires Linked(h, live) && p in live
    decreases |h.next| - p
  {
    assert NextOk(h, live, p);
    if h.next[p] == NIL then [] else [h.next[p]] + Walk(h, live, h.next[p])
  }

  /** Walking from p meets the live positions after it, each once, in the order of the history. */
  lemma {:induction false} WalkIsLive(h: Heap, live: set<nat>, p: nat)
    requires Linked(h, live) && p in live
    ensures forall x: nat :: x in Walk(h, live, p) <==> x in live && x > p
    ensures Increasing(Walk(h, live, p))
    decreases |h.next| - p
  {
    assert NextOk(h, live, p);
    if h.next[p] != NIL {
      var q := h.next[p];
      WalkIsLive(h, live, q);
      hide Linked;
      IncreasingCons(q, Walk(h, live, q));
    }
  }

  ghost predicate Increasing(s: seq<nat>) {
    forall i, j :: 0 <= i < j < |s| ==> s[i] < s[j]
  }

  lemma IncreasingCons(q: nat, s: seq<nat>)
    requires Increasing(s) && forall x :: x in s ==> x > q
    ensures Increasing([q] + s)
  {
    assert forall i :: 0 <= i < |s| ==> s[i] in s;
  }
}
