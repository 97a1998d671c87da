/**
 What the checker in labs/src/porcupine decides: a history of completed operations is
 linearizable when its operations can be put in one order that the sequential model accepts
 and that keeps every operation that returned before another was called in front of it.
 */
module Linearizability {
  import opened IdLists

  /** `step` says whether the model can take an input with an output, and the state it leads to. */
  datatype Model<!S, !I, !O> = Model(init: S, step: (S, I, O) -> (bool, S), equal: (S, S) -> bool)

  datatype Operation<I, O> = Operation(input: I, output: O, call: int, ret: int)

  /** `Equal` is an equivalence that `Step` respects. */
  ghost predicate Lawful<S(!new), I(!new), O(!new)>(m: Model<S, I, O>) {
    && (forall s :: m.equal(s, s))
    && (forall s, t :: m.equal(s, t) ==> m.equal(t, s))
    && (forall s, t, u :: m.equal(s, t) && m.equal(t, u) ==> m.equal(s, u))
    && (forall s, t, i, o :: m.equal(s, t) ==>
          m.step(s, i, o).0 == m.step(t, i, o).0 && m.equal(m.step(s, i, o).1, m.step(t, i, o).1))
  }

  /** The model takes operation x. */
  function Step<S, I, O>(m: Model<S, I, O>, ops: seq<Operation<I, O>>, s: S, x: nat): (bool, S)
    requires x < |ops|
  {
    m.step(s, ops[x].input, ops[x].output)
  }

  // ---------------------------------------------------------------- the textbook definition

  function StateAfter<S, I, O>(m: Model<S, I, O>, ops: seq<Operation<I, O>>, p: seq<nat>): S
    requires Over(p, |ops|)
  {
    if p == [] then m.init else Step(m, ops, StateAfter(m, ops, p[..|p| - 1]), p[|p| - 1]).1
  }

  ghost predicate Accepts<S, I, O>(m: Model<S, I, O>, ops: seq<Operation<I, O>>, p: seq<nat>) {
    && Over(p, |ops|)
    && forall i {:trigger p[i]} :: 0 <= i < |p| ==> Step(m, ops, StateAfter(m, ops, p[..i]), p[i]).0
  }

  /** No operation of the order returned before an earlier one of the order was called. */
  ghost predicate RealTime<I, O>(ops: seq<Operation<I, O>>, p: seq<nat>) {
    && Over(p, |ops|)
    && forall i, j :: 0 <= i < j < |p| ==> ops[p[i]].call <= ops[p[j]].ret
  }

  ghost predicate Linearization<S, I, O>(m: Model<S, I, O>, ops: seq<Operation<I, O>>, p: seq<nat>) {
    && Distinct(p) && Elements(p) == Ids(|ops|)
    && RealTime(ops, p) && Accepts(m, ops, p)
  }

  ghost predicate Linearizable<S, I, O>(m: Model<S, I, O>, ops: seq<Operation<I, O>>) {
    exists p :: Linearization(m, ops, p)
  }

  /** Every operation returns no earlier than it is called. */
  ghost predicate Timely<I, O>(ops: seq<Operation<I, O>>) {
    forall x :: 0 <= x < |ops| ==> ops[x].call <= ops[x].ret
  }

  // ---------------------------------------------------------------- one operation at a time

  /** The operation may come first among the rest. */
  ghost predicate Minimal<I, O>(ops: seq<Operation<I, O>>, rest: set<nat>, x: nat) {
    x in rest && x < |ops| && forall y :: y in rest && y < |ops| ==> ops[x].call <= ops[y].ret
  }

  /** The order takes up the rest from a state, always with an operation that may come first. */
  ghost predicate Finishes<S, I, O>(m: Model<S, I, O>, ops: seq<Operation<I, O>>, rest: set<nat>, s: S, q: seq<nat>)
    decreases |q|
  {
    if q == [] then rest == {}
    else
      && Minimal(ops, rest, q[0])
      && Step(m, ops, s, q[0]).0
      && Finishes(m, ops, rest - {q[0]}, Step(m, ops, s, q[0]).1, q[1..])
  }

  ghost predicate CanFinish<S, I, O>(m: Model<S, I, O>, ops: seq<Operation<I, O>>, rest: set<nat>, s: S) {
    exists q :: Finishes(m, ops, rest, s, q)
  }

  /**
   A sequence that could be the beginning of a linearization: the model accepts it from the
   initial state and each operation may come first among those not yet taken.
   */
  ghost predicate Partial<S, I, O>(m: Model<S, I, O>, ops: seq<Operation<I, O>>, p: seq<nat>) {
    && Distinct(p) && Accepts(m, ops, p)
    && forall i {:trigger p[i]} :: 0 <= i < |p| ==> Minimal(ops, Rest(ops, p[..i]), p[i])
  }

  function Rest<I, O>(ops: seq<Operation<I, O>>, p: seq<nat>): set<nat> {
    Ids(|ops|) - Elements(p)
  }

  // ---------------------------------------------------------------- lemmas

  lemma RestPush<I, O>(ops: seq<Operation<I, O>>, p: seq<nat>, x: nat)
    ensures Rest(ops, p + [x]) == Rest(ops, p) - {x}
    ensures Elements(p + [x]) == Elements(p) + {x}
  {
  }

  lemma StatePush<S, I, O>(m: Model<S, I, O>, ops: seq<Operation<I, O>>, p: seq<nat>, x: nat)
    requires Over(p, |ops|) && x < |ops|
    ensures Over(p + [x], |ops|)
    ensures StateAfter(m, ops, p + [x]) == Step(m, ops, StateAfter(m, ops, p), x).1
  {
    assert (p + [x])[..|p|] == p;
  }

  lemma PartialPush<S, I, O>(m: Model<S, I, O>, ops: seq<Operation<I, O>>, p: seq<nat>, x: nat)
    requires Partial(m, ops, p) && Minimal(ops, Rest(ops, p), x) && Step(m, ops, StateAfter(m, ops, p), x).0
    ensures Partial(m, ops, p + [x])
  {
    hide StateAfter, Step, Minimal;
    assert x < |ops| && x !in p by { assert Minimal(ops, Rest(ops, p), x); MinimalIn(ops, Rest(ops, p), x); }
    var p' := p + [x];
    assert forall i :: 0 <= i <= |p| ==> p'[..i] == p[..i];
    assert p[..|p|] == p;
  }

  lemma MinimalIn<I, O>(ops: seq<Operation<I, O>>, rest: set<nat>, x: nat)
    requires Minimal(ops, rest, x)
    ensures x in rest && x < |ops|
  {
  }

  lemma PartialPop<S, I, O>(m: Model<S, I, O>, ops: seq<Operation<I, O>>, p: seq<nat>, k: nat)
    requires Partial(m, ops, p) && k <= |p|
    ensures Partial(m, ops, p[..k])
  {
    hide StateAfter, Step, Minimal;
    assert forall i :: 0 <= i < k ==> p[..k][..i] == p[..i] && p[..k][i] == p[i];
  }

  /** A complete partial order is a linearization, and a linearization is one. */
  lemma CompletePartial<S, I, O>(m: Model<S, I, O>, ops: seq<Operation<I, O>>, p: seq<nat>)
    requires Timely(ops)
    ensures Linearization(m, ops, p) <==> Partial(m, ops, p) && Elements(p) == Ids(|ops|)
  {
    hide StateAfter, Step;
    if Linearization(m, ops, p) {
      forall i | 0 <= i < |p| ensures Minimal(ops, Rest(ops, p[..i]), p[i]) {
        assert p[i] in Elements(p);
        assert p[i] !in p[..i];
        forall y | y in Rest(ops, p[..i]) ensures ops[p[i]].call <= ops[y].ret {
          assert y in Elements(p);
          var j :| 0 <= j < |p| && p[j] == y;
          assert p[j] !in p[..i];
        }
      }
    }
    if Partial(m, ops, p) && Elements(p) == Ids(|ops|) {
      forall i, j | 0 <= i < j < |p| ensures ops[p[i]].call <= ops[p[j]].ret {
        assert Minimal(ops, Rest(ops, p[..i]), p[i]);
        assert p[j] !in p[..i];
        assert p[j] in Elements(p);
      }
    }
  }

  /** Finishing after a partial order gives a linearization: the two ways of building agree. */
  lemma {:induction false} FinishPartial<S, I, O>(m: Model<S, I, O>, ops: seq<Operation<I, O>>, p: seq<nat>, q: seq<nat>)
    requires Over(p, |ops|) && Partial(m, ops, p) && Finishes(m, ops, Rest(ops, p), StateAfter(m, ops, p), q)
    ensures Over(p + q, |ops|) && Partial(m, ops, p + q) && Elements(p + q) == Ids(|ops|)
    decreases |q|
  {
    hide *;
    if q == [] {
      FinishesEmpty(m, ops, Rest(ops, p), StateAfter(m, ops, p), q);
      PartialAll(m, ops, p);
      assert p + q == p;
    } else {
      FinishesCons(m, ops, Rest(ops, p), StateAfter(m, ops, p), q);
      PartialPush(m, ops, p, q[0]);
      StatePush(m, ops, p, q[0]);
      RestPush(ops, p, q[0]);
      FinishPartial(m, ops, p + [q[0]], q[1..]);
      assert p + [q[0]] + q[1..] == p + q;
    }
  }

  lemma FinishesEmpty<S, I, O>(m: Model<S, I, O>, ops: seq<Operation<I, O>>, rest: set<nat>, s: S, q: seq<nat>)
    requires q == [] && Finishes(m, ops, rest, s, q)
    ensures rest == {}
  {
  }

  lemma FinishesCons<S, I, O>(m: Model<S, I, O>, ops: seq<Operation<I, O>>, rest: set<nat>, s: S, q: seq<nat>)
    requires q != [] && Finishes(m, ops, rest, s, q)
    ensures q[0] < |ops| && Minimal(ops, rest, q[0]) && Step(m, ops, s, q[0]).0
    ensures Finishes(m, ops, rest - {q[0]}, Step(m, ops, s, q[0]).1, q[1..])
  {
  }

  lemma PartialAll<S, I, O>(m: Model<S, I, O>, ops: seq<Operation<I, O>>, p: seq<nat>)
    requires Partial(m, ops, p) && Rest(ops, p) == {}
    ensures Elements(p) == Ids(|ops|)
  {
    forall x ensures x in Elements(p) <==> x in Ids(|ops|) {
      assert x in Ids(|ops|) && x !in Elements(p) ==> x in Rest(ops, p);
    }
  }

  lemma {:induction false} PartialFinish<S, I, O>(m: Model<S, I, O>, ops: seq<Operation<I, O>>, p: seq<nat>, k: nat)
    requires Partial(m, ops, p) && Elements(p) == Ids(|ops|) && k <= |p|
    ensures Over(p[..k], |ops|)
    ensures Finishes(m, ops, Rest(ops, p[..k]), StateAfter(m, ops, p[..k]), p[k..])
    decreases |p| - k
  {
    hide StateAfter, Minimal, Step, Distinct;
    if k == |p| {
      assert p[..k] == p;
    } else {
      PartialFinish(m, ops, p, k + 1);
      assert p[..k + 1] == p[..k] + [p[k]];
      StatePush(m, ops, p[..k], p[k]);
      RestPush(ops, p[..k], p[k]);
      assert p[k..][1..] == p[k + 1..];
      assert p[k..][0] == p[k];
    }
  }

  /** A history is linearizable exactly when it can be taken up one operation at a time. */
  lemma LinearizableByStages<S, I, O>(m: Model<S, I, O>, ops: seq<Operation<I, O>>)
    requires Timely(ops)
    ensures Linearizable(m, ops) <==> CanFinish(m, ops, Ids(|ops|), m.init)
  {
    hide Linearization, Finishes;
    assert Rest(ops, []) == Ids(|ops|);
    if p :| Linearization(m, ops, p) {
      CompletePartial(m, ops, p);
      PartialFinish(m, ops, p, 0);
      assert p[..0] == [];
      assert Finishes(m, ops, Ids(|ops|), m.init, p[0..]);
    }
    if q :| Finishes(m, ops, Ids(|ops|), m.init, q) {
      FinishPartial(m, ops, [], q);
      assert [] + q == q;
      CompletePartial(m, ops, q);
    }
  }

  /** States that the model calls equal can finish the same operations. */
  lemma {:induction false} EqualFinishes<S(!new), I(!new), O(!new)>(m: Model<S, I, O>, ops: seq<Operation<I, O>>, rest: set<nat>, s: S, t: S, q: seq<nat>)
    requires Lawful(m) && m.equal(s, t) && Finishes(m, ops, rest, s, q)
    ensures Finishes(m, ops, rest, t, q)
    decreases |q|
  {
    if q != [] {
      assert Minimal(ops, rest, q[0]);
      hide Minimal;
      EqualFinishes(m, ops, rest - {q[0]}, Step(m, ops, s, q[0]).1, Step(m, ops, t, q[0]).1, q[1..]);
    }
  }

  lemma EqualCanFinish<S(!new), I(!new), O(!new)>(m: Model<S, I, O>, ops: seq<Operation<I, O>>, rest: set<nat>, s: S, t: S)
    requires Lawful(m) && m.equal(s, t) && CanFinish(m, ops, rest, s)
    ensures CanFinish(m, ops, rest, t)
  {
    hide Finishes, Lawful;
    var q :| Finishes(m, ops, rest, s, q);
    EqualFinishes(m, ops, rest, s, t, q);
  }

  /** An operation of the rest that can be taken next with the others still finishing. */
  ghost predicate Opens<S, I, O>(m: Model<S, I, O>, ops: seq<Operation<I, O>>, rest: set<nat>, s: S, x: nat) {
    Minimal(ops, rest, x) && Step(m, ops, s, x).0 && CanFinish(m, ops, rest - {x}, Step(m, ops, s, x).1)
  }

  lemma FinishFirst<S, I, O>(m: Model<S, I, O>, ops: seq<Operation<I, O>>, rest: set<nat>, s: S)
    ensures CanFinish(m, ops, rest, s) <==> rest == {} || exists x: nat :: Opens(m, ops, rest, s, x)
  {
    if q :| Finishes(m, ops, rest, s, q) {
      if q != [] {
        assert Finishes(m, ops, rest - {q[0]}, Step(m, ops, s, q[0]).1, q[1..]);
        assert Opens(m, ops, rest, s, q[0]);
      }
    }
    if rest == {} {
      assert Finishes(m, ops, rest, s, []);
    }
    if x: nat :| Opens(m, ops, rest, s, x) {
      var q :| Finishes(m, ops, rest - {x}, Step(m, ops, s, x).1, q);
      assert ([x] + q)[1..] == q;
      assert Finishes(m, ops, rest, s, [x] + q);
    }
  }
}
