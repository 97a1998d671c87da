/**
 The specification of a single key in labs/src/models/kv.go, the whole-store specification it
 stands for, and why histories may be checked one key at a time.
 */
module KvModel {
  import Lexicographic
  import opened IdLists
  import opened Linearizability
  import opened MapIteration
  import Sorting

  /** `op` is 0 for get, 1 for put; every other code is an append. */
  datatype KvInput = KvInput(op: bv8, key: string, value: string)

  datatype KvOutput = KvOutput(value: string)

  type KvOperation = Operation<KvInput, KvOutput>

  function KvStep(st: string, inp: KvInput, out: KvOutput): (bool, string) {
    if inp.op == 0 then (out.value == st, st)
    else if inp.op == 1 then (true, inp.value)
    else (true, st + inp.value)
  }

  /** The model of one key's value, compared by `==`. */
  function OneKey(): Model<string, KvInput, KvOutput> {
    Model("", KvStep, (s, t) => s == t)
  }

  function Value(kv: map<string, string>, key: string): string {
    if key in kv then kv[key] else ""
  }

  function MapStep(kv: map<string, string>, inp: KvInput, out: KvOutput): (bool, map<string, string>) {
    var (ok, v) := KvStep(Value(kv, inp.key), inp, out);
    (ok, if inp.op == 0 then kv else kv[inp.key := v])
  }

  /** The whole store: every operation acts on the value of its own key. */
  function WholeStore(): Model<map<string, string>, KvInput, KvOutput> {
    Model(map[], MapStep, (s, t) => s == t)
  }

  lemma OneKeyIsLawful()
    ensures Lawful(OneKey())
  {
  }

  // ---------------------------------------------------------------- partition by key

  /** The positions of the operations on a key, in order. */
  function Positions(history: seq<KvOperation>, key: string): (f: seq<nat>)
    ensures Over(f, |history|) && Distinct(f)
    ensures forall x: nat :: x in f <==> x < |history| && history[x].input.key == key
  {
    if history == [] then []
    else
      var f := Positions(history[..|history| - 1], key);
      if history[|history| - 1].input.key == key then f + [|history| - 1] else f
  }

  /** A history seen through a list of positions. */
  function Pick<T>(ops: seq<T>, f: seq<nat>): (r: seq<T>)
    requires Over(f, |ops|)
    ensures |r| == |f| && forall i :: 0 <= i < |f| ==> r[i] == ops[f[i]]
  {
    seq(|f|, i requires 0 <= i < |f| => ops[f[i]])
  }

  function OfKey(history: seq<KvOperation>, key: string): seq<KvOperation> {
    Pick(history, Positions(history, key))
  }

  // ---------------------------------------------------------------- renaming operations

  ghost function Image(f: seq<nat>, rest: set<nat>): set<nat>
    requires forall x :: x in rest ==> x < |f|
  {
    set x | x in rest :: f[x]
  }

  lemma MinimalRenamed<I, O>(ops: seq<Operation<I, O>>, f: seq<nat>, rest: set<nat>, x: nat)
    requires Over(f, |ops|) && x in rest && forall y :: y in rest ==> y < |f|
    ensures Minimal(Pick(ops, f), rest, x) <==> Minimal(ops, Image(f, rest), f[x])
  {
    if Minimal(ops, Image(f, rest), f[x]) {
      forall y | y in rest ensures Pick(ops, f)[x].call <= Pick(ops, f)[y].ret {
        assert f[y] in Image(f, rest);
      }
    }
  }

  lemma ImageLess(f: seq<nat>, rest: set<nat>, x: nat)
    requires Distinct(f) && x in rest && forall y :: y in rest ==> y < |f|
    ensures Image(f, rest - {x}) == Image(f, rest) - {f[x]}
  {
    forall y | y in rest && y != x ensures f[y] != f[x] {
    }
  }

  /** Linearizability does not depend on how operations are numbered. */
  lemma {:induction false} Renamed<S, I, O>(m: Model<S, I, O>, ops: seq<Operation<I, O>>, f: seq<nat>, rest: set<nat>, s: S)
    requires Over(f, |ops|) && Distinct(f) && forall x :: x in rest ==> x < |f|
    ensures CanFinish(m, Pick(ops, f), rest, s) <==> CanFinish(m, ops, Image(f, rest), s)
    decreases |rest|
  {
    hide CanFinish, Minimal, Distinct;
    var ops' := Pick(ops, f);
    FinishFirst(m, ops', rest, s);
    FinishFirst(m, ops, Image(f, rest), s);
    forall x: nat | x in rest ensures Opens(m, ops', rest, s, x) <==> Opens(m, ops, Image(f, rest), s, f[x]) {
      MinimalRenamed(ops, f, rest, x);
      ImageLess(f, rest, x);
      Renamed(m, ops, f, rest - {x}, Step(m, ops, s, f[x]).1);
    }
    if x: nat :| Opens(m, ops', rest, s, x) {
      MinimalIn(ops', rest, x);
    }
    if y: nat :| Opens(m, ops, Image(f, rest), s, y) {
      MinimalIn(ops, Image(f, rest), y);
      var x :| x in rest && f[x] == y;
    }
    assert rest != {} ==> Image(f, rest) != {} by {
      if x :| x in rest {
        assert f[x] in Image(f, rest);
      }
    }
  }

  // ---------------------------------------------------------------- locality

  function OnKey(history: seq<KvOperation>, rest: set<nat>, key: string): set<nat> {
    set x | x in rest && x < |history| && history[x].input.key == key
  }

  lemma {:induction false} EarliestReturn(history: seq<KvOperation>, rest: set<nat>)
    requires rest != {} && forall x :: x in rest ==> x < |history|
    ensures exists b :: b in rest && forall c :: c in rest ==> history[b].ret <= history[c].ret
    decreases |rest|
  {
    var x :| x in rest;
    var others := rest - {x};
    assert forall c :: c in rest ==> c == x || c in others;
    if others == {} {
      assert forall c :: c in rest ==> history[x].ret <= history[c].ret;
    } else {
      EarliestReturn(history, others);
      var b :| b in others && forall c :: c in others ==> history[b].ret <= history[c].ret;
      var best := if history[x].ret < history[b].ret then x else b;
      assert best in rest && forall c :: c in rest ==> history[best].ret <= history[c].ret;
    }
  }

  /** A linearization of everything keeps, key by key, linearizations of the parts. */
  lemma {:induction false} Project(history: seq<KvOperation>, rest: set<nat>, kv: map<string, string>, key: string)
    requires CanFinish(WholeStore(), history, rest, kv)
    ensures CanFinish(OneKey(), history, OnKey(history, rest, key), Value(kv, key))
    decreases |rest|
  {
    hide CanFinish, Minimal;
    FinishFirst(WholeStore(), history, rest, kv);
    FinishFirst(OneKey(), history, OnKey(history, rest, key), Value(kv, key));
    if rest == {} {
      assert OnKey(history, rest, key) == {};
    } else {
      var x: nat :| Opens(WholeStore(), history, rest, kv, x);
      MinimalIn(history, rest, x);
      Project(history, rest - {x}, Step(WholeStore(), history, kv, x).1, key);
      if history[x].input.key == key {
        MinimalOnKey(history, rest, x);
        assert OnKey(history, rest - {x}, key) == OnKey(history, rest, key) - {x};
        assert Opens(OneKey(), history, OnKey(history, rest, key), Value(kv, key), x);
      } else {
        assert OnKey(history, rest - {x}, key) == OnKey(history, rest, key);
      }
    }
  }

  lemma MinimalOnKey(history: seq<KvOperation>, rest: set<nat>, x: nat)
    requires Minimal(history, rest, x)
    ensures Minimal(history, OnKey(history, rest, history[x].input.key), x)
  {
  }

  /**
   Linearizations of the parts can be merged.  The next operation of the key on which the
   earliest return is still outstanding was called before every outstanding return.
   */
  lemma {:induction false} Merge(history: seq<KvOperation>, rest: set<nat>, kv: map<string, string>)
    requires forall x :: x in rest ==> x < |history|
    requires forall key :: CanFinish(OneKey(), history, OnKey(history, rest, key), Value(kv, key))
    ensures CanFinish(WholeStore(), history, rest, kv)
    decreases |rest|
  {
    hide CanFinish, Minimal;
    FinishFirst(WholeStore(), history, rest, kv);
    if rest != {} {
      EarliestReturn(history, rest);
      var b :| b in rest && forall c :: c in rest ==> history[b].ret <= history[c].ret;
      var key := history[b].input.key;
      var mine := OnKey(history, rest, key);
      assert b in mine;
      FinishFirst(OneKey(), history, mine, Value(kv, key));
      var x: nat :| Opens(OneKey(), history, mine, Value(kv, key), x);
      EarliestIsMinimal(history, rest, b, x);
      var kv' := Step(WholeStore(), history, kv, x).1;
      forall k ensures CanFinish(OneKey(), history, OnKey(history, rest - {x}, k), Value(kv', k)) {
        assert CanFinish(OneKey(), history, OnKey(history, rest, k), Value(kv, k));
        if k == key {
          assert OnKey(history, rest - {x}, k) == mine - {x};
        } else {
          assert OnKey(history, rest - {x}, k) == OnKey(history, rest, k);
        }
      }
      Merge(history, rest - {x}, kv');
      assert Opens(WholeStore(), history, rest, kv, x);
    }
  }

  lemma EarliestIsMinimal(history: seq<KvOperation>, rest: set<nat>, b: nat, x: nat)
    requires forall x :: x in rest ==> x < |history|
    requires b in rest && forall c :: c in rest ==> history[b].ret <= history[c].ret
    requires Minimal(history, OnKey(history, rest, history[b].input.key), x)
    ensures x in rest && x < |history| && history[x].input.key == history[b].input.key && Minimal(history, rest, x)
  {
    assert b in OnKey(history, rest, history[b].input.key);
  }

  /**
   Locality: a history over many keys is linearizable against the whole store exactly when
   the part on every key is linearizable against the model of one key.
   */
  lemma Locality(history: seq<KvOperation>)
    requires Timely(history)
    ensures Linearizable(WholeStore(), history) <==> forall key :: Linearizable(OneKey(), OfKey(history, key))
  {
    hide CanFinish, Linearizable;
    var all := Ids(|history|);
    LinearizableByStages(WholeStore(), history);
    forall key ensures Linearizable(OneKey(), OfKey(history, key)) <==> CanFinish(OneKey(), history, OnKey(history, all, key), "") {
      PartByStages(history, key);
    }
    if CanFinish(WholeStore(), history, all, map[]) {
      forall key ensures Linearizable(OneKey(), OfKey(history, key)) {
        Project(history, all, map[], key);
      }
    }
    if forall key :: Linearizable(OneKey(), OfKey(history, key)) {
      forall key ensures CanFinish(OneKey(), history, OnKey(history, all, key), Value(map[], key)) {
        assert Linearizable(OneKey(), OfKey(history, key));
      }
      Merge(history, all, map[]);
    }
  }

  lemma PartByStages(history: seq<KvOperation>, key: string)
    requires Timely(history)
    ensures Linearizable(OneKey(), OfKey(history, key)) <==>
            CanFinish(OneKey(), history, OnKey(history, Ids(|history|), key), "")
  {
    hide CanFinish, Linearizable;
    var f := Positions(history, key);
    LinearizableByStages(OneKey(), OfKey(history, key));
    Renamed(OneKey(), history, f, Ids(|f|), "");
    var part := OnKey(history, Ids(|history|), key);
    forall x: nat ensures x in Image(f, Ids(|f|)) <==> x in part {
      if x in part {
        assert x in f;
        var i: nat :| i < |f| && f[i] == x;
        assert i in Ids(|f|);
      }
    }
    assert Image(f, Ids(|f|)) == part;
  }

  // ---------------------------------------------------------------- the partition loop

  lemma OfKeyPush(history: seq<KvOperation>, v: KvOperation, key: string)
    ensures OfKey(history + [v], key) == OfKey(history, key) + if v.input.key == key then [v] else []
  {
    assert (history + [v])[..|history|] == history;
  }

  ghost predicate Has(history: seq<KvOperation>, key: string) {
    exists x :: 0 <= x < |history| && history[x].input.key == key
  }

  lemma SomeOfKey(history: seq<KvOperation>, key: string)
    requires Positions(history, key) != []
    ensures Has(history, key)
  {
    var x := Positions(history, key)[0];
    assert x in Positions(history, key);
    assert history[x].input.key == key;
  }

  lemma NoneOfKey(history: seq<KvOperation>, key: string)
    requires !Has(history, key)
    ensures OfKey(history, key) == []
    ensures Linearizable(OneKey(), OfKey(history, key))
  {
    var f := Positions(history, key);
    if f != [] {
      SomeOfKey(history, key);
    }
    assert Elements([]) == Ids(0);
    assert Linearization(OneKey(), OfKey(history, key), []);
  }

  // ---------------------------------------------------------------- the order of keys

  predicate CharLess(x: char, y: char) {
    x < y
  }

  /** The order in which `sort.Strings` puts the keys. */
  predicate KeyLess(a: string, b: string) {
    Lexicographic.Less(CharLess, a, b)
  }

  lemma KeyLessTotal(a: string, b: string)
    ensures KeyLess(a, b) || KeyLess(b, a) || a == b
    ensures !(KeyLess(a, b) && KeyLess(b, a)) && !KeyLess(a, a)
  {
    assert Lexicographic.Strict(CharLess);
    hide Lexicographic.Less;
    Lexicographic.LessTotal(CharLess, a, b);
    Lexicographic.LessTotal(CharLess, a, a);
  }

  lemma KeyLessTransitive(a: string, b: string, c: string)
    requires KeyLess(a, b) && KeyLess(b, c)
    ensures KeyLess(a, c)
  {
    hide KeyLess;
    KeyLessTotal(a, b);
    KeyLessTotal(b, c);
    KeyLessTotal(a, c);
    KeyNotLess(a, b, c);
  }

  lemma KeyNotLess(a: string, b: string, c: string)
    requires !KeyLess(b, a) && !KeyLess(c, b)
    ensures !KeyLess(c, a)
  {
    assert Lexicographic.Strict(CharLess);
    hide Lexicographic.Less;
    Lexicographic.NotLessTransitive(CharLess, a, b, c);
  }

  ghost predicate InKeyOrder(keys: seq<string>) {
    forall i, j :: 0 <= i < j < |keys| ==> KeyLess(keys[i], keys[j])
  }

  lemma InsertInOrder(keys: seq<string>, j: nat, k: string)
    requires InKeyOrder(keys) && j <= |keys| && k !in keys
    requires forall i :: 0 <= i < j ==> KeyLess(keys[i], k)
    requires j < |keys| ==> !KeyLess(keys[j], k)
    ensures InKeyOrder(Sorting.InsertAt(keys, j, k))
    ensures forall x :: x in Sorting.InsertAt(keys, j, k) <==> x in keys || x == k
  {
    hide KeyLess;
    forall i | j <= i < |keys| ensures KeyLess(k, keys[i]) {
      KeyLessTotal(keys[j], k);
      if i > j {
        KeyLessTransitive(k, keys[j], keys[i]);
      }
    }
    var r := Sorting.InsertAt(keys, j, k);
    forall x, y | 0 <= x < y < |r| ensures KeyLess(r[x], r[y]) {
    }
    Sorting.InsertAtSame(keys, j, k);
  }

  /** The keys of the map, which may come in any order, sorted. */
  method SortedKeys<V>(m: map<string, V>) returns (keys: seq<string>)
    ensures InKeyOrder(keys) && forall k :: k in keys <==> k in m
  {
    hide KeyLess;
    keys := [];
    var rest := m;
    while rest != map[]
      invariant rest.Keys <= m.Keys && InKeyOrder(keys)
      invariant forall k :: k in keys <==> k in m && k !in rest
      decreases |rest|
    {
      var k := PickKey(rest);
      var j := 0;
      while j < |keys| && KeyLess(keys[j], k)
        invariant 0 <= j <= |keys| && forall i :: 0 <= i < j ==> KeyLess(keys[i], k)
      {
        j := j + 1;
      }
      InsertInOrder(keys, j, k);
      SmallerMap(rest, k);
      keys := Sorting.InsertAt(keys, j, k);
      rest := rest - {k};
    }
  }

  /** The parts name every key of the history once, in order. */
  ghost predicate Parts(history: seq<KvOperation>, keys: seq<string>, parts: seq<seq<KvOperation>>) {
    && |keys| == |parts| && InKeyOrder(keys)
    && (forall k :: k in keys <==> Has(history, k))
    && (forall i :: 0 <= i < |keys| ==> parts[i] == OfKey(history, keys[i]))
  }

  lemma PartsDecide(history: seq<KvOperation>, keys: seq<string>, parts: seq<seq<KvOperation>>)
    requires Timely(history) && Parts(history, keys, parts)
    ensures Linearizable(WholeStore(), history) <==> forall i :: 0 <= i < |parts| ==> Linearizable(OneKey(), parts[i])
  {
    hide Linearizable;
    Locality(history);
    if forall i :: 0 <= i < |parts| ==> Linearizable(OneKey(), parts[i]) {
      forall key ensures Linearizable(OneKey(), OfKey(history, key)) {
        if Has(history, key) {
          var i :| 0 <= i < |keys| && keys[i] == key;
          assert Linearizable(OneKey(), parts[i]);
        } else {
          NoneOfKey(history, key);
        }
      }
    }
  }

  /** The map holds the operations of every key, in order. */
  ghost predicate Grouped(history: seq<KvOperation>, m: map<string, seq<KvOperation>>) {
    && (forall k :: k in m <==> Has(history, k))
    && (forall k :: k in m ==> m[k] == OfKey(history, k))
  }

  lemma HasPush(history: seq<KvOperation>, v: KvOperation, k: string)
    ensures Has(history + [v], k) <==> Has(history, k) || k == v.input.key
  {
    var longer := history + [v];
    assert longer[|history|] == v;
    if x :| 0 <= x < |history| && history[x].input.key == k {
      assert longer[x].input.key == k;
    }
  }

  lemma GroupOne(history: seq<KvOperation>, v: KvOperation, m: map<string, seq<KvOperation>>)
    requires Grouped(history, m)
    ensures var key := v.input.key;
      Grouped(history + [v], m[key := (if key in m then m[key] else []) + [v]])
  {
    hide OfKey, Has, Linearizable;
    var key := v.input.key;
    var m' := m[key := (if key in m then m[key] else []) + [v]];
    forall k ensures k in m' <==> Has(history + [v], k) {
      HasPush(history, v, k);
    }
    forall k | k in m' ensures m'[k] == OfKey(history + [v], k) {
      OfKeyPush(history, v, k);
      if k !in m {
        NoneOfKey(history, k);
      }
    }
  }

  /** Splits a history by key, in the order of the keys: all parts are linearizable exactly when the history is. */
  method Partition(history: seq<KvOperation>) returns (parts: seq<seq<KvOperation>>, ghost keys: seq<string>)
    ensures Parts(history, keys, parts)
    ensures Timely(history) ==>
      (Linearizable(WholeStore(), history) <==> forall i :: 0 <= i < |parts| ==> Linearizable(OneKey(), parts[i]))
  {
    hide Linearizable, OfKey, Has, Timely, KeyLess;
    var m: map<string, seq<KvOperation>> := map[];
    assert Grouped([], m) by { NothingGrouped(); }
    for i := 0 to |history|
      invariant Grouped(history[..i], m)
    {
      var v := history[i];
      var key := v.input.key;
      GroupOne(history[..i], v, m);
      assert history[..i + 1] == history[..i] + [v];
      m := m[key := (if key in m then m[key] else []) + [v]];
    }
    assert history[..|history|] == history;
    var sorted := SortedKeys(m);
    keys := sorted;
    parts := [];
    for i := 0 to |sorted|
      invariant |parts| == i
      invariant forall x :: 0 <= x < i ==> parts[x] == OfKey(history, keys[x])
    {
      parts := parts + [m[sorted[i]]];
    }
    if Timely(history) {
      PartsDecide(history, keys, parts);
    }
  }

  lemma NothingGrouped()
    ensures Grouped([], map[])
  {
  }
}
