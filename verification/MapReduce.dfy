/**
 The MapReduce data path: the workers of labs/src/mr/worker.go, which spread pairs over
 buckets by a hash of the key and reduce every bucket on its own, against the sequential
 program of labs/src/main/mrsequential.go.
 */
module MapReduce {
  import Lexicographic

  type Bytes = seq<bv8>

  datatype KeyValue = KeyValue(key: Bytes, value: Bytes)

  /** A line of output. */
  datatype Line = Line(key: Bytes, output: Bytes)

  datatype Input = Input(name: Bytes, content: Bytes)

  type MapFunc = (Bytes, Bytes) -> seq<KeyValue>

  type ReduceFunc = (Bytes, seq<Bytes>) -> Bytes

  // ---------------------------------------------------------------- ihash

  /** One byte of FNV-1a on 32 bits. */
  function FnvStep(h: bv32, b: bv8): bv32 {
    (h ^ (b as bv32)) * 16777619
  }

  function Fnv32a(key: Bytes): bv32 {
    if key == [] then 2166136261 else FnvStep(Fnv32a(key[..|key| - 1]), key[|key| - 1])
  }

  function Ihash(key: Bytes): nat {
    (Fnv32a(key) & 0x7fffffff) as nat
  }

  function Bucket(key: Bytes, nReduce: nat): (r: nat)
    requires nReduce > 0
    ensures r < nReduce
  {
    Ihash(key) % nReduce
  }

  lemma FnvSteps()
    ensures FnvStep(0x811c9dc5, 0x61) == 0xe40c292c
    ensures FnvStep(0x811c9dc5, 0x66) == 0xe30c2799
    ensures FnvStep(0xe30c2799, 0x6f) == 0x6222e842
    ensures FnvStep(0x6222e842, 0x6f) == 0xa9f37ed7
    ensures FnvStep(0xa9f37ed7, 0x62) == 0x3f5076ef
    ensures FnvStep(0x3f5076ef, 0x61) == 0x39aaa18a
    ensures FnvStep(0x39aaa18a, 0x72) == 0xbf9cf968
  {
  }

  lemma FnvPush(key: Bytes, b: bv8)
    ensures Fnv32a(key + [b]) == FnvStep(Fnv32a(key), b)
  {
    hide FnvStep;
    assert (key + [b])[..|key|] == key;
  }

  /** The published values of FNV-1a for the empty string, "a" and "foobar". */
  lemma FnvVectors()
    ensures Fnv32a([]) == 0x811c9dc5
    ensures Fnv32a([0x61]) == 0xe40c292c
    ensures Fnv32a([0x66, 0x6f, 0x6f, 0x62, 0x61, 0x72]) == 0xbf9cf968
  {
    hide FnvStep;
    FnvSteps();
    var none: Bytes := [];
    FnvPush(none, 0x61);
    var f, fo := none + [0x66], none + [0x66] + [0x6f];
    FnvPush(none, 0x66);
    FnvPush(f, 0x6f);
    FnvPush(fo, 0x6f);
    FnvPush(fo + [0x6f], 0x62);
    FnvPush(fo + [0x6f] + [0x62], 0x61);
    FnvPush(fo + [0x6f] + [0x62] + [0x61], 0x72);
    var foobar: Bytes := [0x66, 0x6f, 0x6f, 0x62, 0x61, 0x72];
    assert foobar == fo + [0x6f] + [0x62] + [0x61] + [0x72];
    var letter: Bytes := [0x61];
    assert letter == none + [0x61];
  }

  /** The bucket does not depend on the hash's sign bit. */
  lemma BucketOfLetter()
    ensures Bucket([0x61], 10) == 2
  {
    hide Fnv32a;
    FnvVectors();
  }

  // ---------------------------------------------------------------- the order of keys

  predicate ByteLess(x: bv8, y: bv8) {
    x < y
  }

  predicate Less(a: Bytes, b: Bytes) {
    Lexicographic.Less(ByteLess, a, b)
  }

  lemma ByteOrder()
    ensures Lexicographic.Strict(ByteLess)
  {
  }

  lemma LessTotal(a: Bytes, b: Bytes)
    ensures Less(a, b) || Less(b, a) || a == b
    ensures !(Less(a, b) && Less(b, a))
  {
    hide Lexicographic.Strict, Lexicographic.Less;
    ByteOrder();
    Lexicographic.LessTotal(ByteLess, a, b);
  }

  lemma LessTransitive(a: Bytes, b: Bytes, c: Bytes)
    requires !Less(b, a) && !Less(c, b)
    ensures !Less(c, a)
  {
    hide Lexicographic.Strict, Lexicographic.Less;
    ByteOrder();
    Lexicographic.NotLessTransitive(ByteLess, a, b, c);
  }

  ghost predicate SortedByKey(kva: seq<KeyValue>) {
    forall i, j :: 0 <= i < j < |kva| ==> !Less(kva[j].key, kva[i].key)
  }

  /** Equal keys stand together. */
  ghost predicate Grouped(kva: seq<KeyValue>) {
    forall i, k, j :: 0 <= i < k < j < |kva| && kva[i].key == kva[j].key ==> kva[k].key == kva[i].key
  }

  lemma SortedIsGrouped(kva: seq<KeyValue>)
    requires SortedByKey(kva)
    ensures Grouped(kva)
  {
    forall i, k, j | 0 <= i < k < j < |kva| && kva[i].key == kva[j].key ensures kva[k].key == kva[i].key {
      LessTotal(kva[i].key, kva[k].key);
    }
  }

  // ---------------------------------------------------------------- values of a key

  function ValuesOf(kva: seq<KeyValue>, key: Bytes): seq<Bytes> {
    if kva == [] then []
    else ValuesOf(kva[..|kva| - 1], key) + if kva[|kva| - 1].key == key then [kva[|kva| - 1].value] else []
  }

  lemma {:induction false} ValuesSplit(a: seq<KeyValue>, b: seq<KeyValue>, key: Bytes)
    ensures ValuesOf(a + b, key) == ValuesOf(a, key) + ValuesOf(b, key)
    decreases |b|
  {
    if b == [] {
      assert a + b == a;
    } else {
      var n := |b| - 1;
      ValuesSplit(a, b[..n], key);
      assert (a + b)[..|a| + n] == a + b[..n];
    }
  }

  lemma ValuesWithout(b: seq<KeyValue>, j: nat, key: Bytes)
    requires j < |b|
    ensures multiset(ValuesOf(b, key)) ==
      multiset(ValuesOf(b[..j] + b[j + 1..], key)) + multiset(if b[j].key == key then [b[j].value] else [])
  {
    assert b == b[..j] + ([b[j]] + b[j + 1..]);
    ValuesSplit(b[..j], [b[j]] + b[j + 1..], key);
    ValuesSplit([b[j]], b[j + 1..], key);
    ValuesSplit(b[..j], b[j + 1..], key);
    assert [b[j]][..0] == [];
  }

  lemma MultisetWithout<T>(b: seq<T>, j: nat)
    requires j < |b|
    ensures multiset(b) == multiset(b[..j] + b[j + 1..]) + multiset{b[j]}
  {
    assert b == b[..j] + [b[j]] + b[j + 1..];
  }

  lemma SameRest<T>(a: multiset<T>, b: multiset<T>, x: T)
    requires a + multiset{x} == b + multiset{x}
    ensures a == b
  {
    assert a == (a + multiset{x}) - multiset{x};
    assert b == (b + multiset{x}) - multiset{x};
  }

  lemma MemberAt<T>(b: seq<T>, x: T)
    requires x in multiset(b)
    ensures exists j :: 0 <= j < |b| && b[j] == x
  {
  }

  /** The values of a key do not depend on how the pairs are arranged, but for their order. */
  lemma {:induction false} ValuesArranged(a: seq<KeyValue>, b: seq<KeyValue>, key: Bytes)
    requires multiset(a) == multiset(b)
    ensures multiset(ValuesOf(a, key)) == multiset(ValuesOf(b, key))
    decreases |a|
  {
    if a == [] {
      assert |multiset(b)| == 0;
    } else {
      hide ValuesOf;
      var n := |a| - 1;
      var x := a[n];
      assert x in multiset(a);
      MemberAt(b, x);
      var j :| 0 <= j < |b| && b[j] == x;
      var c, d := a[..n] + a[n + 1..], b[..j] + b[j + 1..];
      MultisetWithout(a, n);
      MultisetWithout(b, j);
      SameRest(multiset(c), multiset(d), x);
      ValuesArranged(c, d, key);
      ValuesWithout(a, n, key);
      ValuesWithout(b, j, key);
    }
  }

  // ---------------------------------------------------------------- buckets

  /** The pairs that go to bucket r, in order. */
  function InBucket(kva: seq<KeyValue>, nReduce: nat, r: nat): seq<KeyValue>
    requires nReduce > 0
  {
    if kva == [] then []
    else InBucket(kva[..|kva| - 1], nReduce, r) +
         if Bucket(kva[|kva| - 1].key, nReduce) == r then [kva[|kva| - 1]] else []
  }

  function HasKey(kva: seq<KeyValue>, key: Bytes): bool {
    exists i :: 0 <= i < |kva| && kva[i].key == key
  }

  lemma HasKeyPush(kva: seq<KeyValue>, kv: KeyValue, key: Bytes)
    ensures HasKey(kva + [kv], key) <==> HasKey(kva, key) || kv.key == key
  {
    var more := kva + [kv];
    assert more[|kva|] == kv;
    if i :| 0 <= i < |kva| && kva[i].key == key {
      assert more[i].key == key;
    }
  }

  /** A bucket holds all the pairs of its own keys and no other. */
  lemma {:induction false} BucketHolds(kva: seq<KeyValue>, nReduce: nat, r: nat, key: Bytes)
    requires nReduce > 0
    ensures HasKey(InBucket(kva, nReduce, r), key) <==> HasKey(kva, key) && Bucket(key, nReduce) == r
    ensures Bucket(key, nReduce) == r ==> ValuesOf(InBucket(kva, nReduce, r), key) == ValuesOf(kva, key)
    decreases |kva|
  {
    hide Bucket, HasKey;
    if kva != [] {
      var n := |kva| - 1;
      var front, kv := kva[..n], kva[n];
      assert kva == front + [kv];
      BucketHolds(front, nReduce, r, key);
      HasKeyPush(front, kv, key);
      var rest := InBucket(front, nReduce, r);
      HasKeyPush(rest, kv, key);
      ValuesSplit(rest, [kv], key);
      ValuesSplit(front, [kv], key);
      assert rest + [] == rest;
    } else {
      NoKeys(key);
    }
  }

  lemma NoKeys(key: Bytes)
    ensures !HasKey([], key)
  {
  }

  lemma {:induction false} BucketSplit(a: seq<KeyValue>, b: seq<KeyValue>, nReduce: nat, r: nat)
    requires nReduce > 0
    ensures InBucket(a + b, nReduce, r) == InBucket(a, nReduce, r) + InBucket(b, nReduce, r)
    decreases |b|
  {
    hide Bucket;
    if b == [] {
      assert a + b == a;
    } else {
      var n := |b| - 1;
      BucketSplit(a, b[..n], nReduce, r);
      assert (a + b)[..|a| + n] == a + b[..n];
    }
  }

  // ---------------------------------------------------------------- what reducing gives

  ghost predicate DifferentKeys(lines: seq<Line>) {
    forall i, j :: 0 <= i < j < |lines| ==> lines[i].key != lines[j].key
  }

  ghost predicate HasLine(lines: seq<Line>, key: Bytes) {
    exists i :: 0 <= i < |lines| && lines[i].key == key
  }

  /** One line for every key, with the reduction of all its values. */
  ghost predicate Outcome(reducef: ReduceFunc, kva: seq<KeyValue>, lines: seq<Line>) {
    && DifferentKeys(lines)
    && (forall key :: HasLine(lines, key) <==> HasKey(kva, key))
    && (forall i :: 0 <= i < |lines| ==> lines[i].output == reducef(lines[i].key, ValuesOf(kva, lines[i].key)))
  }

  /** The reduction does not depend on the order of the values. */
  ghost predicate Insensitive(reducef: ReduceFunc) {
    forall key, vs, ws :: multiset(vs) == multiset(ws) ==> reducef(key, vs) == reducef(key, ws)
  }

  lemma HasKeyArranged(a: seq<KeyValue>, b: seq<KeyValue>, key: Bytes)
    requires multiset(a) == multiset(b) && HasKey(a, key)
    ensures HasKey(b, key)
  {
    var i :| 0 <= i < |a| && a[i].key == key;
    assert a[i] in multiset(a);
    MemberAt(b, a[i]);
  }

  /** The outcome is the same however the pairs are arranged. */
  lemma OutcomeArranged(reducef: ReduceFunc, a: seq<KeyValue>, b: seq<KeyValue>, lines: seq<Line>)
    requires Insensitive(reducef) && multiset(a) == multiset(b) && Outcome(reducef, a, lines)
    ensures Outcome(reducef, b, lines)
  {
    hide HasKey, HasLine, ValuesOf;
    forall key ensures HasKey(a, key) <==> HasKey(b, key) {
      if HasKey(a, key) { HasKeyArranged(a, b, key); }
      if HasKey(b, key) { HasKeyArranged(b, a, key); }
    }
    forall i | 0 <= i < |lines| ensures lines[i].output == reducef(lines[i].key, ValuesOf(b, lines[i].key)) {
      ValuesArranged(a, b, lines[i].key);
    }
  }

  lemma {:induction false} OnceEach(lines: seq<Line>, x: Line)
    requires DifferentKeys(lines)
    ensures multiset(lines)[x] == if x in lines then 1 else 0
  {
    if lines != [] {
      var front := lines[..|lines| - 1];
      OnceEach(front, x);
      assert lines == front + [lines[|lines| - 1]];
    }
  }

  lemma LineFor(reducef: ReduceFunc, kva: seq<KeyValue>, one: seq<Line>, two: seq<Line>, x: Line)
    requires Outcome(reducef, kva, one) && Outcome(reducef, kva, two) && x in one
    ensures x in two
  {
    hide HasKey;
    assert HasLine(one, x.key);
    assert HasLine(two, x.key);
    var i :| 0 <= i < |two| && two[i].key == x.key;
    assert two[i] == x;
  }

  /** An outcome is determined up to the order of its lines. */
  lemma OutcomeUnique(reducef: ReduceFunc, kva: seq<KeyValue>, one: seq<Line>, two: seq<Line>)
    requires Outcome(reducef, kva, one) && Outcome(reducef, kva, two)
    ensures multiset(one) == multiset(two)
  {
    forall x ensures multiset(one)[x] == multiset(two)[x] {
      OnceEach(one, x);
      OnceEach(two, x);
      if x in one {
        LineFor(reducef, kva, one, two, x);
      }
      if x in two {
        LineFor(reducef, kva, two, one, x);
      }
    }
  }

  // ---------------------------------------------------------------- all buckets together

  function Flatten<T>(parts: seq<seq<T>>): seq<T> {
    if parts == [] then [] else Flatten(parts[..|parts| - 1]) + parts[|parts| - 1]
  }

  /** The outcome for the keys of the first m buckets. */
  ghost predicate OutcomeBelow(reducef: ReduceFunc, kva: seq<KeyValue>, nReduce: nat, m: nat, lines: seq<Line>)
    requires nReduce > 0
  {
    && DifferentKeys(lines)
    && (forall key :: HasLine(lines, key) <==> HasKey(kva, key) && Bucket(key, nReduce) < m)
    && (forall i :: 0 <= i < |lines| ==> lines[i].output == reducef(lines[i].key, ValuesOf(kva, lines[i].key)))
  }

  lemma HasLineSplit(a: seq<Line>, b: seq<Line>, key: Bytes)
    ensures HasLine(a + b, key) <==> HasLine(a, key) || HasLine(b, key)
  {
    if i :| 0 <= i < |a| && a[i].key == key {
      assert (a + b)[i].key == key;
    }
    if i :| 0 <= i < |b| && b[i].key == key {
      assert (a + b)[|a| + i].key == key;
    }
  }

  lemma OneMoreBucket(reducef: ReduceFunc, kva: seq<KeyValue>, nReduce: nat, m: nat, lines: seq<Line>, out: seq<Line>)
    requires nReduce > 0 && OutcomeBelow(reducef, kva, nReduce, m, lines) && Outcome(reducef, InBucket(kva, nReduce, m), out)
    ensures OutcomeBelow(reducef, kva, nReduce, m + 1, lines + out)
  {
    hide Bucket, HasKey, InBucket, ValuesOf;
    var all := lines + out;
    forall i | 0 <= i < |lines| ensures Bucket(lines[i].key, nReduce) < m {
      assert HasLine(lines, lines[i].key);
    }
    forall i | 0 <= i < |out|
      ensures Bucket(out[i].key, nReduce) == m && out[i].output == reducef(out[i].key, ValuesOf(kva, out[i].key))
    {
      assert HasLine(out, out[i].key);
      BucketHolds(kva, nReduce, m, out[i].key);
    }
    assert forall i :: 0 <= i < |all| ==> all[i] == if i < |lines| then lines[i] else out[i - |lines|];
    forall key ensures HasLine(all, key) <==> HasKey(kva, key) && Bucket(key, nReduce) < m + 1 {
      HasLineSplit(lines, out, key);
      BucketHolds(kva, nReduce, m, key);
    }
  }

  lemma {:induction false} BucketsBelow(reducef: ReduceFunc, kva: seq<KeyValue>, nReduce: nat, outs: seq<seq<Line>>, m: nat)
    requires nReduce > 0 && |outs| == nReduce && m <= nReduce
    requires forall r :: 0 <= r < nReduce ==> Outcome(reducef, InBucket(kva, nReduce, r), outs[r])
    ensures OutcomeBelow(reducef, kva, nReduce, m, Flatten(outs[..m]))
    decreases m
  {
    hide Bucket, HasKey, InBucket, ValuesOf, Outcome;
    if m > 0 {
      BucketsBelow(reducef, kva, nReduce, outs, m - 1);
      assert outs[..m][..m - 1] == outs[..m - 1];
      assert Flatten(outs[..m]) == Flatten(outs[..m - 1]) + outs[m - 1];
      OneMoreBucket(reducef, kva, nReduce, m - 1, Flatten(outs[..m - 1]), outs[m - 1]);
    }
  }

  /**
   For every list of pairs, number of buckets and reduction that does not care for the order of
   values, the lines of all buckets together are those of the sequential program in some order,
   and every key is in the one bucket that its hash names.
   */
  lemma BucketsEqualSequential(reducef: ReduceFunc, kva: seq<KeyValue>, nReduce: nat, inputs: seq<seq<KeyValue>>,
                               outs: seq<seq<Line>>, lines: seq<Line>)
    requires nReduce > 0 && Insensitive(reducef) && |inputs| == |outs| == nReduce
    requires forall r :: 0 <= r < nReduce ==> multiset(inputs[r]) == multiset(InBucket(kva, nReduce, r))
    requires forall r :: 0 <= r < nReduce ==> Outcome(reducef, inputs[r], outs[r])
    requires Outcome(reducef, kva, lines)
    ensures multiset(Flatten(outs)) == multiset(lines)
    ensures forall key, r :: 0 <= r < nReduce ==> (HasLine(outs[r], key) <==> HasKey(kva, key) && Bucket(key, nReduce) == r)
  {
    hide HasKey, InBucket, ValuesOf, Insensitive, HasLine;
    forall r | 0 <= r < nReduce ensures Outcome(reducef, InBucket(kva, nReduce, r), outs[r]) {
      OutcomeArranged(reducef, inputs[r], InBucket(kva, nReduce, r), outs[r]);
    }
    forall key, r | 0 <= r < nReduce ensures HasLine(outs[r], key) <==> HasKey(kva, key) && Bucket(key, nReduce) == r {
      BucketHolds(kva, nReduce, r, key);
    }
    BucketsBelow(reducef, kva, nReduce, outs, nReduce);
    assert outs[..nReduce] == outs;
    assert Outcome(reducef, kva, Flatten(outs));
    OutcomeUnique(reducef, kva, Flatten(outs), lines);
  }
}
