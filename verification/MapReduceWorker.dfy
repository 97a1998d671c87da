/**
 The loops of labs/src/mr/worker.go and labs/src/main/mrsequential.go.  Files are the
 sequences of pairs they hold.
 */
module MapReduceWorker {
  import opened MapReduce
  import opened Sorting

  // ---------------------------------------------------------------- map side

  /** `writeIntermediateFile`: one file of pairs for every bucket. */
  method WriteIntermediateFile(kva: seq<KeyValue>, nReduce: nat) returns (files: seq<seq<KeyValue>>)
    requires nReduce > 0
    ensures |files| == nReduce && forall r :: 0 <= r < nReduce ==> files[r] == InBucket(kva, nReduce, r)
  {
    hide Bucket;
    files := seq(nReduce, _ => []);
    for k := 0 to |kva|
      invariant |files| == nReduce
      invariant forall r :: 0 <= r < nReduce ==> files[r] == InBucket(kva[..k], nReduce, r)
    {
      var kv := kva[k];
      var i := Bucket(kv.key, nReduce);
      assert kva[..k + 1][..k] == kva[..k];
      files := files[i := files[i] + [kv]];
    }
    assert kva[..|kva|] == kva;
  }

  // ---------------------------------------------------------------- sorting

  lemma InsertSorted(kva: seq<KeyValue>, j: nat, kv: KeyValue)
    requires SortedByKey(kva) && j <= |kva|
    requires forall i :: j <= i < |kva| ==> Less(kv.key, kva[i].key)
    requires j > 0 ==> !Less(kv.key, kva[j - 1].key)
    ensures SortedByKey(InsertAt(kva, j, kv))
  {
    hide Less;
    forall i | 0 <= i < j ensures !Less(kv.key, kva[i].key) {
      if i < j - 1 {
        LessTransitive(kva[i].key, kva[j - 1].key, kv.key);
      }
    }
    forall i | j <= i < |kva| ensures !Less(kva[i].key, kv.key) {
      LessTotal(kv.key, kva[i].key);
    }
    var r := InsertAt(kva, j, kv);
    forall x, y | 0 <= x < y < |r| ensures !Less(r[y].key, r[x].key) {
    }
  }

  /** Any sort by key would do. */
  method SortByKey(kva: seq<KeyValue>) returns (r: seq<KeyValue>)
    ensures SortedByKey(r) && multiset(r) == multiset(kva)
  {
    r := [];
    for k := 0 to |kva|
      invariant SortedByKey(r) && multiset(r) == multiset(kva[..k])
    {
      hide SortedByKey, Less;
      var kv := kva[k];
      var j := |r|;
      while j > 0 && Less(kv.key, r[j - 1].key)
        invariant 0 <= j <= |r| && forall i :: j <= i < |r| ==> Less(kv.key, r[i].key)
      {
        j := j - 1;
      }
      InsertSorted(r, j, kv);
      InsertAtSame(r, j, kv);
      r := InsertAt(r, j, kv);
      assert kva[..k + 1] == kva[..k] + [kv];
    }
    assert kva[..|kva|] == kva;
  }

  // ---------------------------------------------------------------- grouping

  lemma {:induction false} NoValues(kva: seq<KeyValue>, key: Bytes)
    requires !HasKey(kva, key)
    ensures ValuesOf(kva, key) == []
  {
    if kva != [] {
      var n := |kva| - 1;
      assert kva == kva[..n] + [kva[n]];
      HasKeyPush(kva[..n], kva[n], key);
      NoValues(kva[..n], key);
    }
  }

  lemma {:induction false} SameKeyValues(group: seq<KeyValue>, key: Bytes, other: Bytes)
    requires forall i :: 0 <= i < |group| ==> group[i].key == key
    ensures |ValuesOf(group, key)| == |group| && forall i :: 0 <= i < |group| ==> ValuesOf(group, key)[i] == group[i].value
    ensures other != key ==> ValuesOf(group, other) == [] && !HasKey(group, other)
    ensures HasKey(group, key) <==> group != []
  {
    if group != [] {
      SameKeyValues(group[..|group| - 1], key, other);
      assert group[0].key == key;
    }
  }

  lemma HasKeySplit(a: seq<KeyValue>, b: seq<KeyValue>, key: Bytes)
    ensures HasKey(a + b, key) <==> HasKey(a, key) || HasKey(b, key)
  {
    if i :| 0 <= i < |a| && a[i].key == key {
      assert (a + b)[i].key == key;
    }
    if i :| 0 <= i < |b| && b[i].key == key {
      assert (a + b)[|a| + i].key == key;
    }
  }

  lemma GroupIs(group: seq<KeyValue>, key: Bytes, values: seq<Bytes>, k: Bytes)
    requires group != [] && forall i :: 0 <= i < |group| ==> group[i].key == key
    requires |values| == |group| && forall i :: 0 <= i < |group| ==> values[i] == group[i].value
    ensures ValuesOf(group, k) == if k == key then values else []
    ensures HasKey(group, k) <==> k == key
  {
    SameKeyValues(group, key, k);
    hide ValuesOf, HasKey;
    assert |ValuesOf(group, key)| == |values|;
    assert ValuesOf(group, key) == values;
  }

  /** The values of keys after a group of a new key. */
  lemma GroupValues(done: seq<KeyValue>, group: seq<KeyValue>, key: Bytes, values: seq<Bytes>, k: Bytes)
    requires !HasKey(done, key) && group != [] && forall i :: 0 <= i < |group| ==> group[i].key == key
    requires |values| == |group| && forall i :: 0 <= i < |group| ==> values[i] == group[i].value
    ensures ValuesOf(done + group, k) == if k == key then values else ValuesOf(done, k)
    ensures HasKey(done + group, k) <==> HasKey(done, k) || k == key
  {
    hide *;
    GroupIs(group, key, values, k);
    NoValues(done, key);
    ValuesSplit(done, group, k);
    HasKeySplit(done, group, k);
    assert [] + values == values && ValuesOf(done, k) + [] == ValuesOf(done, k);
  }

  lemma HasLinePush(lines: seq<Line>, line: Line, k: Bytes)
    ensures HasLine(lines + [line], k) <==> HasLine(lines, k) || line.key == k
  {
    HasLineSplit(lines, [line], k);
    assert [line][0] == line;
  }

  /** A group of a new key adds its line. */
  lemma OneMoreGroup(reducef: ReduceFunc, done: seq<KeyValue>, group: seq<KeyValue>, key: Bytes, values: seq<Bytes>, lines: seq<Line>)
    requires Outcome(reducef, done, lines) && !HasKey(done, key) && group != []
    requires forall i :: 0 <= i < |group| ==> group[i].key == key
    requires |values| == |group| && forall i :: 0 <= i < |group| ==> values[i] == group[i].value
    ensures Outcome(reducef, done + group, lines + [Line(key, reducef(key, values))])
  {
    hide ValuesOf, HasKey;
    var line := Line(key, reducef(key, values));
    forall i | 0 <= i < |lines| ensures lines[i].key != key {
      assert HasLine(lines, lines[i].key);
    }
    hide HasLine;
    forall k
      ensures HasLine(lines + [line], k) <==> HasKey(done + group, k)
      ensures ValuesOf(done + group, k) == if k == key then values else ValuesOf(done, k)
    {
      GroupValues(done, group, key, values, k);
      HasLinePush(lines, line, k);
    }
  }

  /** The nested loops over a list in which equal keys stand together. */
  method ReduceGroups(reducef: ReduceFunc, kva: seq<KeyValue>) returns (lines: seq<Line>)
    requires Grouped(kva)
    ensures Outcome(reducef, kva, lines)
  {
    hide ValuesOf, HasKey, Outcome;
    lines := [];
    var i := 0;
    assert Outcome(reducef, kva[..0], lines) by { NoOutcome(reducef); }
    while i < |kva|
      invariant 0 <= i <= |kva| && Outcome(reducef, kva[..i], lines)
      invariant 0 < i < |kva| ==> kva[i - 1].key != kva[i].key
    {
      var j := i + 1;
      while j < |kva| && kva[j].key == kva[i].key
        invariant i < j <= |kva| && forall k :: i <= k < j ==> kva[k].key == kva[i].key
      {
        j := j + 1;
      }
      var values: seq<Bytes> := [];
      for k := i to j
        invariant |values| == k - i && forall x :: 0 <= x < |values| ==> values[x] == kva[i + x].value
      {
        values := values + [kva[k].value];
      }
      NewKey(kva, i);
      OneMoreGroup(reducef, kva[..i], kva[i..j], kva[i].key, values, lines);
      assert kva[..j] == kva[..i] + kva[i..j];
      lines := lines + [Line(kva[i].key, reducef(kva[i].key, values))];
      i := j;
    }
    assert kva[..|kva|] == kva;
  }

  lemma NoOutcome(reducef: ReduceFunc)
    ensures Outcome(reducef, [], [])
  {
  }

  lemma NewKey(kva: seq<KeyValue>, i: nat)
    requires Grouped(kva) && i < |kva| && (i > 0 ==> kva[i - 1].key != kva[i].key)
    ensures !HasKey(kva[..i], kva[i].key)
  {
    forall k | 0 <= k < i ensures kva[..i][k].key != kva[i].key {
    }
  }

  // ---------------------------------------------------------------- whole programs

  /** `_reducef`: reads the bucket's files in whatever order they are found, sorts and reduces. */
  method ReduceTask(reducef: ReduceFunc, files: seq<seq<KeyValue>>) returns (lines: seq<Line>)
    ensures Insensitive(reducef) ==> Outcome(reducef, Flatten(files), lines)
  {
    var pairs := [];
    for t := 0 to |files|
      invariant pairs == Flatten(files[..t])
    {
      assert files[..t + 1][..t] == files[..t];
      pairs := pairs + files[t];
    }
    assert files[..|files|] == files;
    var sorted := SortByKey(pairs);
    SortedIsGrouped(sorted);
    lines := ReduceGroups(reducef, sorted);
    if Insensitive(reducef) {
      OutcomeArranged(reducef, sorted, pairs, lines);
    }
  }

  /** The pairs that the map function makes of all inputs. */
  function Mapped(mapf: MapFunc, inputs: seq<Input>): seq<KeyValue> {
    if inputs == [] then []
    else Mapped(mapf, inputs[..|inputs| - 1]) + mapf(inputs[|inputs| - 1].name, inputs[|inputs| - 1].content)
  }

  /** `main` of the sequential program. */
  method SequentialProgram(mapf: MapFunc, reducef: ReduceFunc, inputs: seq<Input>) returns (lines: seq<Line>)
    ensures Insensitive(reducef) ==> Outcome(reducef, Mapped(mapf, inputs), lines)
  {
    var intermediate: seq<KeyValue> := [];
    for k := 0 to |inputs|
      invariant intermediate == Mapped(mapf, inputs[..k])
    {
      assert inputs[..k + 1][..k] == inputs[..k];
      intermediate := intermediate + mapf(inputs[k].name, inputs[k].content);
    }
    assert inputs[..|inputs|] == inputs;
    var sorted := SortByKey(intermediate);
    SortedIsGrouped(sorted);
    lines := ReduceGroups(reducef, sorted);
    if Insensitive(reducef) {
      OutcomeArranged(reducef, sorted, intermediate, lines);
    }
  }

  /** Column r of the intermediate files. */
  function Column(files: seq<seq<seq<KeyValue>>>, r: nat): seq<seq<KeyValue>>
    requires forall t :: 0 <= t < |files| ==> r < |files[t]|
  {
    seq(|files|, t requires 0 <= t < |files| => files[t][r])
  }

  /** The files of bucket r hold together the pairs of that bucket. */
  lemma {:induction false} ColumnIsBucket(mapf: MapFunc, inputs: seq<Input>, files: seq<seq<seq<KeyValue>>>, nReduce: nat, r: nat)
    requires r < nReduce && |files| == |inputs| && forall t :: 0 <= t < |files| ==> |files[t]| == nReduce
    requires forall t :: 0 <= t < |files| ==> files[t][r] == InBucket(mapf(inputs[t].name, inputs[t].content), nReduce, r)
    ensures Flatten(Column(files, r)) == InBucket(Mapped(mapf, inputs), nReduce, r)
    decreases |files|
  {
    hide Bucket;
    if files != [] {
      var n := |files| - 1;
      ColumnIsBucket(mapf, inputs[..n], files[..n], nReduce, r);
      assert Column(files, r)[..n] == Column(files[..n], r);
      BucketSplit(Mapped(mapf, inputs[..n]), mapf(inputs[n].name, inputs[n].content), nReduce, r);
    }
  }

  lemma {:induction false} FlattenWithout(parts: seq<seq<KeyValue>>, k: nat)
    requires k < |parts|
    ensures multiset(Flatten(parts)) == multiset(Flatten(parts[..k] + parts[k + 1..])) + multiset(parts[k])
    decreases |parts|
  {
    hide Flatten;
    var n := |parts| - 1;
    assert parts == parts[..n] + [parts[n]];
    FlattenPush(parts[..n], parts[n]);
    if k == n {
      assert parts[..k] + parts[k + 1..] == parts[..n];
    } else {
      var rest := parts[..k] + parts[k + 1..n];
      FlattenWithout(parts[..n], k);
      assert parts[..n][..k] + parts[..n][k + 1..] == rest;
      FlattenPush(rest, parts[n]);
      assert rest + [parts[n]] == parts[..k] + parts[k + 1..];
    }
  }

  lemma FlattenPush(parts: seq<seq<KeyValue>>, part: seq<KeyValue>)
    ensures Flatten(parts + [part]) == Flatten(parts) + part
  {
    assert (parts + [part])[..|parts|] == parts;
  }

  /** `filepath.Glob`: the files of a bucket, in an order that need not be that of the tasks. */
  method FindFiles(files: seq<seq<KeyValue>>) returns (found: seq<seq<KeyValue>>)
    ensures multiset(found) == multiset(files) && multiset(Flatten(found)) == multiset(Flatten(files))
  {
    found := [];
    var left := files;
    while left != []
      invariant multiset(found) + multiset(left) == multiset(files)
      invariant multiset(Flatten(found)) + multiset(Flatten(left)) == multiset(Flatten(files))
      decreases |left|
    {
      var k :| 0 <= k < |left|;
      assert left == left[..k] + [left[k]] + left[k + 1..];
      FlattenWithout(left, k);
      FlattenPush(found, left[k]);
      found, left := found + [left[k]], left[..k] + left[k + 1..];
    }
  }

  /**
   All map tasks, then all reduce tasks: together they write the lines of the sequential program,
   in some order, for every input, every number of buckets and every reduction that does not care
   for the order of values.
   */
  method DistributedProgram(mapf: MapFunc, reducef: ReduceFunc, inputs: seq<Input>, nReduce: nat, ghost lines: seq<Line>)
    returns (outs: seq<seq<Line>>)
    requires nReduce > 0 && Insensitive(reducef) && Outcome(reducef, Mapped(mapf, inputs), lines)
    ensures |outs| == nReduce && multiset(Flatten(outs)) == multiset(lines)
  {
    hide Bucket, InBucket, Insensitive, Outcome, Mapped;
    var files: seq<seq<seq<KeyValue>>> := [];
    for t := 0 to |inputs|
      invariant |files| == t && forall x :: 0 <= x < t ==> |files[x]| == nReduce
      invariant forall x, r :: 0 <= x < t && 0 <= r < nReduce ==>
        files[x][r] == InBucket(mapf(inputs[x].name, inputs[x].content), nReduce, r)
    {
      var kva := mapf(inputs[t].name, inputs[t].content);
      var made := WriteIntermediateFile(kva, nReduce);
      files := files + [made];
    }
    outs := [];
    ghost var kvas: seq<seq<KeyValue>> := [];
    ghost var all := Mapped(mapf, inputs);
    for r := 0 to nReduce
      invariant |outs| == |kvas| == r
      invariant forall x :: 0 <= x < r ==> multiset(kvas[x]) == multiset(InBucket(all, nReduce, x)) && Outcome(reducef, kvas[x], outs[x])
    {
      ColumnIsBucket(mapf, inputs, files, nReduce, r);
      var found := FindFiles(Column(files, r));
      var out := ReduceTask(reducef, found);
      outs, kvas := outs + [out], kvas + [Flatten(found)];
    }
    BucketsEqualSequential(reducef, all, nReduce, kvas, outs, lines);
  }
}
