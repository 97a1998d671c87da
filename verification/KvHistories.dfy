/**
 What the clients of a replicated key-value log see: the calls and answers of all clients
 together, against the definition of linearizability that labs/src/porcupine checks.
 */
module KvHistories {
  import opened IdLists
  import opened Linearizability
  import KM = KvModel
  import KS = KvServer

  // ---------------------------------------------------------------- the log without repeats

  lemma {:induction false} DeduplicatedMembers(log: seq<KS.Op>, op: KS.Op)
    ensures op in KS.Deduplicated(log) <==> op in log
    decreases |log|
  {
    if log != [] {
      var n := |log| - 1;
      DeduplicatedMembers(log[..n], op);
      assert log == log[..n] + [log[n]];
    }
  }

  /** Where the y-th operation of the log without repeats first stands in the log. */
  lemma {:induction false} FirstPlace(log: seq<KS.Op>, y: nat) returns (f: nat)
    requires y < |KS.Deduplicated(log)|
    ensures f < |log| && log[f] == KS.Deduplicated(log)[y] && log[f] !in log[..f]
    ensures KS.Deduplicated(log[..f]) == KS.Deduplicated(log)[..y]
    decreases |log|
  {
    var n := |log| - 1;
    var front := log[..n];
    if y < |KS.Deduplicated(front)| {
      f := FirstPlace(front, y);
      assert front[..f] == log[..f];
      assert KS.Deduplicated(front) <= KS.Deduplicated(log);
    } else {
      f := n;
    }
  }

  /** The log without repeats keeps the order of first occurrences. */
  lemma PlacesInOrder(log: seq<KS.Op>, y: nat, f: nat, z: nat, g: nat)
    requires y < z < |KS.Deduplicated(log)| && f < |log| && g < |log|
    requires log[f] == KS.Deduplicated(log)[y] && log[f] !in log[..f]
    requires log[g] == KS.Deduplicated(log)[z] && KS.Deduplicated(log[..g]) == KS.Deduplicated(log)[..z]
    ensures f < g
  {
    var d := KS.Deduplicated(log);
    assert d[..z][y] == d[y];
    DeduplicatedMembers(log[..g], d[y]);
    var x :| 0 <= x < g && log[..g][x] == d[y];
  }

  lemma {:induction false} DeduplicatedDistinct(log: seq<KS.Op>, y: nat, z: nat)
    requires y < z < |KS.Deduplicated(log)|
    ensures KS.Deduplicated(log)[y] != KS.Deduplicated(log)[z]
    decreases |log|
  {
    var n := |log| - 1;
    var front := log[..n];
    if z < |KS.Deduplicated(front)| {
      DeduplicatedDistinct(front, y, z);
    } else {
      DeduplicatedMembers(front, KS.Deduplicated(front)[y]);
    }
  }

  // ---------------------------------------------------------------- what a server says

  /** The server remembers the operation as its client's last; for a get the answer is what it remembers. */
  predicate Tells(st: KS.Kv, op: KS.Op, value: string) {
    KS.IsDuplicate(st, op) && (op.opType == KS.Get ==> value == st.lastOps[op.clientId].getResult)
  }

  /** An answer from memory tells, and so does executing the operation. */
  lemma ServerTells(st: KS.Kv, op: KS.Op)
    ensures KS.IsDuplicate(st, op) ==> Tells(st, op, st.lastOps[op.clientId].getResult)
    ensures KS.Accepted(KS.ApplyOp(st, op).1) ==> Tells(KS.ApplyOp(st, op).0, op, KS.ApplyOp(st, op).1.value)
  {
  }

  /**
   When the answer that a waiting request is told is right: if it is its own operation that was
   executed, or else if the server remembered the operation before and another client's came out.
   */
  lemma WaitTellsIff(st: KS.Kv, waited: KS.Op, applied: KS.Op)
    requires KS.Accepted(KS.WaitApply(waited, applied, KS.ApplyOp(st, applied).1))
    ensures var (st', value) := (KS.ApplyOp(st, applied).0, KS.WaitApply(waited, applied, KS.ApplyOp(st, applied).1).value);
      Tells(st', waited, value) <==>
      applied == waited || (applied.clientId != waited.clientId && Tells(st, waited, ""))
  {
    KS.AcceptedIff(st, waited, applied);
  }

  /** A server that remembers an operation has executed it, and a get found what it remembers. */
  lemma ToldIsFound(log: seq<KS.Op>, op: KS.Op, value: string) returns (f: nat)
    requires KS.Orderly(log) && Tells(KS.AfterLog(log), op, value)
    ensures f < |log| && log[f] == op && op !in log[..f]
    ensures op.opType == KS.Get ==> value == KM.Value(KS.Sequential(KS.Deduplicated(log[..f])), op.key)
  {
    hide KS.AfterLog;
    var c := op.clientId;
    KS.RemembersOnlySeen(log, c);
    var j: nat :| j < |log| && log[j].clientId == c;
    KS.SomeLast(log, c, j);
    var l: nat :| j <= l && KS.IsLast(log, c, l);
    KS.RemembersLast(log, c, l);
    f := FirstOf(log, l);
    assert log[..|log|] == log;
    KS.RepeatSeesFirst(log, f, |log|);
  }

  lemma {:induction false} FirstOf(log: seq<KS.Op>, l: nat) returns (f: nat)
    requires l < |log|
    ensures f <= l && log[f] == log[l] && log[f] !in log[..f]
  {
    if log[l] in log[..l] {
      var k :| 0 <= k < l && log[..l][k] == log[l];
      f := FirstOf(log, k);
    } else {
      f := l;
    }
  }

  // ---------------------------------------------------------------- calls and answers

  /**
   A client's call, begun at a moment of the run.  An answered call has got `value` from the server
   of a replica, as that server's state was at `seenAt`, and returned to the client at `returned`.
   */
  datatype Call =
    | Pending(op: KS.Op, called: nat)
    | Answered(op: KS.Op, called: nat, returned: nat, value: string, replica: nat, seenAt: nat)

  ghost predicate OpsDistinct(calls: seq<Call>) {
    forall x, y :: 0 <= x < y < |calls| ==> calls[x].op != calls[y].op
  }

  /** The call as an operation of a history; one that never got an answer lasts to the end. */
  function OperationOf(call: Call, found: string, end: nat): KM.KvOperation {
    match call
    case Pending(op, called) => Operation(KS.InputOf(op), KM.KvOutput(found), called, end)
    case Answered(op, called, returned, value, _, _) => Operation(KS.InputOf(op), KM.KvOutput(value), called, returned)
  }

  /**
   A completion of the calls: all answered ones with their answers, and some of the others with
   an answer that they might still have got.
   */
  ghost predicate Completes(calls: seq<Call>, kept: seq<nat>, history: seq<KM.KvOperation>, end: nat) {
    && Distinct(kept) && Over(kept, |calls|) && |history| == |kept|
    && (forall x: nat :: x < |calls| && calls[x].Answered? ==> x in kept)
    && (forall y :: 0 <= y < |kept| ==> CompletedBy(calls[kept[y]], history[y], end))
  }

  ghost predicate CompletedBy(call: Call, o: KM.KvOperation, end: nat) {
    exists found :: o == OperationOf(call, found, end)
  }

  /** The calls have a completion that the checker's definition calls linearizable. */
  ghost predicate LinearizableCalls(calls: seq<Call>, end: nat) {
    exists kept: seq<nat>, history :: Completes(calls, kept, history, end) && Linearizable(KM.WholeStore(), history)
  }

  // ---------------------------------------------------------------- over one log

  ghost predicate CallFor(calls: seq<Call>, op: KS.Op, x: nat) {
    x < |calls| && calls[x].op == op
  }

  ghost predicate HasCall(calls: seq<Call>, op: KS.Op) {
    exists x: nat :: CallFor(calls, op, x)
  }

  /** The first r operations of the log, all called before the answer returned, explain the answer. */
  ghost predicate Explains(calls: seq<Call>, log: seq<KS.Op>, call: Call, r: nat)
    requires call.Answered?
  {
    && r <= |log| && Tells(KS.AfterLog(log[..r]), call.op, call.value)
    && forall k, x: nat :: 0 <= k < r && CallFor(calls, log[k], x) ==> calls[x].called <= call.returned
  }

  /** All operations of the log are calls, and every answer comes from a part of the log. */
  ghost predicate Serves(calls: seq<Call>, log: seq<KS.Op>, end: nat) {
    && KS.Orderly(log) && OpsDistinct(calls)
    && (forall k :: 0 <= k < |log| ==> HasCall(calls, log[k]))
    && (forall k, x: nat :: 0 <= k < |log| && CallFor(calls, log[k], x) ==> calls[x].called <= end)
    && (forall x: nat :: x < |calls| && calls[x].Answered? ==> exists r: nat :: Explains(calls, log, calls[x], r))
  }

  ghost function CallIndex(calls: seq<Call>, op: KS.Op): (x: nat)
    requires HasCall(calls, op)
    ensures CallFor(calls, op, x)
  {
    var x: nat :| CallFor(calls, op, x);
    x
  }

  /** What the y-th operation of the log without repeats finds under its key. */
  function FoundBy(once: seq<KS.Op>, y: nat): string
    requires y < |once|
  {
    KM.Value(KS.Sequential(once[..y]), once[y].key)
  }

  lemma OnceHasCall(calls: seq<Call>, log: seq<KS.Op>, end: nat, y: nat)
    requires Serves(calls, log, end) && y < |KS.Deduplicated(log)|
    ensures HasCall(calls, KS.Deduplicated(log)[y])
  {
    var f := FirstPlace(log, y);
  }

  ghost function Kept(calls: seq<Call>, log: seq<KS.Op>, end: nat): (kept: seq<nat>)
    requires Serves(calls, log, end)
    ensures |kept| == |KS.Deduplicated(log)|
    ensures forall y :: 0 <= y < |kept| ==> CallFor(calls, KS.Deduplicated(log)[y], kept[y])
  {
    var once := KS.Deduplicated(log);
    seq(|once|, y requires 0 <= y < |once| => OnceHasCall(calls, log, end, y); CallIndex(calls, once[y]))
  }

  ghost function HistoryOf(calls: seq<Call>, log: seq<KS.Op>, end: nat): (history: seq<KM.KvOperation>)
    requires Serves(calls, log, end)
    ensures |history| == |KS.Deduplicated(log)|
    ensures forall y :: 0 <= y < |history| ==>
      history[y] == OperationOf(calls[Kept(calls, log, end)[y]], FoundBy(KS.Deduplicated(log), y), end)
  {
    var (once, kept) := (KS.Deduplicated(log), Kept(calls, log, end));
    seq(|once|, y requires 0 <= y < |once| => OperationOf(calls[kept[y]], FoundBy(once, y), end))
  }

  lemma SameCall(calls: seq<Call>, op: KS.Op, x: nat, y: nat)
    requires OpsDistinct(calls) && CallFor(calls, op, x) && CallFor(calls, op, y)
    ensures x == y
  {
  }

  lemma SameFirst(log: seq<KS.Op>, f: nat, g: nat)
    requires f < |log| && g < |log| && log[f] == log[g] && log[f] !in log[..f] && log[g] !in log[..g]
    ensures f == g
  {
  }

  /** An answered call was executed within the part of the log that explains it, and a get found its answer. */
  lemma AnswerIsFound(calls: seq<Call>, log: seq<KS.Op>, end: nat, y: nat) returns (r: nat, f: nat)
    requires Serves(calls, log, end) && y < |KS.Deduplicated(log)| && calls[Kept(calls, log, end)[y]].Answered?
    ensures var (call, once) := (calls[Kept(calls, log, end)[y]], KS.Deduplicated(log));
      && Explains(calls, log, call, r) && f < r && log[f] == once[y] && log[f] !in log[..f] && KS.Deduplicated(log[..f]) == once[..y]
      && (call.op.opType == KS.Get ==> call.value == FoundBy(once, y))
  {
    hide KS.AfterLog, KS.Sequential, KS.Orderly, OpsDistinct;
    var (x, once) := (Kept(calls, log, end)[y], KS.Deduplicated(log));
    var call := calls[x];
    assert CallFor(calls, once[y], x);
    assert exists r: nat :: Explains(calls, log, calls[x], r);
    r :| Explains(calls, log, calls[x], r);
    KS.OrderlyFront(log, r);
    f := ToldIsFound(log[..r], call.op, call.value);
    assert log[..r][..f] == log[..f];
    var g := FirstPlace(log, y);
    SameFirst(log, f, g);
  }

  lemma PlaceOf(log: seq<KS.Op>, op: KS.Op) returns (y: nat)
    requires op in log
    ensures y < |KS.Deduplicated(log)| && KS.Deduplicated(log)[y] == op
  {
    DeduplicatedMembers(log, op);
    y :| y < |KS.Deduplicated(log)| && KS.Deduplicated(log)[y] == op;
  }

  lemma AnsweredKept(calls: seq<Call>, log: seq<KS.Op>, end: nat, x: nat)
    requires Serves(calls, log, end) && x < |calls| && calls[x].Answered?
    ensures x in Kept(calls, log, end)
  {
    hide KS.AfterLog, KS.Sequential, KS.Orderly, OpsDistinct;
    assert exists r: nat :: Explains(calls, log, calls[x], r);
    var r: nat :| Explains(calls, log, calls[x], r);
    KS.OrderlyFront(log, r);
    var f := ToldIsFound(log[..r], calls[x].op, calls[x].value);
    assert log[f] == calls[x].op;
    var y := PlaceOf(log, calls[x].op);
    assert CallFor(calls, calls[x].op, x) && CallFor(calls, calls[x].op, Kept(calls, log, end)[y]);
    SameCall(calls, calls[x].op, x, Kept(calls, log, end)[y]);
  }

  lemma KeptCompletes(calls: seq<Call>, log: seq<KS.Op>, end: nat)
    requires Serves(calls, log, end)
    ensures Completes(calls, Kept(calls, log, end), HistoryOf(calls, log, end), end)
  {
    hide Serves, FoundBy, OperationOf, CallFor;
    var (kept, once) := (Kept(calls, log, end), KS.Deduplicated(log));
    forall y, z | 0 <= y < z < |kept| ensures kept[y] != kept[z] {
      DeduplicatedDistinct(log, y, z);
      CallForIs(calls, once[y], kept[y]);
      CallForIs(calls, once[z], kept[z]);
    }
    forall x: nat | x < |calls| && calls[x].Answered? ensures x in kept {
      AnsweredKept(calls, log, end, x);
    }
    forall y | 0 <= y < |kept| ensures kept[y] < |calls| {
      CallForIs(calls, once[y], kept[y]);
    }
    var history := HistoryOf(calls, log, end);
    forall y | 0 <= y < |kept| ensures CompletedBy(calls[kept[y]], history[y], end) {
      assert history[y] == OperationOf(calls[kept[y]], FoundBy(once, y), end);
    }
  }

  lemma CallForIs(calls: seq<Call>, op: KS.Op, x: nat)
    requires CallFor(calls, op, x)
    ensures x < |calls| && calls[x].op == op
  {
  }

  // ---------------------------------------------------------------- the order of the log

  function Iota(n: nat): (p: seq<nat>)
    ensures |p| == n && forall i :: 0 <= i < n ==> p[i] == i
  {
    seq(n, i requires 0 <= i < n => i)
  }

  lemma IotaIsAll(n: nat)
    ensures Distinct(Iota(n)) && Over(Iota(n), n) && Elements(Iota(n)) == Ids(n)
  {
    forall x: nat | x < n ensures x in Iota(n) {
      assert Iota(n)[x] == x;
    }
    assert forall x :: x in Ids(n) ==> x in Elements(Iota(n));
  }

  /** A later operation of the log does not return before an earlier one is called. */
  lemma OnceRealTime(calls: seq<Call>, log: seq<KS.Op>, end: nat, y: nat, z: nat)
    requires Serves(calls, log, end) && y < z < |KS.Deduplicated(log)|
    ensures HistoryOf(calls, log, end)[y].call <= HistoryOf(calls, log, end)[z].ret
  {
    hide KS.AfterLog, KS.Sequential, KS.Orderly, OpsDistinct, FoundBy, Tells;
    var (kept, once) := (Kept(calls, log, end), KS.Deduplicated(log));
    var f := FirstPlace(log, y);
    assert CallFor(calls, log[f], kept[y]);
    if calls[kept[z]].Answered? {
      var r, g := AnswerIsFound(calls, log, end, z);
      PlacesInOrder(log, y, f, z, g);
    }
  }

  /** The state of the model after a beginning of the log. */
  lemma {:induction false} OnceState(calls: seq<Call>, log: seq<KS.Op>, end: nat, k: nat)
    requires Serves(calls, log, end) && k <= |KS.Deduplicated(log)|
    ensures Over(Iota(k), |HistoryOf(calls, log, end)|)
    ensures StateAfter(KM.WholeStore(), HistoryOf(calls, log, end), Iota(k)) == KS.Sequential(KS.Deduplicated(log)[..k])
  {
    hide Serves, FoundBy, StateAfter, Linearizability.Step, KS.Sequential, KS.InputOf;
    var (m, once, history) := (KM.WholeStore(), KS.Deduplicated(log), HistoryOf(calls, log, end));
    if k == 0 {
      StartState(m, history);
      assert once[..0] == [] && Iota(0) == [];
    } else {
      OnceState(calls, log, end, k - 1);
      assert Iota(k) == Iota(k - 1) + [k - 1];
      StatePush(m, history, Iota(k - 1), k - 1);
      InputIs(calls, log, end, k - 1);
      assert once[..k] == once[..k - 1] + [once[k - 1]];
      SequentialPush(once[..k - 1], once[k - 1], history, k - 1);
    }
  }

  lemma StartState(m: Model<map<string, string>, KM.KvInput, KM.KvOutput>, history: seq<KM.KvOperation>)
    ensures Over([], |history|) && StateAfter(m, history, []) == m.init && KS.Sequential([]) == map[]
  {
  }

  lemma SequentialPush(once: seq<KS.Op>, op: KS.Op, history: seq<KM.KvOperation>, y: nat)
    requires y < |history| && history[y].input == KS.InputOf(op)
    ensures KS.Sequential(once + [op]) == Linearizability.Step(KM.WholeStore(), history, KS.Sequential(once), y).1
  {
    hide KS.InputOf;
    assert (once + [op])[..|once|] == once;
  }

  lemma InputIs(calls: seq<Call>, log: seq<KS.Op>, end: nat, y: nat)
    requires Serves(calls, log, end) && y < |KS.Deduplicated(log)|
    ensures HistoryOf(calls, log, end)[y].input == KS.InputOf(KS.Deduplicated(log)[y])
  {
    hide Serves, FoundBy, KS.InputOf;
    assert CallFor(calls, KS.Deduplicated(log)[y], Kept(calls, log, end)[y]);
  }

  lemma OnceAccepted(calls: seq<Call>, log: seq<KS.Op>, end: nat, y: nat)
    requires Serves(calls, log, end) && y < |KS.Deduplicated(log)|
    ensures Over(Iota(y), |HistoryOf(calls, log, end)|)
    ensures Step(KM.WholeStore(), HistoryOf(calls, log, end), StateAfter(KM.WholeStore(), HistoryOf(calls, log, end), Iota(y)), y).0
  {
    hide Serves, KS.Sequential;
    var (kept, once, history) := (Kept(calls, log, end), KS.Deduplicated(log), HistoryOf(calls, log, end));
    OnceState(calls, log, end, y);
    InputIs(calls, log, end, y);
    assert CallFor(calls, once[y], kept[y]);
    if calls[kept[y]].Answered? {
      var r, f := AnswerIsFound(calls, log, end, y);
    }
  }

  /** The answers that clients get from servers of one log are linearizable in the order of the log. */
  lemma LogLinearizable(calls: seq<Call>, log: seq<KS.Op>, end: nat)
    requires Serves(calls, log, end)
    ensures LinearizableCalls(calls, end)
  {
    hide Serves, StateAfter, Step, KM.WholeStore, Completes;
    var (m, history) := (KM.WholeStore(), HistoryOf(calls, log, end));
    var p := Iota(|history|);
    IotaIsAll(|history|);
    forall y, z | 0 <= y < z < |p| ensures history[p[y]].call <= history[p[z]].ret {
      OnceRealTime(calls, log, end, y, z);
    }
    forall y | 0 <= y < |p| ensures Over(p[..y], |history|) && Step(m, history, StateAfter(m, history, p[..y]), p[y]).0 {
      assert p[..y] == Iota(y);
      OnceAccepted(calls, log, end, y);
    }
    assert Linearization(m, history, p);
    KeptCompletes(calls, log, end);
  }

  // ---------------------------------------------------------------- answers that are not right

  /** An append that was answered, and a later get of its key that finds anything but what was appended. */
  lemma AppendNotSeenOnce(calls: seq<Call>, end: nat)
    requires |calls| == 2 && calls[0].Answered? && calls[1].Answered? && calls[0].returned < calls[1].called
    requires calls[0].op.opType == KS.Append && calls[1].op.opType == KS.Get && calls[1].op.key == calls[0].op.key
    requires calls[1].value != calls[0].op.value
    ensures !LinearizableCalls(calls, end)
  {
    hide Linearizable, Completes;
    forall kept: seq<nat>, history | Completes(calls, kept, history, end) ensures !Linearizable(KM.WholeStore(), history) {
      NotSeenOnce(calls, kept, history, end);
    }
  }

  lemma NotSeenOnce(calls: seq<Call>, kept: seq<nat>, history: seq<KM.KvOperation>, end: nat)
    requires |calls| == 2 && calls[0].Answered? && calls[1].Answered? && calls[0].returned < calls[1].called
    requires calls[0].op.opType == KS.Append && calls[1].op.opType == KS.Get && calls[1].op.key == calls[0].op.key
    requires calls[1].value != calls[0].op.value && Completes(calls, kept, history, end)
    ensures !Linearizable(KM.WholeStore(), history)
  {
    hide StateAfter, Linearizability.Step, Elements;
    var y: nat :| y < |kept| && kept[y] == 0;
    var z: nat :| z < |kept| && kept[z] == 1;
    DistinctCovers(kept, 2);
    assert CompletedBy(calls[0], history[y], end) && CompletedBy(calls[1], history[z], end);
    forall p ensures !Linearization(KM.WholeStore(), history, p) {
      if Linearization(KM.WholeStore(), history, p) {
        DistinctCovers(p, 2);
        assert p[0] == y && p[1] == z;
        assert Linearizability.Step(KM.WholeStore(), history, StateAfter(KM.WholeStore(), history, p[..1]), p[1]).0;
        AppendSeen(history, y, z, p);
      }
    }
  }

  lemma AppendSeen(history: seq<KM.KvOperation>, y: nat, z: nat, p: seq<nat>)
    requires y < |history| && z < |history| && |p| == 2 && p[0] == y && p[1] == z && Over(p[..1], |history|)
    requires history[y].input.op == 2
    requires history[z].input.op == 0 && history[z].input.key == history[y].input.key && history[z].output.value != history[y].input.value
    ensures !Linearizability.Step(KM.WholeStore(), history, StateAfter(KM.WholeStore(), history, p[..1]), p[1]).0
  {
    StartState(KM.WholeStore(), history);
    StatePush(KM.WholeStore(), history, [], y);
    assert [] + [y] == p[..1];
    hide StateAfter;
    assert "" + history[y].input.value == history[y].input.value;
  }

  /** An append that its client repeats after another operation is executed twice, and a get tells so. */
  lemma LateRepeat(a: KS.Op, b: KS.Op, d: KS.Op)
    requires a.opType == KS.Append && a.value != "" && b.opType == KS.Get && b.clientId == a.clientId
    requires d.opType == KS.Get && d.key == a.key && d.clientId != a.clientId
    ensures !KS.Orderly([a, b, a, d]) && Tells(KS.AfterLog([a, b, a, d]), d, a.value + a.value)
    ensures a.value + a.value != a.value
  {
    hide KS.AfterLog, KS.ApplyOp, KS.IsDuplicate, Tells;
    KS.AfterPush([], a);
    KS.AfterPush([a], b);
    KS.AfterPush([a, b], a);
    KS.AfterPush([a, b, a], d);
    assert [] + [a] == [a] && [a] + [b] == [a, b] && [a, b] + [a] == [a, b, a] && [a, b, a] + [d] == [a, b, a, d];
    AppliedTwice(a, b, d);
    var log := [a, b, a, d];
    assert log[0] == log[2] && log[1] == b;
    assert |a.value + a.value| > |a.value|;
  }

  lemma AppliedTwice(a: KS.Op, b: KS.Op, d: KS.Op)
    requires a.opType == KS.Append && b.opType == KS.Get && b.clientId == a.clientId
    requires d.opType == KS.Get && d.key == a.key && d.clientId != a.clientId
    ensures var st := KS.ApplyOp(KS.ApplyOp(KS.ApplyOp(KS.AfterLog([]), a).0, b).0, a).0;
      Tells(KS.ApplyOp(st, d).0, d, a.value + a.value)
  {
    var st1 := KS.ApplyOp(KS.AfterLog([]), a).0;
    var st2 := KS.ApplyOp(st1, b).0;
    assert st2.lastOps[a.clientId].op == b && st2.kvMap[a.key] == a.value;
    var st3 := KS.ApplyOp(st2, a).0;
    assert st3.kvMap[a.key] == a.value + a.value && d.clientId !in st3.lastOps;
  }
}
