/**
 The replicated key-value server of labs/src/kvraft/server.go: applying the log with duplicate
 recognition, against the sequential store of labs/src/models/kv.go.
 */
module KvServer {
  import KM = KvModel

  datatype OpType = Put | Append | Get

  datatype Op = Op(opType: OpType, key: string, value: string, clientId: int, opId: int)

  datatype LastOp = LastOp(op: Op, getResult: string)

  datatype Err = OK | ErrNoKey | ErrDuplicate | ErrNotApplied

  datatype Result = Result(err: Err, value: string)

  datatype Kv = Kv(kvMap: map<string, string>, lastOps: map<int, LastOp>)

  predicate IsDuplicate(st: Kv, op: Op) {
    op.clientId in st.lastOps && st.lastOps[op.clientId].op == op
  }

  function Executed(kv: map<string, string>, op: Op): map<string, string> {
    match op.opType
    case Put => kv[op.key := op.value]
    case Append => if op.key in kv then kv[op.key := kv[op.key] + op.value] else kv[op.key := op.value]
    case Get => kv
  }

  function Answer(kv: map<string, string>, op: Op): Result {
    if op.opType != Get then Result(OK, "")
    else if op.key in kv then Result(OK, kv[op.key])
    else Result(ErrNoKey, "")
  }

  /** `applyOpL`: the value remembered is the one found before executing. */
  function ApplyOp(st: Kv, op: Op): (Kv, Result) {
    if IsDuplicate(st, op) then (st, Result(ErrDuplicate, ""))
    else
      (Kv(Executed(st.kvMap, op), st.lastOps[op.clientId := LastOp(op, KM.Value(st.kvMap, op.key))]),
       Answer(st.kvMap, op))
  }

  /**
   `waitApplyL`: what a request is told when `applied` comes out of the log at the index where the
   server had put `waited`.
   */
  function WaitApply(waited: Op, applied: Op, result: Result): Result {
    if result.err == OK && waited != applied then result.(err := ErrNotApplied) else result
  }

  /** The answers at which a client stops asking. */
  predicate Accepted(r: Result) {
    r.err == OK || r.err == ErrNoKey
  }

  /**
   A client takes the answer for its own exactly when its operation is executed here, or another
   client's get comes out of the log instead and finds no key.
   */
  lemma AcceptedIff(st: Kv, waited: Op, applied: Op)
    ensures Accepted(WaitApply(waited, applied, ApplyOp(st, applied).1)) <==>
      !IsDuplicate(st, applied) && (applied == waited || (applied.opType == Get && applied.key !in st.kvMap))
  {
  }

  // ---------------------------------------------------------------- logs

  function Applied(st: Kv, log: seq<Op>): Kv {
    if log == [] then st else ApplyOp(Applied(st, log[..|log| - 1]), log[|log| - 1]).0
  }

  function AfterLog(log: seq<Op>): Kv {
    Applied(Kv(map[], map[]), log)
  }

  /** The operation as an input of the sequential model. */
  function InputOf(op: Op): KM.KvInput {
    KM.KvInput(match op.opType case Get => 0 case Put => 1 case Append => 2, op.key, op.value)
  }

  /** The sequential store after a list of operations, whatever they return. */
  function Sequential(log: seq<Op>): map<string, string> {
    if log == [] then map[]
    else KM.MapStep(Sequential(log[..|log| - 1]), InputOf(log[|log| - 1]), KM.KvOutput("")).1
  }

  /** The log with every repeat of an operation left out. */
  function Deduplicated(log: seq<Op>): seq<Op> {
    if log == [] then []
    else
      var front, op := log[..|log| - 1], log[|log| - 1];
      Deduplicated(front) + if op in front then [] else [op]
  }

  /** Only equal operations of its client stand between two occurrences of an operation. */
  ghost predicate Orderly(log: seq<Op>) {
    forall i, k, j :: 0 <= i < k < j < |log| && log[i] == log[j] && log[k].clientId == log[i].clientId ==> log[k] == log[i]
  }

  /** What the clients do: op ids never go back, and an id names one operation. */
  ghost predicate ClientsInOrder(log: seq<Op>) {
    forall i, j :: 0 <= i < j < |log| && log[i].clientId == log[j].clientId ==>
      log[i].opId <= log[j].opId && (log[i].opId == log[j].opId ==> log[i] == log[j])
  }

  lemma InOrderIsOrderly(log: seq<Op>)
    requires ClientsInOrder(log)
    ensures Orderly(log)
  {
  }

  // ---------------------------------------------------------------- what is remembered

  /** The client's last operation in the log. */
  ghost predicate IsLast(log: seq<Op>, c: int, i: nat) {
    i < |log| && log[i].clientId == c && forall k :: i < k < |log| ==> log[k].clientId != c
  }

  lemma StepRemembers(st: Kv, op: Op, c: int)
    ensures var st' := ApplyOp(st, op).0;
      && (c in st'.lastOps <==> c in st.lastOps || c == op.clientId)
      && (c == op.clientId ==> st'.lastOps[c].op == op)
      && (c == op.clientId && !IsDuplicate(st, op) ==> st'.lastOps[c].getResult == KM.Value(st.kvMap, op.key))
      && ((c != op.clientId || IsDuplicate(st, op)) && c in st.lastOps ==> st'.lastOps[c] == st.lastOps[c])
  {
  }

  lemma AfterPush(log: seq<Op>, op: Op)
    ensures AfterLog(log + [op]) == ApplyOp(AfterLog(log), op).0
  {
    assert (log + [op])[..|log|] == log;
  }

  lemma {:induction false} RemembersLast(log: seq<Op>, c: int, i: nat)
    requires IsLast(log, c, i)
    ensures c in AfterLog(log).lastOps && AfterLog(log).lastOps[c].op == log[i]
    decreases |log|
  {
    hide AfterLog, ApplyOp, IsDuplicate;
    var n := |log| - 1;
    var front, op := log[..n], log[n];
    assert log == front + [op];
    AfterPush(front, op);
    StepRemembers(AfterLog(front), op, c);
    if op.clientId != c {
      RemembersLast(front, c, i);
    }
  }

  lemma {:induction false} RemembersOnlySeen(log: seq<Op>, c: int)
    requires c in AfterLog(log).lastOps
    ensures exists i: nat :: i < |log| && log[i].clientId == c
    decreases |log|
  {
    if log != [] {
      hide AfterLog, ApplyOp, IsDuplicate;
      var n := |log| - 1;
      var front, op := log[..n], log[n];
      assert log == front + [op];
      AfterPush(front, op);
      StepRemembers(AfterLog(front), op, c);
      if op.clientId == c {
        assert log[n].clientId == c;
      } else {
        RemembersOnlySeen(front, c);
        var i: nat :| i < |front| && front[i].clientId == c;
        assert log[i].clientId == c;
      }
    }
  }

  lemma {:induction false} SomeLast(log: seq<Op>, c: int, j: nat)
    requires j < |log| && log[j].clientId == c
    ensures exists i: nat :: j <= i && IsLast(log, c, i)
    decreases |log| - j
  {
    if !IsLast(log, c, j) {
      var k :| j < k < |log| && log[k].clientId == c;
      SomeLast(log, c, k);
    }
  }

  /** In an orderly log an operation is taken for a duplicate exactly when it has occurred before. */
  lemma DuplicateIffRepeat(log: seq<Op>, op: Op)
    requires Orderly(log + [op])
    ensures IsDuplicate(AfterLog(log), op) <==> op in log
  {
    hide AfterLog;
    var c, longer := op.clientId, log + [op];
    if op in log {
      var j: nat :| j < |log| && log[j] == op;
      SomeLast(log, c, j);
      var i: nat :| j <= i && IsLast(log, c, i);
      RemembersLast(log, c, i);
      assert longer[|log|] == op && longer[j] == op && longer[i] == log[i];
    }
    if IsDuplicate(AfterLog(log), op) {
      RemembersOnlySeen(log, c);
      var j: nat :| j < |log| && log[j].clientId == c;
      SomeLast(log, c, j);
      var i: nat :| j <= i && IsLast(log, c, i);
      RemembersLast(log, c, i);
      assert log[i] == op;
    }
  }

  // ---------------------------------------------------------------- exactly once

  lemma ExecutedIsStep(kv: map<string, string>, op: Op)
    ensures Executed(kv, op) == KM.MapStep(kv, InputOf(op), KM.KvOutput("")).1
    ensures op.opType == Get ==> KM.MapStep(kv, InputOf(op), KM.KvOutput(Answer(kv, op).value)).0
  {
    assert "" + op.value == op.value;
  }

  lemma OrderlyFront(log: seq<Op>, k: nat)
    requires Orderly(log) && k <= |log|
    ensures Orderly(log[..k])
  {
  }

  /** The store is that of the sequential model over the log without repeats. */
  lemma {:induction false} ExactlyOnce(log: seq<Op>)
    requires Orderly(log)
    ensures AfterLog(log).kvMap == Sequential(Deduplicated(log))
    decreases |log|
  {
    if log != [] {
      var n := |log| - 1;
      var front, op := log[..n], log[n];
      assert log == front + [op];
      OrderlyFront(log, n);
      ExactlyOnce(front);
      DuplicateIffRepeat(front, op);
      var once := Deduplicated(front);
      if op !in front {
        ExecutedIsStep(AfterLog(front).kvMap, op);
        assert (once + [op])[..|once|] == once;
      } else {
        assert once + [] == once;
      }
    }
  }

  /** The operation at j is taken for a duplicate exactly when it is one. */
  ghost predicate Recognised(log: seq<Op>, j: nat)
    requires j < |log|
  {
    IsDuplicate(AfterLog(log[..j]), log[j]) <==> log[j] in log[..j]
  }

  /**
   Looking only at a client's last operation is enough, at every place of the log, if and only
   if the log is orderly.
   */
  lemma OnceIffOrderly(log: seq<Op>)
    ensures Orderly(log) <==> forall j: nat :: j < |log| ==> Recognised(log, j)
  {
    hide AfterLog, IsDuplicate;
    if Orderly(log) {
      forall j: nat | j < |log| ensures Recognised(log, j) {
        OrderlyFront(log, j + 1);
        assert log[..j + 1] == log[..j] + [log[j]];
        DuplicateIffRepeat(log[..j], log[j]);
      }
    }
    if forall j: nat :: j < |log| ==> Recognised(log, j) {
      forall i, k, j | 0 <= i < k < j < |log| && log[i] == log[j] && log[k].clientId == log[i].clientId ensures log[k] == log[i] {
        Between(log, i, k, j);
      }
    }
  }

  lemma RepeatIsLast(log: seq<Op>, i: nat, j: nat, l: nat)
    requires i < j < |log| && log[i] == log[j] && Recognised(log, j) && IsLast(log[..j], log[j].clientId, l)
    ensures log[l] == log[j]
  {
    hide AfterLog;
    assert log[..j][i] == log[j];
    RemembersLast(log[..j], log[j].clientId, l);
  }

  lemma {:induction false} Between(log: seq<Op>, i: nat, k: nat, j: nat)
    requires forall j: nat :: j < |log| ==> Recognised(log, j)
    requires i < k < j < |log| && log[i] == log[j] && log[k].clientId == log[i].clientId
    ensures log[k] == log[i]
    decreases j
  {
    hide Recognised;
    var c := log[j].clientId;
    assert log[..j][k] == log[k];
    SomeLast(log[..j], c, k);
    var l: nat :| k <= l && IsLast(log[..j], c, l);
    assert Recognised(log, j);
    RepeatIsLast(log, i, j, l);
    if l > k {
      Between(log, i, k, l);
    }
  }

  /**
   A repeat is answered from `lastOps` with the value that its first execution found: for a get
   the value it returned then.
   */
  lemma {:induction false} RepeatSeesFirst(log: seq<Op>, i: nat, j: nat)
    requires Orderly(log) && i < j <= |log| && log[i] !in log[..i]
    requires forall k :: i < k < j && log[k].clientId == log[i].clientId ==> log[k] == log[i]
    ensures var c := log[i].clientId;
      var found := AfterLog(log[..i]).kvMap;
      && c in AfterLog(log[..j]).lastOps
      && AfterLog(log[..j]).lastOps[c] == LastOp(log[i], KM.Value(found, log[i].key))
      && found == Sequential(Deduplicated(log[..i]))
      && (log[i].opType == Get ==> KM.Value(found, log[i].key) == Answer(found, log[i]).value)
    decreases j
  {
    hide AfterLog, ApplyOp, Orderly, Sequential, Deduplicated, IsDuplicate;
    OrderlyFront(log, i);
    ExactlyOnce(log[..i]);
    var front, op, c := log[..j - 1], log[j - 1], log[i].clientId;
    assert log[..j] == front + [op];
    AfterPush(front, op);
    StepRemembers(AfterLog(front), op, c);
    if j == i + 1 {
      OrderlyFront(log, j);
      DuplicateIffRepeat(front, op);
    } else {
      RepeatSeesFirst(log, i, j - 1);
      if op == log[i] {
        RememberedIsDuplicate(AfterLog(front), op);
      }
    }
  }

  lemma RememberedIsDuplicate(st: Kv, op: Op)
    requires op.clientId in st.lastOps && st.lastOps[op.clientId].op == op
    ensures IsDuplicate(st, op)
  {
  }

  /**
   What applying answers: that the operation is a duplicate exactly when the log has it; else a get
   is told what the sequential store has under its key, or that there is no such key, and any other
   operation that it is done.
   */
  lemma AnswersAreSequential(log: seq<Op>, op: Op)
    requires Orderly(log + [op])
    ensures var (r, store) := (ApplyOp(AfterLog(log), op).1, Sequential(Deduplicated(log)));
      && (r.err == ErrDuplicate <==> op in log) && r.err != ErrNotApplied
      && (op !in log ==>
            && (r.err == ErrNoKey <==> op.opType == Get && op.key !in store)
            && r.value == if op.opType == Get then KM.Value(store, op.key) else "")
  {
    OrderlyFront(log + [op], |log|);
    assert (log + [op])[..|log|] == log;
    DuplicateIffRepeat(log, op);
    ExactlyOnce(log);
    hide AfterLog, Sequential, Deduplicated, Orderly;
  }

  // ---------------------------------------------------------------- snapshots

  lemma {:induction false} AppliedSplit(st: Kv, first: seq<Op>, second: seq<Op>)
    ensures Applied(st, first + second) == Applied(Applied(st, first), second)
    decreases |second|
  {
    if second == [] {
      assert first + second == first;
    } else {
      var n := |second| - 1;
      AppliedSplit(st, first, second[..n]);
      assert (first + second)[..|first| + n] == first + second[..n];
    }
  }

  /** Restoring the snapshot taken after a part of the log and replaying the rest is applying the whole log. */
  lemma SnapshotAndReplay(log: seq<Op>, k: nat)
    requires k <= |log|
    ensures Applied(AfterLog(log[..k]), log[k..]) == AfterLog(log)
  {
    AppliedSplit(Kv(map[], map[]), log[..k], log[k..]);
    assert log[..k] + log[k..] == log;
  }

  // ---------------------------------------------------------------- the server

  datatype Reply = Cached(value: string) | Submit

  /** What Raft hands over: a command of the log, or a snapshot of an earlier service state. */
  datatype ApplyMsg = Command(op: Op) | Snapshot(state: Kv) | EmptySnapshot

  function Received(st: Kv, msg: ApplyMsg): Kv {
    match msg
    case Command(op) => ApplyOp(st, op).0
    case Snapshot(state) => state
    case EmptySnapshot => st
  }

  class KVServer {
    var kvMap: map<string, string>
    var lastOps: map<int, LastOp>

    function State(): Kv
      reads this
    {
      Kv(kvMap, lastOps)
    }

    constructor ()
      ensures State() == AfterLog([])
    {
      kvMap, lastOps := map[], map[];
    }

    /** The first step of `processOpL`: a client's repeated request is answered from memory. */
    method ProcessOpL(op: Op) returns (reply: Reply)
      ensures reply == if IsDuplicate(State(), op) then Cached(lastOps[op.clientId].getResult) else Submit
    {
      if op.clientId in lastOps && lastOps[op.clientId].op == op {
        return Cached(lastOps[op.clientId].getResult);
      }
      return Submit;
    }

    method ApplyOpL(op: Op) returns (result: Result)
      modifies this
      ensures (State(), result) == ApplyOp(old(State()), op)
    {
      if op.clientId !in lastOps || lastOps[op.clientId].op != op {
        result := Result(OK, "");
        var ok := op.key in kvMap;
        var value := if ok then kvMap[op.key] else "";
        match op.opType {
          case Put =>
            kvMap := kvMap[op.key := op.value];
          case Append =>
            if ok {
              kvMap := kvMap[op.key := value + op.value];
            } else {
              kvMap := kvMap[op.key := op.value];
            }
          case Get =>
            if ok {
              result := Result(OK, value);
            } else {
              result := Result(ErrNoKey, "");
            }
        }
        lastOps := lastOps[op.clientId := LastOp(op, value)];
      } else {
        result := Result(ErrDuplicate, "");
      }
    }

    /** The snapshot holds the store and the remembered operations. */
    method SnapshotL() returns (snapshot: Kv)
      ensures snapshot == State()
    {
      return Kv(kvMap, lastOps);
    }

    method ReadSnapshotL(snapshot: Kv)
      modifies this
      ensures State() == snapshot
    {
      kvMap, lastOps := snapshot.kvMap, snapshot.lastOps;
    }

    /**
     The applier's loop over what Raft delivers.  When the messages are commands of one log, with
     jumps to snapshots of that same log, a server that starts in the state of some part of the
     log ends in the state of the part that the messages reach.
     */
    method ReceiveApplyMsgs(msgs: seq<ApplyMsg>, ghost log: seq<Op>, ghost ends: seq<nat>, ghost start: nat)
      requires start <= |log| && State() == AfterLog(log[..start]) && Delivers(log, msgs, ends, start)
      modifies this
      ensures Reached(ends, |msgs|, start) <= |log| && State() == AfterLog(log[..Reached(ends, |msgs|, start)])
    {
      hide *;
      Begins(log, msgs, ends, start);
      for i := 0 to |msgs|
        invariant Reached(ends, i, start) <= |log| && State() == AfterLog(log[..Reached(ends, i, start)])
      {
        Continues(log, msgs, ends, i, start);
        Receive(msgs[i]);
      }
    }

    method Receive(msg: ApplyMsg)
      modifies this
      ensures State() == Received(old(State()), msg)
    {
      match msg {
        case Command(op) =>
          var result := ApplyOpL(op);
        case Snapshot(state) =>
          ReadSnapshotL(state);
        case EmptySnapshot =>
      }
    }
  }

  lemma DeliverStep(log: seq<Op>, msg: ApplyMsg, done: nat, end: nat)
    requires DeliversOne(log, msg, done, end)
    ensures Received(AfterLog(log[..done]), msg) == AfterLog(log[..end])
  {
    hide AfterLog, ApplyOp;
    if msg.Command? {
      assert log[..end] == log[..done] + [msg.op];
      AfterPush(log[..done], msg.op);
    }
  }

  lemma Begins(log: seq<Op>, msgs: seq<ApplyMsg>, ends: seq<nat>, start: nat)
    requires Delivers(log, msgs, ends, start)
    ensures |ends| == |msgs| && Reached(ends, 0, start) == start
  {
  }

  lemma Continues(log: seq<Op>, msgs: seq<ApplyMsg>, ends: seq<nat>, i: nat, start: nat)
    requires Delivers(log, msgs, ends, start) && i < |msgs| && |ends| == |msgs| && Reached(ends, i, start) <= |log|
    ensures Reached(ends, i + 1, start) <= |log|
    ensures Received(AfterLog(log[..Reached(ends, i, start)]), msgs[i]) == AfterLog(log[..Reached(ends, i + 1, start)])
  {
    hide AfterLog, Received;
    DeliverStep(log, msgs[i], Reached(ends, i, start), ends[i]);
  }

  /** A command is the next of the log; a snapshot stands for a longer part of it. */
  ghost predicate DeliversOne(log: seq<Op>, msg: ApplyMsg, done: nat, end: nat) {
    && done <= end <= |log|
    && match msg
       case Command(op) => end == done + 1 && log[done] == op
       case Snapshot(state) => state == AfterLog(log[..end])
       case EmptySnapshot => end == done
  }

  ghost predicate Delivers(log: seq<Op>, msgs: seq<ApplyMsg>, ends: seq<nat>, start: nat) {
    && |ends| == |msgs| && start <= |log|
    && forall i :: 0 <= i < |msgs| ==> DeliversOne(log, msgs[i], Reached(ends, i, start), ends[i])
  }

  /** How much of the log is covered after the first i messages. */
  ghost function Reached(ends: seq<nat>, i: nat, start: nat): nat
    requires i <= |ends|
  {
    if i == 0 then start else ends[i - 1]
  }
}
