/**
 The key-value service as its clients see it: over every run of the cluster, with crashes,
 snapshots, repeated requests and changes of leader, the calls and answers of all clients
 together are linearizable against one store.
 */
module KvClients {
  import opened RaftNode
  import opened RaftCluster
  import opened RaftSafety
  import opened RaftOrigin
  import RaftOverwrite
  import opened KvService
  import KH = KvHistories
  import KS = KvServer

  /** An operation is handed to Raft only after its client has called it. */
  ghost predicate AskedFor(decode: Command -> KS.Op, actions: seq<Action>, calls: seq<KH.Call>, k: nat)
    requires k < |actions|
  {
    actions[k].Propose? ==>
      exists x: nat :: KH.CallFor(calls, decode(actions[k].command), x) && calls[x].called <= k
  }

  /** A client's operations are handed to Raft in the order of their numbers; repeats of the last are allowed. */
  ghost predicate InTurn(a: KS.Op, b: KS.Op) {
    a.clientId == b.clientId ==> a.opId <= b.opId && (a.opId == b.opId ==> a == b)
  }

  ghost predicate ProposalsInTurn(decode: Command -> KS.Op, actions: seq<Action>) {
    forall k, l :: 0 <= k < l < |actions| && actions[k].Propose? && actions[l].Propose? ==>
      InTurn(decode(actions[k].command), decode(actions[l].command))
  }

  /** An answer was given by the server of a replica from its state at some moment before it reached the client. */
  ghost predicate AnswerOk(decode: Command -> KS.Op, run: seq<Cluster>, call: KH.Call) {
    call.Answered? ==>
      && call.seenAt < |run| && call.seenAt <= call.returned && call.replica < |run[call.seenAt].services|
      && KH.Tells(StoreOf(decode, run[call.seenAt].services[call.replica].applied), call.op, call.value)
  }

  ghost predicate Clients(decode: Command -> KS.Op, run: seq<Cluster>, actions: seq<Action>, calls: seq<KH.Call>) {
    && KH.OpsDistinct(calls) && ProposalsInTurn(decode, actions)
    && (forall k :: 0 <= k < |actions| ==> AskedFor(decode, actions, calls, k))
    && (forall x :: 0 <= x < |calls| ==> AnswerOk(decode, run, calls[x]))
  }

  // ---------------------------------------------------------------- the replica furthest ahead

  ghost predicate Ahead(run: seq<Cluster>, p: nat, n: nat, applied: seq<Command>)
    requires p < |run|
  {
    forall i: nat :: i < n && i < |run[p].services| ==> run[p].services[i].applied <= applied
  }

  lemma {:induction false} FurthestAt(run: seq<Cluster>, actions: seq<Action>, p: nat, n: nat, q: nat, j: nat) returns (q': nat, j': nat)
    requires IsRun(run, actions) && p < |run| && q < |run| && j < |run[q].services|
    ensures q' < |run| && j' < |run[q'].services|
    ensures run[q].services[j].applied <= run[q'].services[j'].applied && Ahead(run, p, n, run[q'].services[j'].applied)
  {
    hide IsRun;
    if n == 0 {
      q', j' := q, j;
    } else {
      q', j' := FurthestAt(run, actions, p, n - 1, q, j);
      if n - 1 < |run[p].services| {
        StateMachineSafety(run, actions, p, n - 1, q', j');
        if run[q'].services[j'].applied <= run[p].services[n - 1].applied {
          q', j' := p, n - 1;
        }
      }
    }
  }

  lemma {:induction false} Furthest(run: seq<Cluster>, actions: seq<Action>, n: nat) returns (q: nat, j: nat)
    requires IsRun(run, actions) && 0 < n <= |run|
    ensures q < |run| && j < |run[q].services|
    ensures forall p: nat :: p < n ==> Ahead(run, p, |run[p].services|, run[q].services[j].applied)
  {
    hide IsRun, Ahead;
    if n == 1 {
      assert 0 < |run[0].services| by { SomeService(run, actions); }
      q, j := FurthestAt(run, actions, 0, |run[0].services|, 0, 0);
    } else {
      var q0, j0 := Furthest(run, actions, n - 1);
      q, j := FurthestAt(run, actions, n - 1, |run[n - 1].services|, q0, j0);
      forall p: nat | p < n ensures Ahead(run, p, |run[p].services|, run[q].services[j].applied) {
        if p < n - 1 {
          AheadOfMore(run, p, |run[p].services|, run[q0].services[j0].applied, run[q].services[j].applied);
        }
      }
    }
  }

  lemma AheadOfMore(run: seq<Cluster>, p: nat, n: nat, applied: seq<Command>, more: seq<Command>)
    requires p < |run| && Ahead(run, p, n, applied) && applied <= more
    ensures Ahead(run, p, n, more)
  {
  }

  lemma SomeService(run: seq<Cluster>, actions: seq<Action>)
    requires IsRun(run, actions)
    ensures |run| == |actions| + 1 && |run[0].services| > 0
  {
    hide Next;
  }

  // ---------------------------------------------------------------- linearizability

  /** An operation of the log was called before it was proposed. */
  lemma CalledBefore(decode: Command -> KS.Op, actions: seq<Action>, calls: seq<KH.Call>, p: nat, applied: seq<Command>, k: nat) returns (x: nat)
    requires p <= |actions| && Proposed(actions[..p], applied) && k < |applied|
    requires forall k :: 0 <= k < |actions| ==> AskedFor(decode, actions, calls, k)
    ensures KH.CallFor(calls, decode(applied[k]), x) && calls[x].called < p
  {
    var l := ProposalOf(actions, applied, p, k);
    assert AskedFor(decode, actions, calls, l);
    x :| KH.CallFor(calls, decode(actions[l].command), x) && calls[x].called <= l;
  }

  lemma LogInTurn(decode: Command -> KS.Op, actions: seq<Action>, p: nat, applied: seq<Command>)
    requires p <= |actions| && Proposed(actions[..p], applied) && ProposalsInTurn(decode, actions)
    ensures KS.Orderly(Decoded(decode, applied))
  {
    hide KS.Orderly;
    var at: seq<nat> :| ProposedAt(actions[..p], applied, at);
    var log := Decoded(decode, applied);
    forall i, j | 0 <= i < j < |log| ensures InTurn(log[i], log[j]) {
      assert actions[..p][at[i]] == actions[at[i]] && actions[..p][at[j]] == actions[at[j]];
    }
    KS.InOrderIsOrderly(log);
  }

  /** What a replica had applied explains what its server says. */
  lemma AnswerExplained(decode: Command -> KS.Op, run: seq<Cluster>, actions: seq<Action>, calls: seq<KH.Call>, applied: seq<Command>, x: nat)
    requires IsRun(run, actions) && Clients(decode, run, actions, calls) && x < |calls| && calls[x].Answered?
    requires calls[x].seenAt < |run| && Ahead(run, calls[x].seenAt, |run[calls[x].seenAt].services|, applied)
    ensures exists r: nat :: KH.Explains(calls, Decoded(decode, applied), calls[x], r)
  {
    hide IsRun, KH.Tells, ProposalsInTurn, AskedFor, Proposed, KS.AfterLog;
    RunLength(run, actions);
    var call := calls[x];
    assert AnswerOk(decode, run, call);
    var (p, mine, log) := (call.seenAt, run[call.seenAt].services[call.replica].applied, Decoded(decode, applied));
    assert mine <= applied;
    var r := |mine|;
    assert log[..r] == Decoded(decode, mine);
    DeliveredWereProposed(run, actions, p, call.replica);
    forall k, y: nat | 0 <= k < r && KH.CallFor(calls, log[k], y) ensures calls[y].called <= call.returned {
      var z := CalledBefore(decode, actions, calls, p, mine, k);
      KH.SameCall(calls, log[k], y, z);
    }
    assert KH.Explains(calls, log, call, r);
  }

  /**
   Whatever the clients have been told by the end of a run is linearizable against one key-value
   store: provided each client hands its operations over in turn, and an answer is what a server
   remembers of that very operation.
   */
  lemma ServiceIsLinearizable(decode: Command -> KS.Op, run: seq<Cluster>, actions: seq<Action>, calls: seq<KH.Call>)
    requires IsRun(run, actions) && Clients(decode, run, actions, calls)
    ensures KH.LinearizableCalls(calls, |run|)
  {
    hide IsRun, KS.Orderly, KH.OpsDistinct, ProposalsInTurn, AskedFor, AnswerOk, Ahead, KH.LinearizableCalls, Proposed, KH.Explains;
    SomeService(run, actions);
    var q, j := Furthest(run, actions, |run|);
    var applied := run[q].services[j].applied;
    var log := Decoded(decode, applied);
    DeliveredWereProposed(run, actions, q, j);
    LogInTurn(decode, actions, q, applied);
    forall k | 0 <= k < |log| ensures KH.HasCall(calls, log[k]) {
      var y := CalledBefore(decode, actions, calls, q, applied, k);
    }
    forall k, y: nat | 0 <= k < |log| && KH.CallFor(calls, log[k], y) ensures calls[y].called <= |run| {
      var z := CalledBefore(decode, actions, calls, q, applied, k);
      KH.SameCall(calls, log[k], y, z);
    }
    forall x: nat | x < |calls| && calls[x].Answered? ensures exists r: nat :: KH.Explains(calls, log, calls[x], r) {
      assert calls[x].seenAt < |run| by { assert AnswerOk(decode, run, calls[x]); SeenInRun(decode, run, calls[x]); }
      AnswerExplained(decode, run, actions, calls, applied, x);
    }
    KH.LogLinearizable(calls, log, |run|);
  }

  lemma SeenInRun(decode: Command -> KS.Op, run: seq<Cluster>, call: KH.Call)
    requires AnswerOk(decode, run, call) && call.Answered?
    ensures call.seenAt < |run|
  {
  }

  // ---------------------------------------------------------------- an answer that is not the operation's own

  /**
   The proviso on answers is needed.  Server 0 hands x to Raft, as its first command, and waits for
   index 1.  What comes out there is another client's get, which finds no key: the waiting client
   takes the answer for its own, while no log holds x and server 0 knows nothing of it.
   */
  lemma StrangersAnswer(c: Cluster, decode: Command -> KS.Op, x: Command, y: Command) returns (run: seq<Cluster>, actions: seq<Action>)
    requires Initial(c) && |c.nodes| == 3 && decode(y).opType == KS.Get && decode(x) != decode(y)
    ensures IsRun(run, actions) && |actions| == 14 && run[0] == c
    ensures actions[3] == Propose(0, x) && actions[13] == ApplyCommandTurn(0) && forall k :: 0 <= k < 14 ==> !actions[k].Crash?
    ensures |run[13].services| == |run[14].services| == |run[14].nodes| == 3 && run[14].services[0].applied == [y]
    ensures var st := StoreOf(decode, run[13].services[0].applied);
      KS.Accepted(KS.WaitApply(decode(x), decode(y), KS.ApplyOp(st, decode(y)).1))
    ensures !KH.Tells(StoreOf(decode, run[14].services[0].applied), decode(x), "")
    ensures forall i, e :: 0 <= i < 3 && e in run[14].nodes[i].log ==> e.command == Nil || e.command == y
  {
    hide IsRun, Initial, KS.AfterLog, KS.ApplyOp, KS.IsDuplicate, KS.Accepted, KS.WaitApply;
    run, actions := RaftOverwrite.OverwrittenProposal(c, x, y);
    EmptyStore(decode);
    OneInStore(decode, y, decode(x));
    KS.AcceptedIff(StoreOf(decode, []), decode(x), decode(y));
    NotRemembered(decode(y));
  }

  lemma EmptyStore(decode: Command -> KS.Op)
    ensures StoreOf(decode, []) == KS.Kv(map[], map[])
  {
    assert Decoded(decode, []) == [];
  }

  lemma NotRemembered(op: KS.Op)
    ensures !KS.IsDuplicate(KS.Kv(map[], map[]), op)
  {
  }

  lemma OneInStore(decode: Command -> KS.Op, y: Command, op: KS.Op)
    requires op != decode(y)
    ensures !KS.IsDuplicate(StoreOf(decode, [y]), op)
  {
    assert Decoded(decode, [y]) == [decode(y)];
    KS.AfterPush([], decode(y));
    assert [] + [decode(y)] == [decode(y)];
  }
}
