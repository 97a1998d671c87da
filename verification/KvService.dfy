/**
 The key-value service on top of Raft: in every run of the cluster, with crashes, snapshots and
 lost messages, the stores of all replicas are states of one sequential store.
 */
module KvService {
  import opened RaftNode
  import opened RaftHistory
  import opened RaftCluster
  import RaftVoting
  import RaftSafety
  import KS = KvServer

  /** The operations that the delivered commands carry. */
  function Decoded(decode: Command -> KS.Op, commands: seq<Command>): (ops: seq<KS.Op>)
    ensures |ops| == |commands| && forall i :: 0 <= i < |commands| ==> ops[i] == decode(commands[i])
  {
    seq(|commands|, i requires 0 <= i < |commands| => decode(commands[i]))
  }

  /** The state of a replica that has applied the commands. */
  function StoreOf(decode: Command -> KS.Op, commands: seq<Command>): KS.Kv {
    KS.AfterLog(Decoded(decode, commands))
  }

  // ---------------------------------------------------------------- what a peer delivers to its server

  /** The message that a step of the cluster hands to the server of peer i, if any. */
  ghost function Handed(decode: Command -> KS.Op, c: Cluster, a: Action, i: nat): seq<KS.ApplyMsg>
    requires WellFormed(c) && Enabled(c, a) && NoPanic(c, a)
  {
    if a == ApplyCommandTurn(i) then
      match ApplyCommand(c.nodes[i]).1
      case DeliverCommand(_, command) => [KS.Command(decode(command))]
      case _ => []
    else if a == ApplySnapshotTurn(i) then
      match ApplySnapshot(c.nodes[i]).1
      case DeliverSnapshot(_, data) => [KS.Snapshot(StoreOf(decode, data))]
      case _ => []
    else []
  }

  /** All messages for the server of peer i between two moments of a run. */
  ghost function Deliveries(decode: Command -> KS.Op, run: seq<Cluster>, actions: seq<Action>, p: nat, q: nat, i: nat): seq<KS.ApplyMsg>
    requires RaftSafety.IsRun(run, actions) && p <= q < |run|
    decreases q
  {
    if p == q then []
    else
      assert Next(run[q - 1], actions[q - 1], run[q]);
      Deliveries(decode, run, actions, p, q - 1, i) + Handed(decode, run[q - 1], actions[q - 1], i)
  }

  lemma CommandTurn(c: Cluster, i: nat)
    requires WellFormed(c) && Enabled(c, ApplyCommandTurn(i)) && NoPanic(c, ApplyCommandTurn(i))
    ensures var (d, applied) := (ApplyCommand(c.nodes[i]).1, c.services[i].applied);
      var c' := Step(c, ApplyCommandTurn(i));
      && i < |c'.services|
      && c'.services[i].applied == (if d.DeliverCommand? then applied + [d.command] else applied)
      && !d.DeliverSnapshot?
  {
    hide WellFormed, Based, Window, GetLog;
    RaftVoting.WellFormedSize(c, i);
  }

  lemma SnapshotTurn(c: Cluster, i: nat)
    requires WellFormed(c) && Enabled(c, ApplySnapshotTurn(i)) && NoPanic(c, ApplySnapshotTurn(i))
    ensures var (d, applied) := (ApplySnapshot(c.nodes[i]).1, c.services[i].applied);
      var c' := Step(c, ApplySnapshotTurn(i));
      && i < |c'.services|
      && c'.services[i].applied == (if d.DeliverSnapshot? then d.data else applied)
  {
    hide WellFormed, Based, Window;
    RaftVoting.WellFormedSize(c, i);
  }

  /** Every other step, but for a crash, leaves the server of peer i as it is. */
  lemma OtherTurn(c: Cluster, a: Action, i: nat)
    requires WellFormed(c) && Enabled(c, a) && NoPanic(c, a) && i < |c.services|
    requires a != ApplyCommandTurn(i) && a != ApplySnapshotTurn(i) && a != Crash(i)
    ensures i < |Step(c, a).services| && Step(c, a).services[i].applied == c.services[i].applied
  {
    hide WellFormed, Based, Full, Window, AppendEntries, RequestVote, InstallSnapshot, ProcessAppendReply,
         ProcessInstallReply, TakeSnapshot, ApplySnapshot, ApplyCommand, BecomeCandidate, MakeAppendArgs, BecomeLeader,
         OnDisk, Stored, Appended, ProcessVoteReply, Restart, Start;
    match a
    case ApplySnapshotTurn(j) => RaftVoting.WellFormedSize(c, j);
    case ApplyCommandTurn(j) => RaftVoting.WellFormedSize(c, j);
    case Crash(j) => RaftVoting.WellFormedSize(c, j);
    case _ => assert Step(c, a).services == c.services;
  }

  /** One step: what is handed over takes the server from the state of its applied commands to the next. */
  lemma HandedIsNext(decode: Command -> KS.Op, c: Cluster, a: Action, c': Cluster, i: nat)
    requires Next(c, a, c') && i < |c.services| && a != Crash(i)
    requires i < |c'.services| && c.services[i].applied <= c'.services[i].applied
    ensures var msgs := Handed(decode, c, a, i);
      var (before, after) := (c.services[i].applied, c'.services[i].applied);
      || (msgs == [] && after == before)
      || (|msgs| == 1 && KS.DeliversOne(Decoded(decode, after), msgs[0], |before|, |after|))
  {
    hide WellFormed, Enabled, NoPanic, Step, ApplyCommand, ApplySnapshot, KS.AfterLog;
    var (before, after) := (c.services[i].applied, c'.services[i].applied);
    assert Decoded(decode, after)[..|after|] == Decoded(decode, after);
    if a == ApplyCommandTurn(i) {
      CommandTurn(c, i);
    } else if a == ApplySnapshotTurn(i) {
      SnapshotTurn(c, i);
    } else {
      OtherTurn(c, a, i);
    }
  }

  lemma DeliversLonger(log: seq<KS.Op>, longer: seq<KS.Op>, msgs: seq<KS.ApplyMsg>, ends: seq<nat>, start: nat)
    requires KS.Delivers(log, msgs, ends, start) && log <= longer
    ensures KS.Delivers(longer, msgs, ends, start)
  {
    hide KS.AfterLog;
    forall k | 0 <= k < |msgs| ensures KS.DeliversOne(longer, msgs[k], KS.Reached(ends, k, start), ends[k]) {
      assert KS.DeliversOne(log, msgs[k], KS.Reached(ends, k, start), ends[k]);
      assert log[..ends[k]] == longer[..ends[k]];
    }
  }

  lemma DeliversMore(log: seq<KS.Op>, msgs: seq<KS.ApplyMsg>, ends: seq<nat>, start: nat, msg: KS.ApplyMsg)
    requires KS.Delivers(log, msgs, ends, start) && KS.DeliversOne(log, msg, KS.Reached(ends, |msgs|, start), |log|)
    ensures KS.Delivers(log, msgs + [msg], ends + [|log|], start)
  {
    hide KS.DeliversOne;
    var (m, e) := (msgs + [msg], ends + [|log|]);
    forall k | 0 <= k < |m| ensures KS.DeliversOne(log, m[k], KS.Reached(e, k, start), e[k]) {
      assert KS.Reached(e, k, start) == KS.Reached(ends, k, start);
      if k < |msgs| {
        assert KS.DeliversOne(log, msgs[k], KS.Reached(ends, k, start), ends[k]);
      }
    }
  }

  /**
   Between two crashes, what a peer hands to its server are the commands of one log, in order and
   without gaps, with jumps to snapshots of that log; they reach exactly what the peer counts as
   applied.
   */
  lemma {:induction false} PeerDelivers(decode: Command -> KS.Op, run: seq<Cluster>, actions: seq<Action>, p: nat, q: nat, i: nat) returns (ends: seq<nat>)
    requires RaftSafety.IsRun(run, actions) && p <= q < |run| && i < |run[p].nodes|
    requires forall k :: p <= k < q ==> actions[k] != Crash(i)
    ensures i < |run[p].services| && i < |run[q].services|
    ensures var (msgs, start) := (Deliveries(decode, run, actions, p, q, i), |run[p].services[i].applied|);
      && KS.Delivers(Decoded(decode, run[q].services[i].applied), msgs, ends, start)
      && KS.Reached(ends, |msgs|, start) == |run[q].services[i].applied|
    decreases q
  {
    hide WellFormed, Enabled, NoPanic, Step, Initial, KS.DeliversOne, Handed;
    RaftSafety.DeliveryMovesForward(run, actions, p, q, i);
    var start := |run[p].services[i].applied|;
    if p == q {
      ends := [];
    } else {
      RaftSafety.DeliveryMovesForward(run, actions, p, q - 1, i);
      RaftSafety.DeliveryMovesForward(run, actions, q - 1, q, i);
      ends := PeerDelivers(decode, run, actions, p, q - 1, i);
      assert Next(run[q - 1], actions[q - 1], run[q]);
      HandedIsNext(decode, run[q - 1], actions[q - 1], run[q], i);
      var (before, after) := (run[q - 1].services[i].applied, run[q].services[i].applied);
      var msgs := Deliveries(decode, run, actions, p, q - 1, i);
      var handed := Handed(decode, run[q - 1], actions[q - 1], i);
      assert Decoded(decode, before) <= Decoded(decode, after);
      DeliversLonger(Decoded(decode, before), Decoded(decode, after), msgs, ends, start);
      if handed == [] {
        assert msgs + handed == msgs;
      } else {
        assert handed == [handed[0]];
        DeliversMore(Decoded(decode, after), msgs, ends, start, handed[0]);
        ends := ends + [|after|];
      }
    }
  }

  /** A server that starts again from the snapshot on its peer's disk, if there is one. */
  method StartServer(decode: Command -> KS.Op, data: seq<Command>) returns (server: KS.KVServer)
    ensures fresh(server) && server.State() == StoreOf(decode, data)
  {
    server := new KS.KVServer();
    if data != [] {
      server.ReadSnapshotL(StoreOf(decode, data));
    }
  }

  /**
   The server itself, fed with what its peer delivers in a run between two crashes, is at every
   moment in the state of the commands that the peer counts as applied.
   */
  method RunServer(server: KS.KVServer, msgs: seq<KS.ApplyMsg>, ghost decode: Command -> KS.Op,
                   ghost run: seq<Cluster>, ghost actions: seq<Action>, ghost p: nat, ghost q: nat, ghost i: nat)
    requires RaftSafety.IsRun(run, actions) && p <= q < |run| && i < |run[p].nodes| && i < |run[p].services|
    requires forall k :: p <= k < q ==> actions[k] != Crash(i)
    requires msgs == Deliveries(decode, run, actions, p, q, i)
    requires server.State() == StoreOf(decode, run[p].services[i].applied)
    modifies server
    ensures i < |run[q].services| && server.State() == StoreOf(decode, run[q].services[i].applied)
  {
    hide RaftSafety.IsRun, KS.AfterLog, KS.Delivers, KS.Reached, Deliveries;
    ghost var ends := PeerDelivers(decode, run, actions, p, q, i);
    RaftSafety.DeliveryMovesForward(run, actions, p, q, i);
    ghost var (before, after) := (run[p].services[i].applied, run[q].services[i].applied);
    assert Decoded(decode, after)[..|before|] == Decoded(decode, before);
    assert Decoded(decode, after)[..|after|] == Decoded(decode, after);
    server.ReceiveApplyMsgs(msgs, Decoded(decode, after), ends, |before|);
  }

  /** A crash puts the peer's service back to the snapshot on disk, from which the server starts again. */
  lemma CrashRestores(run: seq<Cluster>, actions: seq<Action>, k: nat, i: nat)
    requires RaftSafety.IsRun(run, actions) && k < |actions| && actions[k] == Crash(i)
    ensures i < |run[k].nodes| && i < |run[k + 1].services| && run[k + 1].services[i].applied == run[k].nodes[i].disk.data
  {
    hide WellFormed;
    assert Next(run[k], actions[k], run[k + 1]);
    RaftVoting.WellFormedSize(run[k], i) by { assert Enabled(run[k], Crash(i)); }
  }

  // ---------------------------------------------------------------- all replicas

  /**
   Whatever two replicas have applied at any two moments of a run, one of them is ahead of the
   other on the same log: applying the rest brings the second to the state of the first.
   */
  lemma ReplicasAgree(run: seq<Cluster>, actions: seq<Action>, decode: Command -> KS.Op, p: nat, i: nat, q: nat, j: nat)
    requires RaftSafety.IsRun(run, actions) && p < |run| && q < |run|
    requires i < |run[p].services| && j < |run[q].services|
    requires |run[p].services[i].applied| <= |run[q].services[j].applied|
    ensures var a, b := run[p].services[i].applied, run[q].services[j].applied;
      StoreOf(decode, b) == KS.Applied(StoreOf(decode, a), Decoded(decode, b)[|a|..])
  {
    hide RaftSafety.IsRun, KS.AfterLog;
    RaftSafety.StateMachineSafety(run, actions, p, i, q, j);
    var a, b := run[p].services[i].applied, run[q].services[j].applied;
    assert a <= b;
    KS.SnapshotAndReplay(Decoded(decode, b), |a|);
    assert Decoded(decode, b)[..|a|] == Decoded(decode, a);
  }

  /**
   If clients number their operations in order in the log that the replica furthest ahead has
   applied, then every replica, at every moment, holds the sequential store with each operation
   counted once.
   */
  lemma ReplicasAreSequential(run: seq<Cluster>, actions: seq<Action>, decode: Command -> KS.Op, p: nat, i: nat, q: nat, j: nat)
    requires RaftSafety.IsRun(run, actions) && p < |run| && q < |run|
    requires i < |run[p].services| && j < |run[q].services|
    requires |run[p].services[i].applied| <= |run[q].services[j].applied|
    requires KS.ClientsInOrder(Decoded(decode, run[q].services[j].applied))
    ensures var applied := Decoded(decode, run[p].services[i].applied);
      StoreOf(decode, run[p].services[i].applied).kvMap == KS.Sequential(KS.Deduplicated(applied))
  {
    hide RaftSafety.IsRun, KS.AfterLog;
    RaftSafety.StateMachineSafety(run, actions, p, i, q, j);
    var a, b := run[p].services[i].applied, run[q].services[j].applied;
    assert a <= b;
    assert Decoded(decode, a) == Decoded(decode, b)[..|a|];
    KS.InOrderIsOrderly(Decoded(decode, b));
    KS.OrderlyFront(Decoded(decode, b), |a|);
    KS.ExactlyOnce(Decoded(decode, a));
  }
}
