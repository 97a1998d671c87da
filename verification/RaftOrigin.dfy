/**
 Where the commands in logs come from: every log, and so everything that is ever delivered, is a
 part of the commands proposed before, in the order in which they were proposed.
 */
module RaftOrigin {
  import opened RaftNode
  import opened RaftHistory
  import opened RaftCluster
  import opened RaftInvariant
  import opened RaftVoting
  import opened RaftReplication
  import opened RaftSafety

  /** Command i was proposed by action at[i], and the places go up. */
  ghost predicate ProposedAt(actions: seq<Action>, commands: seq<Command>, at: seq<nat>) {
    && |at| == |commands|
    && (forall i :: 0 <= i < |at| ==> at[i] < |actions| && actions[at[i]].Propose? && actions[at[i]].command == commands[i])
    && (forall i, j :: 0 <= i < j < |at| ==> at[i] < at[j])
  }

  ghost predicate Proposed(actions: seq<Action>, commands: seq<Command>) {
    exists at: seq<nat> :: ProposedAt(actions, commands, at)
  }

  lemma ProposedPart(actions: seq<Action>, more: seq<Action>, commands: seq<Command>, part: seq<Command>)
    requires Proposed(actions, commands) && part <= commands && actions <= more
    ensures Proposed(more, part)
  {
    var at: seq<nat> :| ProposedAt(actions, commands, at);
    assert ProposedAt(more, part, at[..|part|]);
  }

  lemma ProposedOneMore(actions: seq<Action>, commands: seq<Command>, a: Action)
    requires Proposed(actions, commands) && a.Propose?
    ensures Proposed(actions + [a], commands + [a.command])
  {
    var at: seq<nat> :| ProposedAt(actions, commands, at);
    assert ProposedAt(actions + [a], commands + [a.command], at + [|actions|]);
  }

  // ---------------------------------------------------------------- the leaders' logs

  ghost predicate OriginInv(h: History, actions: seq<Action>) {
    forall t :: t in h.termLog ==> Proposed(actions, Commands(h.termLog[t]))
  }

  /** A log that is well-formed is a part of the log of the leader that made its last entry. */
  lemma LogProposed(h: History, actions: seq<Action>, l: seq<LogEntry>)
    requires OriginInv(h, actions) && LogOk(h, l)
    ensures Proposed(actions, Commands(l))
  {
    if l == [] {
      assert ProposedAt(actions, Commands(l), []);
    } else {
      assert EntryOk(h, l, |l|);
      assert l[..|l|] == l;
      var t := l[|l| - 1].term;
      ProposedPart(actions, actions, Commands(h.termLog[t]), Commands(l));
    }
  }

  /** What a step may do to a leader's log: append the proposed command, or begin with a well-formed log. */
  ghost predicate LogFollows(h: History, a: Action, t: nat, l: seq<LogEntry>) {
    || (t in h.termLog && l == h.termLog[t])
    || LogOk(h, l)
    || (a.Propose? && l != [] && l[|l| - 1].command == a.command
        && l[..|l| - 1] == if t in h.termLog then h.termLog[t] else [])
  }

  lemma PeerLogOk(c: Cluster, i: nat)
    requires Inv(c) && i < |c.nodes|
    ensures |c.nodes| == |c.services| && Based(c.hist, c.nodes[i].log) && LogOk(c.hist, Full(c.hist, c.nodes[i].log))
  {
    hide *;
    InvSize(c);
    InvParts(c, i);
    PeerElim(c.hist, i, c.nodes[i], c.services[i]);
    StorageElim(c.hist, i, c.nodes[i]);
  }

  lemma SomeSteps(c: Cluster, a: Action)
    requires WellFormed(c) && Enabled(c, a) && NoPanic(c, a) && !a.HandleVoteResponse? && !a.Propose?
    ensures Step(c, a).hist.termLog == c.hist.termLog
  {
    hide WellFormed, Based, Full, Window, OnDisk, AppendEntries, RequestVote, InstallSnapshot,
         ProcessAppendReply, ProcessInstallReply, TakeSnapshot, BecomeCandidate, MakeAppendArgs, AppendReplyOk, Follows,
         ApplySnapshot, ApplyCommand, Restart;
    match a
    case Timeout(i) => WellFormedSize(c, i);
    case HandleVoteRequest(m) => WellFormedSize(c, m.to);
    case HandleAppendRequest(m) => WellFormedSize(c, m.to);
    case HandleInstallRequest(m) => WellFormedSize(c, m.to);
    case ApplySnapshotTurn(i) => WellFormedSize(c, i);
    case ApplyCommandTurn(i) => WellFormedSize(c, i);
    case Crash(i) => WellFormedSize(c, i);
    case _ =>
  }

  lemma StepFollows(c: Cluster, a: Action, t: nat)
    requires Inv(c) && WellFormed(c) && Enabled(c, a) && NoPanic(c, a) && t in Step(c, a).hist.termLog
    ensures LogFollows(c.hist, a, t, Step(c, a).hist.termLog[t])
  {
    hide Inv, WellFormed, Based, Full, Window, LogOk, Start, ProcessVoteReply;
    match a
    case HandleVoteResponse(m) =>
      PeerLogOk(c, m.va.candidateId);
      WellFormedSize(c, m.va.candidateId);
    case Propose(i, command) =>
      WellFormedSize(c, i);
      ProposeAppends(c, i, command, t);
    case _ => hide Step; SomeSteps(c, a);
  }

  lemma ProposeAppends(c: Cluster, i: nat, command: Command, t: nat)
    requires WellFormed(c) && Enabled(c, Propose(i, command)) && t in Step(c, Propose(i, command)).hist.termLog
    ensures LogFollows(c.hist, Propose(i, command), t, Step(c, Propose(i, command)).hist.termLog[t])
  {
    hide WellFormed, Based, Full, Window, LogOk, Start, Appended, LogFollows;
    WellFormedSize(c, i);
    var s := c.nodes[i];
    AppendedFollows(c.hist, i, s.currentTerm, LogEntry(command, LastLog(s.log).index + 1, s.currentTerm), Propose(i, command), t);
  }

  lemma AppendedFollows(h: History, v: nat, u: nat, e: LogEntry, a: Action, t: nat)
    requires a.Propose? && e.command == a.command && t in Appended(h, v, u, e).termLog
    ensures LogFollows(h, a, t, Appended(h, v, u, e).termLog[t])
  {
    hide LogOk;
    var front := if u in h.termLog then h.termLog[u] else [];
    assert (front + [e])[..|front|] == front;
  }

  lemma OriginStep(c: Cluster, a: Action, actions: seq<Action>)
    requires Inv(c) && WellFormed(c) && Enabled(c, a) && NoPanic(c, a) && OriginInv(c.hist, actions)
    ensures OriginInv(Step(c, a).hist, actions + [a])
  {
    hide Inv, WellFormed, Enabled, NoPanic, Step, LogOk, Proposed, Commands;
    var h' := Step(c, a).hist;
    forall t | t in h'.termLog ensures Proposed(actions + [a], Commands(h'.termLog[t])) {
      StepFollows(c, a, t);
      LogFollowsProposed(c.hist, a, actions, t, h'.termLog[t]);
    }
  }

  lemma LogFollowsProposed(h: History, a: Action, actions: seq<Action>, t: nat, l: seq<LogEntry>)
    requires OriginInv(h, actions) && LogFollows(h, a, t, l)
    ensures Proposed(actions + [a], Commands(l))
  {
    hide LogOk, Proposed;
    if (t in h.termLog && l == h.termLog[t]) || LogOk(h, l) {
      if LogOk(h, l) {
        LogProposed(h, actions, l);
      }
      ProposedPart(actions, actions + [a], Commands(l), Commands(l));
    } else {
      var front := l[..|l| - 1];
      LogProposed(h, actions, []) by { EmptyOk(h); }
      assert Proposed(actions, Commands(front));
      ProposedOneMore(actions, Commands(front), a);
      assert Commands(l) == Commands(front) + [a.command];
    }
  }

  lemma EmptyOk(h: History)
    ensures LogOk(h, [])
  {
  }

  lemma InitialOrigin(c: Cluster)
    requires Initial(c)
    ensures OriginInv(c.hist, [])
  {
    assert Commands([]) == [] && ProposedAt([], [], []);
  }

  lemma {:induction false} RunOrigin(run: seq<Cluster>, actions: seq<Action>, p: nat)
    requires IsRun(run, actions) && p < |run|
    ensures OriginInv(run[p].hist, actions[..p])
  {
    hide Inv, WellFormed, Enabled, NoPanic, Step, Initial, OriginInv;
    if p == 0 {
      InitialOrigin(run[0]);
      assert actions[..0] == [];
    } else {
      RunOrigin(run, actions, p - 1);
      RunInv(run, actions, p - 1);
      assert Next(run[p - 1], actions[p - 1], run[p]);
      OriginStep(run[p - 1], actions[p - 1], actions[..p - 1]);
      assert actions[..p] == actions[..p - 1] + [actions[p - 1]];
    }
  }

  // ---------------------------------------------------------------- theorems

  /**
   What a service has absorbed was proposed before, in the same order: the log keeps the order
   in which its entries were proposed, whoever led when.
   */
  lemma DeliveredWereProposed(run: seq<Cluster>, actions: seq<Action>, p: nat, i: nat)
    requires IsRun(run, actions) && p < |run| && i < |run[p].services|
    ensures Proposed(actions[..p], run[p].services[i].applied)
  {
    hide *;
    RunLength(run, actions);
    var c := run[p];
    RunInv(run, actions, p);
    InvSize(c);
    InvParts(c, i);
    PeerElim(c.hist, i, c.nodes[i], c.services[i]);
    PeerLogOk(c, i);
    RunOrigin(run, actions, p);
    var f := Full(c.hist, c.nodes[i].log);
    LogProposed(c.hist, actions[..p], f);
    AppliedPart(c.hist, c.nodes[i], c.services[i]);
    ProposedPart(actions[..p], actions[..p], Commands(f), c.services[i].applied);
  }

  lemma RunLength(run: seq<Cluster>, actions: seq<Action>)
    requires IsRun(run, actions)
    ensures |run| == |actions| + 1
  {
  }

  lemma AppliedPart(h: History, s: Node, svc: Service)
    requires Based(h, s.log) && ProgressInv(h, s, svc)
    ensures svc.applied <= Commands(Full(h, s.log))
  {
  }

  lemma ProposalOf(actions: seq<Action>, commands: seq<Command>, p: nat, k: nat) returns (x: nat)
    requires p <= |actions| && Proposed(actions[..p], commands) && k < |commands|
    ensures x < p && actions[x].Propose? && actions[x].command == commands[k]
  {
    var at: seq<nat> :| ProposedAt(actions[..p], commands, at);
    x := at[k];
    assert actions[..p][x] == actions[x];
  }

  /** A command first proposed after a moment is delivered, if at all, beyond all that was delivered by then. */
  lemma NewComesAfter(run: seq<Cluster>, actions: seq<Action>, p: nat, i: nat, q: nat, j: nat, k: nat)
    requires IsRun(run, actions) && p < |run| && q < |run| && i < |run[p].services| && j < |run[q].services|
    requires k < |run[q].services[j].applied|
    requires forall x :: 0 <= x < p && actions[x].Propose? ==> actions[x].command != run[q].services[j].applied[k]
    ensures k >= |run[p].services[i].applied|
  {
    hide IsRun, Proposed;
    RunLength(run, actions);
    StateMachineSafety(run, actions, p, i, q, j);
    DeliveredWereProposed(run, actions, p, i);
    if k < |run[p].services[i].applied| {
      var x := ProposalOf(actions, run[p].services[i].applied, p, k);
    }
  }
}
