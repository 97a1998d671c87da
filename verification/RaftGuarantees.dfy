/**
 What the invariant says about votes, commit indices and disks over whole runs of
 labs/src/raft/raft.go, where the code departs from the textbook.
 */
module RaftGuarantees {
  import opened RaftNode
  import opened RaftHistory
  import opened RaftCluster
  import opened RaftInvariant
  import opened RaftElection
  import opened RaftVoting
  import opened RaftReplication
  import opened RaftAppend
  import opened RaftLeading
  import opened RaftSafety

  // ---------------------------------------------------------------- votes

  lemma BallotRefuses(h: History, v: nat, s: Node, d: nat, a: VoteArgs)
    requires BallotInv(h, v, s) && |s.log| > 0 && Grant(v, d, s.currentTerm) in h.granted
    requires a.term == s.currentTerm && a.candidateId != d && a.candidateId != v
    requires UpToDate(s.log, a.lastLogIndex, a.lastLogTerm)
    ensures RequestVote(s, a).1.voteGranted <==> d == v && (s.votedFor == NA || s.votedFor == a.candidateId)
    ensures RequestVote(s, a).1.voteGranted ==> s.currentTerm in h.leader
  {
  }

  /**
   When a peer votes twice in a term: one that has voted for d grants another up-to-date
   candidate of the same term exactly when d is the peer itself and it has since forgotten that
   vote, or already passed it on to this candidate; and then the term already has a leader.
   */
  lemma SecondVoteIff(run: seq<Cluster>, actions: seq<Action>, p: nat, v: nat, d: nat, a: VoteArgs)
    requires IsRun(run, actions) && p < |run| && v < |run[p].nodes| && |run[p].nodes[v].log| > 0
    requires var s := run[p].nodes[v];
      && Grant(v, d, s.currentTerm) in run[p].hist.granted
      && a.term == s.currentTerm && a.candidateId != d && a.candidateId != v
      && UpToDate(s.log, a.lastLogIndex, a.lastLogTerm)
    ensures var s := run[p].nodes[v];
      && (RequestVote(s, a).1.voteGranted <==> d == v && (s.votedFor == NA || s.votedFor == a.candidateId))
      && (RequestVote(s, a).1.voteGranted ==> s.currentTerm in run[p].hist.leader)
  {
    hide *;
    RunInv(run, actions, p);
    InvSize(run[p]);
    InvParts(run[p], v);
    PeerElim(run[p].hist, v, run[p].nodes[v], run[p].services[v]);
    BallotRefuses(run[p].hist, v, run[p].nodes[v], d, a);
  }

  lemma VotesApart(h: History, v: nat, c: nat, d: nat, t: nat)
    requires VotesInv(h) && FrozenInv(h) && c != d && Grant(v, c, t) in h.granted && Grant(v, d, t) in h.granted
    ensures (c == v || d == v) && t in h.leader && h.leader[t] != v
  {
  }

  /** Two votes of a peer in one term: one of them was for itself, the term has a leader, and it is another peer. */
  lemma TwoVotes(run: seq<Cluster>, actions: seq<Action>, p: nat, v: nat, c: nat, d: nat, t: nat)
    requires IsRun(run, actions) && p < |run| && c != d
    requires Grant(v, c, t) in run[p].hist.granted && Grant(v, d, t) in run[p].hist.granted
    ensures (c == v || d == v) && t in run[p].hist.leader && run[p].hist.leader[t] != v
  {
    hide *;
    RunInv(run, actions, p);
    InvHistory(run[p]);
    HistoryParts(run[p].hist);
    VotesApart(run[p].hist, v, c, d, t);
  }

  lemma InvHistory(c: Cluster)
    requires Inv(c)
    ensures HistoryInv(c.hist)
  {
  }

  lemma StepGrants(c: Cluster, a: Action)
    requires WellFormed(c) && Enabled(c, a) && NoPanic(c, a)
    ensures !a.Timeout? && !a.HandleVoteRequest? ==> Step(c, a).hist.granted == c.hist.granted
  {
    hide WellFormed, Based, Full, Window, AppendEntries, RequestVote, InstallSnapshot, ProcessAppendReply,
         ProcessInstallReply, TakeSnapshot, ApplySnapshot, ApplyCommand, BecomeCandidate, MakeAppendArgs, BecomeLeader,
         OnDisk, ProcessVoteReply, Restart, Start;
  }

  lemma StandGrants(c: Cluster, i: nat)
    requires Inv(c) && WellFormed(c) && Enabled(c, Timeout(i))
    ensures i < |c.hist.term| && Step(c, Timeout(i)).hist.granted == c.hist.granted + {Grant(i, i, c.hist.term[i] + 1)}
  {
    hide Inv, WellFormed, Based, Full, Step;
    TimeoutStep(c, i);
  }

  lemma VoteGrants(c: Cluster, m: Message)
    requires Inv(c) && WellFormed(c) && Enabled(c, HandleVoteRequest(m))
    ensures m.to != m.va.candidateId
    ensures Step(c, HandleVoteRequest(m)).hist.granted <= c.hist.granted + {Grant(m.to, m.va.candidateId, m.va.term)}
  {
    hide Inv, WellFormed, Based, RequestVote;
    InvMessage(c, m);
    WellFormedSize(c, m.to);
  }

  lemma GrantTerm(h: History, v: nat, d: nat, t: nat)
    requires GrantsInv(h) && Grant(v, d, t) in h.granted
    ensures v < |h.term| && t <= h.term[v]
  {
  }

  /** A peer votes for itself only on entering a term. */
  lemma StepSelfVote(c: Cluster, a: Action, v: nat, d: nat, t: nat)
    requires Inv(c) && WellFormed(c) && Enabled(c, a) && NoPanic(c, a)
    requires Grant(v, d, t) in c.hist.granted && Grant(v, v, t) in Step(c, a).hist.granted
    ensures Grant(v, v, t) in c.hist.granted
  {
    hide *;
    InvHistory(c);
    HistoryParts(c.hist);
    GrantTerm(c.hist, v, d, t);
    match a
    case Timeout(i) => StandGrants(c, i);
    case HandleVoteRequest(m) => VoteGrants(c, m);
    case _ => StepGrants(c, a);
  }

  /** The first of two votes was the one for itself. */
  lemma {:induction false} OwnVoteCameFirst(run: seq<Cluster>, actions: seq<Action>, p: nat, q: nat, v: nat, d: nat, t: nat)
    requires IsRun(run, actions) && p <= q < |run|
    requires Grant(v, d, t) in run[p].hist.granted && Grant(v, v, t) in run[q].hist.granted
    ensures Grant(v, v, t) in run[p].hist.granted
    decreases q
  {
    hide Inv, WellFormed, Enabled, NoPanic, Step, Initial;
    if p < q {
      RunInv(run, actions, q - 1);
      RunGrows(run, actions, p, q - 1);
      assert Next(run[q - 1], actions[q - 1], run[q]);
      StepSelfVote(run[q - 1], actions[q - 1], v, d, t);
      OwnVoteCameFirst(run, actions, p, q - 1, v, d, t);
    }
  }

  lemma FrozenMember(h: History, v: nat, s: Node, t: nat, a: VoteArgs)
    requires FrozenInv(h) && GrantsInv(h) && BallotInv(h, v, s) && |s.log| > 0 && t in h.leader
    requires v in Tally(h, h.leader[t], t) && s.currentTerm == t == a.term && a.candidateId != h.leader[t]
    ensures !RequestVote(s, a).1.voteGranted
  {
    assert Grant(v, h.leader[t], t) in h.granted;
  }

  /** Peer v is in term t when it gets the request. */
  ghost predicate Asked(c: Cluster, v: nat, t: nat, a: VoteArgs) {
    v < |c.nodes| && |c.nodes[v].log| > 0 && c.nodes[v].currentTerm == t == a.term
  }

  /**
   The winning quorum of a term is frozen: the votes that had been counted when the term had a
   leader are a majority, and none of those peers has voted, or ever votes, for another
   candidate of that term.
   */
  lemma WinningQuorumIsFrozen(run: seq<Cluster>, actions: seq<Action>, p: nat, q: nat, t: nat)
    requires IsRun(run, actions) && p <= q < |run| && t in run[p].hist.leader
    ensures var (l, quorum) := (run[p].hist.leader[t], Tally(run[p].hist, run[p].hist.leader[t], t));
      && |run[p].nodes| == |run[q].nodes| && IsQuorum(quorum, |run[p].nodes|)
      && (forall v, d :: v in quorum && Grant(v, d, t) in run[q].hist.granted ==> d == l)
      && (forall v, a: VoteArgs :: v in quorum && Asked(run[q], v, t, a) && a.candidateId != l ==>
            !RequestVote(run[q].nodes[v], a).1.voteGranted)
  {
    hide IsRun, Inv, HistoryInv, PeerInv, RequestVote, TermsInv, CandidatesInv, LeadersInv, CompleteInv, CoversInv, VotesInv,
         AcksInv, IsQuorum, Based, StorageInv, ProgressInv, BallotInv, CandidateInv, LeaderInv, Shape;
    RunInv(run, actions, p);
    RunInv(run, actions, q);
    RunGrows(run, actions, p, q);
    InvSize(run[p]);
    InvSize(run[q]);
    InvHistory(run[p]);
    InvHistory(run[q]);
    HistoryParts(run[p].hist);
    HistoryParts(run[q].hist);
    var h, h', l := run[p].hist, run[q].hist, run[p].hist.leader[t];
    forall v, a: VoteArgs | v in Tally(h, l, t) && Asked(run[q], v, t, a) && a.candidateId != l
      ensures !RequestVote(run[q].nodes[v], a).1.voteGranted
    {
      InvParts(run[q], v);
      PeerElim(h', v, run[q].nodes[v], run[q].services[v]);
      FrozenMember(h', v, run[q].nodes[v], t, a);
    }
  }

  // ---------------------------------------------------------------- the follower's commit index

  lemma SuccessMeans(s: Node, a: AppendArgs)
    requires Window(s.log) && Follows(a.entries, a.prevLogIndex) && AppendEntries(s, a).1.success
    ensures var s1 := AppendEntriesTerm(s, a);
      && s1.currentTerm == a.term && s1.role != Candidate && s1.log == s.log && s1.commitIndex == s.commitIndex
      && !PrevLogConflict(s1.log, a.prevLogIndex, a.prevLogTerm).0
      && FirstIndex(s1.log) <= a.prevLogIndex <= LastLog(s1.log).index
      && AppendEntries(s, a).0 == AcceptEntries(s1, a)
  {
    hide AcceptEntries;
  }

  lemma AcceptedCommit(s: Node, a: AppendArgs)
    requires Window(s.log) && Follows(a.entries, a.prevLogIndex) && FirstIndex(s.log) <= a.prevLogIndex <= LastLog(s.log).index
    requires |AcceptEntries(s, a).log| > 0 && Min(a.leaderCommit, LastLog(AcceptEntries(s, a).log).index) == a.leaderCommit
    ensures AcceptEntries(s, a).commitIndex == Max(s.commitIndex, a.leaderCommit)
  {
    hide MergeLog, FirstConflict;
  }

  lemma SuccessReaches(c: Cluster, m: Message)
    requires Inv(c) && m in c.net && m.AppendRequest? && m.to < |c.nodes|
    requires Window(c.nodes[m.to].log) && Follows(m.aa.entries, m.aa.prevLogIndex)
    requires AppendEntries(c.nodes[m.to], m.aa).1.success
    ensures var s := AppendEntries(c.nodes[m.to], m.aa).0;
      && |s.log| > 0 && Min(m.aa.leaderCommit, LastLog(s.log).index) == m.aa.leaderCommit
      && s.commitIndex == Max(c.nodes[m.to].commitIndex, m.aa.leaderCommit)
  {
    hide *;
    var v, a := m.to, m.aa;
    InvSize(c);
    SuccessMeans(c.nodes[v], a);
    LeaderOfRequest(c, m);
    AppendTermInv(c, v, a);
    var s := AppendEntriesTerm(c.nodes[v], a);
    var c1 := Move(c, v, s, c.hist, {}, {});
    MoveFacts(c, v, s, c.hist, {}, {});
    assert m in c1.net by { assert c.net - {} + {} == c.net; }
    InvParts(c1, v);
    RequestParts(c1, m);
    PeerElim(c1.hist, v, s, c1.services[v]);
    NotTheLeader(c1.hist, v, s, a);
    FitsIntro(c1.hist, s, a);
    AcceptPeer(c1.hist, v, s, c1.services[v], a);
    BasedWindow(c1.hist, AcceptEntries(s, a).log);
    CommitIsUnclamped(c1.hist, AcceptEntries(s, a), a);
    AcceptedCommit(s, a);
  }

  /**
   The follower's clamp of the commit index to its own last index never bites: whenever a request
   that is on its way succeeds, the follower's log reaches the leader's commit index, and its own
   becomes the greater of the two.
   */
  lemma ClampNeverBites(run: seq<Cluster>, actions: seq<Action>, p: nat, m: Message)
    requires IsRun(run, actions) && p < |run| && m in run[p].net && m.AppendRequest? && m.to < |run[p].nodes|
    ensures Window(run[p].nodes[m.to].log) && Follows(m.aa.entries, m.aa.prevLogIndex)
    ensures AppendEntries(run[p].nodes[m.to], m.aa).1.success ==>
      var s := AppendEntries(run[p].nodes[m.to], m.aa).0;
      && |s.log| > 0 && Min(m.aa.leaderCommit, LastLog(s.log).index) == m.aa.leaderCommit
      && s.commitIndex == Max(run[p].nodes[m.to].commitIndex, m.aa.leaderCommit)
  {
    hide *;
    RunInv(run, actions, p);
    InvSize(run[p]);
    InvParts(run[p], m.to);
    PeerElim(run[p].hist, m.to, run[p].nodes[m.to], run[p].services[m.to]);
    BasedWindow(run[p].hist, run[p].nodes[m.to].log);
    RequestParts(run[p], m);
    if AppendEntries(run[p].nodes[m.to], m.aa).1.success {
      SuccessReaches(run[p], m);
    }
  }

  // ---------------------------------------------------------------- what is on disk

  /** Everything a peer has on disk: the saved snapshot, then the commands of the saved log. */
  ghost function Durable(s: Node): seq<Command>
    requires |s.disk.log| > 0
  {
    s.disk.data + Commands(s.disk.log[1..])
  }

  lemma DurableIsFull(h: History, i: nat, s: Node)
    requires StorageInv(h, i, s)
    ensures |s.disk.log| > 0 && Based(h, s.disk.log) && Durable(s) == Commands(Full(h, s.disk.log))
  {
    hide Based, Full, Commands, Committed, LogOk, Holds, Bounded;
    StorageBased(h, i, s);
    WindowTail(h, s.disk.log);
    CommandsSplit(Full(h, s.disk.log), FirstIndex(s.disk.log));
  }

  lemma AckerHolds(h: History, v: nat, s: Node, t: nat, k: nat)
    requires StorageInv(h, v, s) && Chosen(h, t, k) && v in Ackers(h, t, k)
    ensures Based(h, s.disk.log) && h.termLog[t][..k] <= Full(h, s.disk.log)
  {
    hide LogInv;
    StorageBased(h, v, s);
    ChosenIsChoosable(h, t, k);
  }

  ghost predicate OnDisks(nodes: seq<Node>, p: seq<Command>, quorum: set<nat>) {
    forall v :: v in quorum ==> v < |nodes| && |nodes[v].disk.log| > 0 && p <= Durable(nodes[v])
  }

  lemma CommandsMonotone(f: seq<LogEntry>, g: seq<LogEntry>)
    requires f <= g
    ensures Commands(f) <= Commands(g)
  {
  }

  lemma DiskSize(c: Cluster, v: nat)
    requires Inv(c) && v < |c.nodes|
    ensures |c.nodes[v].disk.log| > 0 && StorageInv(c.hist, v, c.nodes[v])
  {
    hide *;
    InvSize(c);
    InvParts(c, v);
    PeerElim(c.hist, v, c.nodes[v], c.services[v]);
    DurableIsFull(c.hist, v, c.nodes[v]);
  }

  lemma ChosenOnDisks(c: Cluster, f: seq<LogEntry>, u: nat, k: nat)
    requires Inv(c) && Chosen(c.hist, u, k) && f <= c.hist.termLog[u][..k]
    ensures OnDisks(c.nodes, Commands(f), Ackers(c.hist, u, k)) && IsQuorum(Ackers(c.hist, u, k), |c.nodes|)
  {
    hide Inv, StorageInv, Based, Full, Durable, Commands, Own;
    InvSize(c);
    forall v | v in Ackers(c.hist, u, k)
      ensures v < |c.nodes| && |c.nodes[v].disk.log| > 0 && Commands(f) <= Durable(c.nodes[v])
    {
      DiskSize(c, v);
      DurableIsFull(c.hist, v, c.nodes[v]);
      AckerHolds(c.hist, v, c.nodes[v], u, k);
      CommandsMonotone(f, Full(c.hist, c.nodes[v].disk.log));
    }
  }

  lemma CommittedOnDisks(c: Cluster, t: nat, f: seq<LogEntry>)
    requires Inv(c) && Committed(c.hist, t, f)
    ensures exists quorum :: IsQuorum(quorum, |c.nodes|) && OnDisks(c.nodes, Commands(f), quorum)
  {
    hide Inv, Durable;
    InvSize(c);
    InvOdd(c);
    if f == [] {
      forall v | v in Peers(|c.nodes|) ensures v < |c.nodes| && |c.nodes[v].disk.log| > 0 && Commands(f) <= Durable(c.nodes[v]) {
        DiskSize(c, v);
      }
      assert OnDisks(c.nodes, Commands(f), Peers(|c.nodes|));
    } else {
      var u: nat, k: nat :| u <= t && Chosen(c.hist, u, k) && f <= c.hist.termLog[u][..k];
      ChosenOnDisks(c, f, u, k);
    }
  }

  /**
   What any peer holds committed is on the disks of a majority, although an installed snapshot is
   acknowledged without being saved.
   */
  lemma CommittedIsDurable(run: seq<Cluster>, actions: seq<Action>, p: nat, i: nat)
    requires IsRun(run, actions) && p < |run| && i < |run[p].nodes|
    ensures |run[p].nodes[i].log| > 0 && run[p].nodes[i].commitIndex <= |Content(run[p].nodes[i])|
    ensures exists quorum ::
              && IsQuorum(quorum, |run[p].nodes|)
              && OnDisks(run[p].nodes, Content(run[p].nodes[i])[..run[p].nodes[i].commitIndex], quorum)
  {
    hide *;
    var c, s := run[p], run[p].nodes[i];
    RunInv(run, actions, p);
    InvSize(c);
    InvParts(c, i);
    PeerElim(c.hist, i, s, c.services[i]);
    ContentIsFull(c.hist, i, s);
    CommittedPart(c.hist, s, c.services[i]);
    CommandsCut(Full(c.hist, s.log), s.commitIndex);
    CommittedOnDisks(c, s.currentTerm, Full(c.hist, s.log)[..s.commitIndex]);
  }
}
