/**
 A run in which a leader's proposal is lost to another leader's, and the deposed leader delivers
 the other command at the index that it had given out for its own.
 */
module RaftOverwrite {
  import opened RaftNode
  import opened RaftHistory
  import opened RaftCluster
  import opened RaftVoting
  import opened RaftSafety
  import opened Sorting

  // ---------------------------------------------------------------- what steps do to peers and network

  ghost predicate Moved(c: Cluster, c': Cluster, i: nat, s: Node) {
    i < |c.nodes| && c'.nodes == c.nodes[i := s] && c'.services == c.services && |c.services| == |c.nodes|
  }

  lemma Votes(c: Cluster, a: Action)
    requires WellFormed(c) && Enabled(c, a) && NoPanic(c, a)
    ensures var c' := Step(c, a);
      match a
      case Timeout(i) =>
        && |c.nodes[i].log| > 0 && Moved(c, c', i, BecomeCandidate(c.nodes[i]))
        && forall j: nat :: j < |c.nodes| && j != c.nodes[i].me ==> VoteRequest(j, RequestArgs(BecomeCandidate(c.nodes[i]))) in c'.net
      case HandleVoteRequest(m) =>
        && |c.nodes[m.to].log| > 0 && Moved(c, c', m.to, RequestVote(c.nodes[m.to], m.va).0)
        && VoteResponse(m.to, m.va, RequestVote(c.nodes[m.to], m.va).1) in c'.net
      case HandleVoteResponse(m) =>
        |c.nodes[m.va.candidateId].log| > 0 && Moved(c, c', m.va.candidateId, ProcessVoteReply(c.nodes[m.va.candidateId], m.va, m.vr))
      case Propose(i, command) => |c.nodes[i].log| > 0 && Moved(c, c', i, Start(c.nodes[i], command))
      case _ => true
  {
    hide WellFormed, Based, Full, Window, RequestVote, ProcessVoteReply, Start;
    match a
    case Timeout(i) =>
      WellFormedSize(c, i);
      var s := BecomeCandidate(c.nodes[i]);
      forall j: nat | j < |c.nodes| && j != s.me ensures VoteRequest(j, RequestArgs(s)) in Step(c, a).net {
        assert j in Peers(|c.nodes|);
      }
    case HandleVoteRequest(m) => WellFormedSize(c, m.to);
    case HandleVoteResponse(m) => WellFormedSize(c, m.va.candidateId);
    case Propose(i, command) => WellFormedSize(c, i);
    case _ =>
  }

  lemma Appends(c: Cluster, a: Action)
    requires WellFormed(c) && Enabled(c, a) && NoPanic(c, a)
    ensures var c' := Step(c, a);
      match a
      case Send(i, j) =>
        && Window(c.nodes[i].log) && j < |c.nodes[i].nextIndex| && Moved(c, c', i, c.nodes[i])
        && (FirstIndex(c.nodes[i].log) < c.nodes[i].nextIndex[j] <= LastLog(c.nodes[i].log).index + 1 ==>
              AppendRequest(j, MakeAppendArgs(c.nodes[i], j)) in c'.net)
      case HandleAppendRequest(m) =>
        && Window(c.nodes[m.to].log) && Moved(c, c', m.to, AppendEntries(c.nodes[m.to], m.aa).0)
        && AppendResponse(m.to, m.aa, AppendEntries(c.nodes[m.to], m.aa).1) in c'.net
      case HandleAppendResponse(m) =>
        Moved(c, c', m.aa.leaderId, ProcessAppendReply(c.nodes[m.aa.leaderId], m.from, m.aa, m.ar))
      case _ => true
  {
    hide Based, Full, Window, AppendEntries, ProcessAppendReply, AppendReplyOk, MakeAppendArgs, OnDisk, Follows;
    match a
    case Send(i, j) => WellFormedWindow(c, i);
    case HandleAppendRequest(m) => WellFormedWindow(c, m.to);
    case HandleAppendResponse(m) => WellFormedWindow(c, m.aa.leaderId);
    case _ =>
  }

  lemma WellFormedWindow(c: Cluster, i: nat)
    requires WellFormed(c) && i < |c.nodes|
    ensures |c.nodes| == |c.services| == |c.hist.term| && Window(c.nodes[i].log)
    ensures |c.nodes[i].nextIndex| == |c.nodes|
  {
  }

  lemma Delivers(c: Cluster, i: nat)
    requires WellFormed(c) && Enabled(c, ApplyCommandTurn(i)) && NoPanic(c, ApplyCommandTurn(i))
    ensures var c' := Step(c, ApplyCommandTurn(i));
      && Window(c.nodes[i].log) && |c'.services| == |c.services| && c'.nodes == c.nodes[i := ApplyCommand(c.nodes[i]).0]
      && (ApplyCommand(c.nodes[i]).1.DeliverCommand? ==>
            c'.services[i].applied == c.services[i].applied + [ApplyCommand(c.nodes[i]).1.command])
  {
    hide Based, Full, ApplyCommand;
    WellFormedWindow(c, i);
  }

  // ---------------------------------------------------------------- the peers

  function Sentinel(): LogEntry {
    LogEntry(Nil, 0, 0)
  }

  function Candidate0(): Node {
    BecomeCandidate(Boot(0, 3))
  }

  const Ask0 := VoteArgs(1, 0, 0, 0)
  const Ask1 := VoteArgs(2, 1, 0, 0)

  function Voter1(): Node {
    RequestVote(Boot(1, 3), Ask0).0
  }

  function Leader0(): Node {
    ProcessVoteReply(Candidate0(), Ask0, VoteReply(1, true))
  }

  function Proposed0(x: Command): Node {
    Start(Leader0(), x)
  }

  function Candidate1(): Node {
    BecomeCandidate(Voter1())
  }

  function Voter2(): Node {
    RequestVote(Boot(2, 3), Ask1).0
  }

  function Leader1(): Node {
    ProcessVoteReply(Candidate1(), Ask1, VoteReply(2, true))
  }

  function Proposed1(y: Command): Node {
    Start(Leader1(), y)
  }

  /** The request that the second leader sends, before and after it has committed. */
  function Append1(y: Command, commit: nat): AppendArgs {
    AppendArgs(2, 1, 0, 0, [LogEntry(y, 1, 2)], commit)
  }

  lemma FirstElection()
    ensures Boot(0, 3).role == Follower && Boot(0, 3).me == 0
    ensures RequestArgs(Candidate0()) == Ask0 && RequestVote(Boot(1, 3), Ask0).1 == VoteReply(1, true)
    ensures Candidate0().me == 0 && Leader0().role == Leader && Leader0().log == [Sentinel()] && Leader0().currentTerm == 1
    ensures Voter1().role == Follower && Voter1().log == [Sentinel()]
    ensures Leader0().commitIndex == 0 && Leader0().lastApplied == 0
  {
  }

  lemma SecondElection()
    ensures Voter1().role == Follower && Voter1().me == 1
    ensures |Candidate1().log| > 0 && RequestArgs(Candidate1()) == Ask1 && RequestVote(Boot(2, 3), Ask1).1 == VoteReply(2, true)
    ensures Candidate1().me == 1 && Leader1().role == Leader && Leader1().log == [Sentinel()] && Leader1().currentTerm == 2
    ensures Leader1().me == 1 && Leader1().commitIndex == 0
    ensures Voter2().currentTerm == 2 && Voter2().role == Follower && Voter2().log == [Sentinel()] && Voter2().commitIndex == 0
    ensures Leader1().nextIndex == [1, 1, 1] && Leader1().matchIndex == [0, 0, 0]
  {
  }

  /** A peer with an empty log takes the second leader's entry. */
  lemma TakesEntry(s: Node, y: Command, commit: nat)
    requires s.currentTerm == 2 && s.role == Follower && s.log == [Sentinel()] && s.commitIndex == 0 && commit <= 1
    ensures Window(s.log) && Follows(Append1(y, commit).entries, 0)
    ensures var (s', r) := AppendEntries(s, Append1(y, commit));
      r == AppendReply(2, true, 0, 0) && s'.log == [Sentinel(), LogEntry(y, 1, 2)] && s'.commitIndex == commit
  {
  }

  /** A deposed leader gives its own entry up for it. */
  lemma GivesUpEntry(s: Node, x: Command, y: Command)
    requires s.currentTerm == 1 && s.log == [Sentinel(), LogEntry(x, 1, 1)] && s.commitIndex == 0
    ensures Window(s.log) && Follows(Append1(y, 1).entries, 0)
    ensures var s' := AppendEntries(s, Append1(y, 1)).0;
      s'.log == [Sentinel(), LogEntry(y, 1, 2)] && s'.commitIndex == 1 && s'.lastApplied == s.lastApplied
  {
    var s1 := AppendEntriesTerm(s, Append1(y, 1));
    assert s1.log == s.log && s1.commitIndex == 0;
    assert FirstConflict(s.log, 0, Append1(y, 1).entries, 0) == 0;
    assert MergeLog(s.log, 0, Append1(y, 1).entries) == [Sentinel(), LogEntry(y, 1, 2)];
  }

  lemma SendsEntry(s: Node, y: Command, j: nat)
    requires s.log == [Sentinel(), LogEntry(y, 1, 2)] && s.currentTerm == 2 && s.me == 1 && j < |s.nextIndex| && s.nextIndex[j] == 1
    ensures Window(s.log) && FirstIndex(s.log) < s.nextIndex[j] <= LastLog(s.log).index + 1
    ensures MakeAppendArgs(s, j) == Append1(y, s.commitIndex)
  {
  }

  /** One acknowledgement commits it. */
  lemma CommitsEntry(s: Node, y: Command)
    requires s.log == [Sentinel(), LogEntry(y, 1, 2)] && s.currentTerm == 2 && s.role == Leader && s.commitIndex == 0
    requires s.nextIndex == [1, 1, 1] && s.matchIndex == [0, 0, 0] && AppendReplyOk(s, 2, Append1(y, 0), AppendReply(2, true, 0, 0))
    ensures var s' := ProcessAppendReply(s, 2, Append1(y, 0), AppendReply(2, true, 0, 0));
      s' == s.(commitIndex := 1, matchIndex := [0, 0, 1], nextIndex := [1, 1, 2])
  {
    var s1 := UpdateMatchAndNext(s, 2, 1);
    assert s1.matchIndex == [0, 0, 1] && s1.nextIndex == [1, 1, 2];
    SortSmall();
    assert CommitCandidate(s1) == 1;
  }

  lemma SortSmall()
    ensures SortInts([0, 0, 1]) == [0, 0, 1]
  {
    var s: seq<nat> := [0, 0, 1];
    assert s[1..] == [0, 1] && s[1..][1..] == [1] && s[1..][1..][1..] == [];
  }

  // ---------------------------------------------------------------- the run

  /** Where a run stands: its three peers, whose services have absorbed nothing yet. */
  ghost predicate Stands(run: seq<Cluster>, actions: seq<Action>, peers: seq<Node>) {
    && IsRun(run, actions) && |run| == |actions| + 1 && |peers| == 3
    && var c := run[|actions|];
    && c.nodes == peers && c.services == [Service([], true), Service([], true), Service([], true)]
  }

  /** Any enabled action goes on. */
  lemma Goes(run: seq<Cluster>, actions: seq<Action>, a: Action) returns (run': seq<Cluster>, actions': seq<Action>)
    requires IsRun(run, actions) && |run| == |actions| + 1 && Enabled(run[|actions|], a)
    ensures var c := run[|actions|];
      && WellFormed(c) && NoPanic(c, a)
      && run' == run + [Step(c, a)] && actions' == actions + [a] && IsRun(run', actions') && run'[|actions'|] == Step(c, a)
  {
    hide IsRun, Enabled, WellFormed, NoPanic, Step;
    RunsNeverPanic(run, actions, a);
    run', actions' := run + [Step(run[|actions|], a)], actions + [a];
  }

  lemma Starts(c: Cluster)
    requires Initial(c) && |c.nodes| == 3
    ensures Stands([c], [], [Boot(0, 3), Boot(1, 3), Boot(2, 3)])
  {
    hide Boot;
    assert c.nodes == [c.nodes[0], c.nodes[1], c.nodes[2]];
    assert c.services == [c.services[0], c.services[1], c.services[2]];
  }

  /** Peer 0 wins term 1 with the vote of peer 1 and proposes. */
  lemma FirstLeader(c: Cluster, x: Command) returns (run: seq<Cluster>, actions: seq<Action>)
    requires Initial(c) && |c.nodes| == 3
    ensures Stands(run, actions, [Proposed0(x), Voter1(), Boot(2, 3)]) && run[0] == c
    ensures |actions| == 4 && actions[3] == Propose(0, x) && |run[3].nodes| == 3 && run[3].nodes[0] == Leader0()
    ensures forall k :: 0 <= k < 4 ==> !actions[k].Crash?
  {
    hide IsRun, WellFormed, NoPanic, Step, Boot, BecomeCandidate, RequestVote, ProcessVoteReply, Start;
    Starts(c);
    FirstElection();
    run, actions := [c], [];
    run, actions := Goes(run, actions, Timeout(0));
    Votes(run[0], Timeout(0));
    var m1 := VoteRequest(1, Ask0);
    assert run[1].nodes == [Candidate0(), Boot(1, 3), Boot(2, 3)] && m1 in run[1].net;
    run, actions := Goes(run, actions, HandleVoteRequest(m1));
    Votes(run[1], HandleVoteRequest(m1));
    var m2 := VoteResponse(1, Ask0, VoteReply(1, true));
    assert run[2].nodes == [Candidate0(), Voter1(), Boot(2, 3)] && m2 in run[2].net;
    run, actions := Goes(run, actions, HandleVoteResponse(m2));
    Votes(run[2], HandleVoteResponse(m2));
    assert run[3].nodes == [Leader0(), Voter1(), Boot(2, 3)];
    run, actions := Goes(run, actions, Propose(0, x));
    Votes(run[3], Propose(0, x));
    assert run[4].nodes == [Proposed0(x), Voter1(), Boot(2, 3)];
  }

  /** Peer 1 wins term 2 with the vote of peer 2 and proposes. */
  lemma SecondLeader(run: seq<Cluster>, actions: seq<Action>, x: Command, y: Command) returns (run': seq<Cluster>, actions': seq<Action>)
    requires Stands(run, actions, [Proposed0(x), Voter1(), Boot(2, 3)]) && |actions| == 4
    requires forall k :: 0 <= k < 4 ==> !actions[k].Crash?
    ensures Stands(run', actions', [Proposed0(x), Proposed1(y), Voter2()]) && |actions'| == 8
    ensures run <= run' && actions <= actions' && forall k :: 0 <= k < 8 ==> !actions'[k].Crash?
  {
    hide IsRun, WellFormed, NoPanic, Step, Boot, BecomeCandidate, RequestVote, ProcessVoteReply, Start;
    SecondElection();
    run', actions' := Goes(run, actions, Timeout(1));
    Votes(run'[4], Timeout(1));
    var m1 := VoteRequest(2, Ask1);
    assert run'[5].nodes == [Proposed0(x), Candidate1(), Boot(2, 3)] && m1 in run'[5].net;
    run', actions' := Goes(run', actions', HandleVoteRequest(m1));
    Votes(run'[5], HandleVoteRequest(m1));
    var m2 := VoteResponse(2, Ask1, VoteReply(2, true));
    assert run'[6].nodes == [Proposed0(x), Candidate1(), Voter2()] && m2 in run'[6].net;
    run', actions' := Goes(run', actions', HandleVoteResponse(m2));
    Votes(run'[6], HandleVoteResponse(m2));
    assert run'[7].nodes == [Proposed0(x), Leader1(), Voter2()];
    run', actions' := Goes(run', actions', Propose(1, y));
    Votes(run'[7], Propose(1, y));
    assert run'[8].nodes == [Proposed0(x), Proposed1(y), Voter2()];
  }

  lemma ProposedNodes(x: Command, y: Command)
    ensures var s := Proposed0(x);
      s.currentTerm == 1 && s.log == [Sentinel(), LogEntry(x, 1, 1)] && s.commitIndex == 0 && s.lastApplied == 0
    ensures var s := Proposed1(y);
      && s.log == [Sentinel(), LogEntry(y, 1, 2)] && s.currentTerm == 2 && s.role == Leader && s.commitIndex == 0 && s.me == 1
      && s.nextIndex == [1, 1, 1] && s.matchIndex == [0, 0, 0]
  {
    hide Leader0, Leader1, Candidate0, Candidate1, Voter1, Voter2, Boot, RequestVote;
    FirstElection();
    SecondElection();
  }

  /** Peer 2 takes the entry. */
  lemma Replicates(run: seq<Cluster>, actions: seq<Action>, x: Command, y: Command) returns (run': seq<Cluster>, actions': seq<Action>, n2: Node)
    requires Stands(run, actions, [Proposed0(x), Proposed1(y), Voter2()]) && |actions| == 8
    requires forall k :: 0 <= k < 8 ==> !actions[k].Crash?
    ensures Stands(run', actions', [Proposed0(x), Proposed1(y), n2]) && |actions'| == 10
    ensures n2.log == [Sentinel(), LogEntry(y, 1, 2)]
    ensures AppendResponse(2, Append1(y, 0), AppendReply(2, true, 0, 0)) in run'[10].net
    ensures run <= run' && actions <= actions' && forall k :: 0 <= k < 10 ==> !actions'[k].Crash?
  {
    hide IsRun, WellFormed, NoPanic, Step, Boot, Proposed0, Proposed1, Voter2, AppendEntries, MakeAppendArgs, ProcessAppendReply,
         AppendReplyOk, Window, Follows;
    ProposedNodes(x, y);
    SecondElection();
    var (n0, n1) := (Proposed0(x), Proposed1(y));
    SendsEntry(n1, y, 2);
    run', actions' := Goes(run, actions, Send(1, 2));
    Appends(run'[8], Send(1, 2));
    var m1 := AppendRequest(2, Append1(y, 0));
    assert run'[9].nodes == [n0, n1, Voter2()] && m1 in run'[9].net;
    TakesEntry(Voter2(), y, 0);
    run', actions' := Goes(run', actions', HandleAppendRequest(m1));
    Appends(run'[9], HandleAppendRequest(m1));
    n2 := AppendEntries(Voter2(), Append1(y, 0)).0;
    assert run'[10].nodes == [n0, n1, n2];
  }

  /** Its answer commits the entry. */
  lemma Commits(run: seq<Cluster>, actions: seq<Action>, x: Command, y: Command, n2: Node) returns (run': seq<Cluster>, actions': seq<Action>, n1: Node)
    requires Stands(run, actions, [Proposed0(x), Proposed1(y), n2]) && |actions| == 10
    requires AppendResponse(2, Append1(y, 0), AppendReply(2, true, 0, 0)) in run[10].net
    requires forall k :: 0 <= k < 10 ==> !actions[k].Crash?
    ensures Stands(run', actions', [Proposed0(x), n1, n2]) && |actions'| == 11
    ensures n1 == Proposed1(y).(commitIndex := 1, matchIndex := [0, 0, 1], nextIndex := [1, 1, 2])
    ensures run <= run' && actions <= actions' && forall k :: 0 <= k < 11 ==> !actions'[k].Crash?
  {
    hide IsRun, WellFormed, NoPanic, Step, Boot, Proposed0, Proposed1, Voter2, AppendEntries, MakeAppendArgs, ProcessAppendReply,
         AppendReplyOk, Window, Follows;
    ProposedNodes(x, y);
    var m := AppendResponse(2, Append1(y, 0), AppendReply(2, true, 0, 0));
    run', actions' := Goes(run, actions, HandleAppendResponse(m));
    AnswerFits(run[10], m);
    Appends(run[10], HandleAppendResponse(m));
    CommitsEntry(Proposed1(y), y);
    n1 := ProcessAppendReply(Proposed1(y), 2, Append1(y, 0), AppendReply(2, true, 0, 0));
    assert run'[11].nodes == [Proposed0(x), n1, n2];
  }

  /** Peer 0 gives up its own. */
  lemma Overwrites(run: seq<Cluster>, actions: seq<Action>, x: Command, y: Command, n1: Node, n2: Node) returns (run': seq<Cluster>, actions': seq<Action>, n0: Node)
    requires Stands(run, actions, [Proposed0(x), n1, n2]) && |actions| == 11
    requires n1 == Proposed1(y).(commitIndex := 1, matchIndex := [0, 0, 1], nextIndex := [1, 1, 2])
    requires forall k :: 0 <= k < 11 ==> !actions[k].Crash?
    ensures Stands(run', actions', [n0, n1, n2]) && |actions'| == 13
    ensures n0.log == n1.log == [Sentinel(), LogEntry(y, 1, 2)] && n0.commitIndex == 1 && n0.lastApplied == 0
    ensures run <= run' && actions <= actions' && forall k :: 0 <= k < 13 ==> !actions'[k].Crash?
  {
    hide IsRun, WellFormed, NoPanic, Step, Boot, Proposed0, Proposed1, Voter2, AppendEntries, MakeAppendArgs, ProcessAppendReply,
         AppendReplyOk, Window, Follows;
    ProposedNodes(x, y);
    SendsEntry(n1, y, 0);
    run', actions' := Goes(run, actions, Send(1, 0));
    Appends(run[11], Send(1, 0));
    var m := AppendRequest(0, Append1(y, 1));
    assert run'[12].nodes == [Proposed0(x), n1, n2] && m in run'[12].net;
    GivesUpEntry(Proposed0(x), x, y);
    run', actions' := Goes(run', actions', HandleAppendRequest(m));
    Appends(run'[12], HandleAppendRequest(m));
    n0 := AppendEntries(Proposed0(x), Append1(y, 1)).0;
    assert run'[13].nodes == [n0, n1, n2];
  }

  lemma AnswerFits(c: Cluster, m: Message)
    requires WellFormed(c) && Enabled(c, HandleAppendResponse(m)) && NoPanic(c, HandleAppendResponse(m))
    ensures AppendReplyOk(c.nodes[m.aa.leaderId], m.from, m.aa, m.ar)
  {
  }

  /**
   Peer 0 proposes x as its first command and is given index 1.  Without crashing it later delivers
   y at index 1; by then no peer's log holds x.
   */
  lemma OverwrittenProposal(c: Cluster, x: Command, y: Command) returns (run: seq<Cluster>, actions: seq<Action>)
    requires Initial(c) && |c.nodes| == 3
    ensures IsRun(run, actions) && |run| == |actions| + 1 && run[0] == c
    ensures |actions| == 14 && actions[3] == Propose(0, x) && actions[13] == ApplyCommandTurn(0)
    ensures forall k :: 0 <= k < 14 ==> !actions[k].Crash?
    ensures |run[3].nodes| == 3 && run[3].nodes[0].log == [Sentinel()]
    ensures |run[13].services| == 3 && run[13].services[0].applied == []
    ensures |run[14].services| == 3 && run[14].services[0].applied == [y]
    ensures |run[14].nodes| == 3 && forall i :: 0 <= i < 3 ==> run[14].nodes[i].log == [Sentinel(), LogEntry(y, 1, 2)]
  {
    hide IsRun, WellFormed, NoPanic, Step, Leader0, Proposed0, Proposed1, Voter1, Voter2, Boot, Initial;
    FirstElection();
    var n0, n1, n2;
    run, actions := FirstLeader(c, x);
    run, actions := SecondLeader(run, actions, x, y);
    run, actions, n2 := Replicates(run, actions, x, y);
    run, actions, n1 := Commits(run, actions, x, y, n2);
    run, actions, n0 := Overwrites(run, actions, x, y, n1, n2);
    assert n0.log[0].index == 0 && n0.log[1].index == 1;
    run, actions := Goes(run, actions, ApplyCommandTurn(0));
    Delivers(run[13], 0);
    assert ApplyCommand(n0).1 == DeliverCommand(1, y);
    assert [] + [y] == [y];
  }
}
