/** The inductive invariant of the cluster, split into what the history, each peer and each message satisfy. */
module RaftInvariant {
  import opened RaftNode
  import opened RaftHistory
  import opened RaftCluster

  // ---------------------------------------------------------------- one peer

  predicate Shape(n: nat, i: nat, s: Node) {
    && s.me == i && |s.nextIndex| == |s.matchIndex| == n
    && Window(s.log) && Window(s.disk.log)
    && s.snapshot.lastIncludedIndex == s.log[0].index && s.snapshot.lastIncludedTerm == s.log[0].term
    && s.disk.currentTerm == s.currentTerm && s.disk.votedFor == s.votedFor
  }

  /** A log, in memory or on disk, of a peer in term t. */
  ghost predicate LogInv(h: History, t: nat, log: seq<LogEntry>, data: seq<Command>) {
    && Based(h, log)
    && LogOk(h, Full(h, log))
    && Bounded(Full(h, log), t)
    && Committed(h, t, Full(h, log)[..FirstIndex(log)])
    && data == Commands(Full(h, log)[..FirstIndex(log)])
  }

  /** Whatever peer i acknowledged and may still be chosen is in f. */
  ghost predicate Holds(h: History, i: nat, f: seq<LogEntry>) {
    forall t: nat, k: nat :: Own(h, t, k) && Acked(h, i, t) >= k && Choosable(h, t, k) ==> h.termLog[t][..k] <= f
  }

  ghost predicate StorageInv(h: History, i: nat, s: Node) {
    && LogInv(h, s.currentTerm, s.log, s.snapshot.data)
    && LogInv(h, s.currentTerm, s.disk.log, s.disk.data)
    && Holds(h, i, Full(h, s.log)) && Holds(h, i, Full(h, s.disk.log))
    && (|s.log| == 1 || Full(h, s.disk.log) == Full(h, s.log))
  }

  ghost predicate ProgressInv(h: History, s: Node, svc: Service)
    requires Based(h, s.log)
  {
    var f := Full(h, s.log);
    && s.lastApplied <= s.commitIndex <= |f|
    && Committed(h, s.currentTerm, f[..s.commitIndex])
    && |svc.applied| <= s.lastApplied && svc.applied == Commands(f[..|svc.applied|])
    && (svc.running ==> |svc.applied| == s.lastApplied)
  }

  ghost predicate BallotInv(h: History, i: nat, s: Node) {
    && (forall c :: c != i && Grant(i, c, s.currentTerm) in h.granted ==> s.votedFor == c)
    && (s.role != Follower ==> s.votedFor == i)
    && (Grant(i, i, s.currentTerm) in h.granted && s.votedFor != i ==> s.currentTerm in h.leader)
    && (s.currentTerm in h.leader && h.leader[s.currentTerm] == i ==> s.votedFor == i && s.role != Candidate)
  }

  ghost predicate CandidateInv(h: History, i: nat, s: Node)
    requires Based(h, s.log)
  {
    s.role == Candidate ==>
      && Grant(i, i, s.currentTerm) in h.counted
      && s.votes == |Tally(h, i, s.currentTerm)|
      && (i, s.currentTerm) in h.candLog
      && (s.currentTerm !in h.leader ==> Full(h, s.log) == h.candLog[(i, s.currentTerm)])
  }

  /** Peer v follows leader t up to k, or that much is committed anyway. */
  ghost predicate Matched(h: History, v: nat, t: nat, k: nat) {
    && t in h.termLog && k <= |h.termLog[t]|
    && (k <= Acked(h, v, t) || Committed(h, t, h.termLog[t][..k]))
  }

  ghost predicate LeaderInv(h: History, i: nat, s: Node)
    requires Based(h, s.log)
  {
    s.role == Leader ==>
      && s.currentTerm in h.leader && h.leader[s.currentTerm] == i && s.currentTerm in h.openBase
      && s.currentTerm in h.termLog && h.termLog[s.currentTerm] == Full(h, s.log)
      && i < |s.matchIndex| == |s.nextIndex| && s.matchIndex[i] == 0
      && (forall j :: 0 <= j < |s.nextIndex| ==> s.nextIndex[j] <= LastLog(s.log).index + 1)
      && (forall j :: 0 <= j < |s.matchIndex| ==> Matched(h, j, s.currentTerm, s.matchIndex[j]))
      && (forall j :: 0 <= j < |s.matchIndex| ==>
            s.matchIndex[j] == 0 || s.matchIndex[j] >= h.openBase[s.currentTerm])
      && (s.commitIndex >= FirstIndex(s.log) || FirstIndex(s.log) == h.openBase[s.currentTerm])
      && FirstIndex(s.log) >= h.openBase[s.currentTerm]
      && (forall k: nat :: Own(h, s.currentTerm, k) ==> k <= Acked(h, i, s.currentTerm))
  }

  ghost predicate PeerInv(h: History, i: nat, s: Node, svc: Service) {
    && i < |h.term| && h.term[i] == s.currentTerm
    && Shape(|h.term|, i, s)
    && StorageInv(h, i, s) && ProgressInv(h, s, svc)
    && BallotInv(h, i, s) && CandidateInv(h, i, s) && LeaderInv(h, i, s)
  }

  // ---------------------------------------------------------------- one message

  ghost predicate VoteArgsOk(h: History, a: VoteArgs) {
    && a.candidateId < |h.term|
    && (a.candidateId, a.term) in h.candLog
    && a.lastLogIndex == |h.candLog[(a.candidateId, a.term)]|
    && a.lastLogTerm == TermAt(h.candLog[(a.candidateId, a.term)], a.lastLogIndex)
  }

  ghost predicate LeaderArgsOk(h: History, term: nat, leaderId: nat) {
    && term in h.leader && h.leader[term] == leaderId && term in h.openBase
    && leaderId < |h.term| && term in h.termLog
  }

  /** An append request is a slice of its leader's log that reaches past the commit index it carries. */
  ghost predicate AppendArgsOk(h: History, a: AppendArgs) {
    && LeaderArgsOk(h, a.term, a.leaderId)
    && var l := h.termLog[a.term];
    && var k := a.prevLogIndex + |a.entries|;
    && h.openBase[a.term] <= a.prevLogIndex
    && k <= |l| && a.entries == l[a.prevLogIndex..k]
    && a.prevLogTerm == TermAt(l, a.prevLogIndex)
    && a.leaderCommit <= k
    && Committed(h, a.term, l[..a.leaderCommit])
  }

  ghost predicate InstallArgsOk(h: History, a: InstallArgs) {
    && LeaderArgsOk(h, a.term, a.leaderId)
    && var l := h.termLog[a.term];
    && var k := a.snapshot.lastIncludedIndex;
    && h.openBase[a.term] <= k <= |l|
    && a.snapshot.lastIncludedTerm == TermAt(l, k)
    && a.snapshot.data == Commands(l[..k])
    && Committed(h, a.term, l[..k])
  }

  ghost predicate MessageInv(h: History, m: Message) {
    match m
    case VoteRequest(to, a) => to < |h.term| && to != a.candidateId && VoteArgsOk(h, a)
    case VoteResponse(from, a, r) =>
      && from < |h.term| && VoteArgsOk(h, a)
      && (r.voteGranted ==> Grant(from, a.candidateId, a.term) in h.granted && r.term == a.term)
    case AppendRequest(to, a) => to < |h.term| && to != a.leaderId && AppendArgsOk(h, a)
    case AppendResponse(from, a, r) =>
      && from < |h.term| && from != a.leaderId && AppendArgsOk(h, a)
      && (r.success ==> Matched(h, from, a.term, a.prevLogIndex + |a.entries|))
      && (!r.success && r.term <= a.term ==> r.conflictFirstIndex <= |h.termLog[a.term]| + 1)
    case InstallRequest(to, a) => to < |h.term| && to != a.leaderId && InstallArgsOk(h, a)
    case InstallResponse(from, a, r) => from < |h.term| && from != a.leaderId && InstallArgsOk(h, a)
  }

  /** A vote request still in flight was not granted; a granted vote still in flight was not counted. */
  ghost predicate BallotsInFlight(h: History, net: set<Message>) {
    && (forall m :: m in net && m.VoteRequest? ==> Grant(m.to, m.va.candidateId, m.va.term) !in h.granted)
    && (forall m :: m in net && m.VoteResponse? && m.vr.voteGranted ==>
          Grant(m.from, m.va.candidateId, m.va.term) !in h.counted)
  }

  /** Every service state ever seen is a committed sequence of commands. */
  ghost predicate ViewInv(h: History, view: seq<Command>) {
    exists t: nat, p :: Committed(h, t, p) && view == Commands(p)
  }

  // ---------------------------------------------------------------- the cluster

  ghost predicate Inv(c: Cluster) {
    && |c.nodes| == |c.services| == |c.hist.term|
    && |c.nodes| >= 3 && |c.nodes| % 2 == 1
    && HistoryInv(c.hist)
    && (forall i :: 0 <= i < |c.nodes| ==> PeerInv(c.hist, i, c.nodes[i], c.services[i]))
    && (forall m :: m in c.net ==> MessageInv(c.hist, m))
    && BallotsInFlight(c.hist, c.net)
    && (forall v :: v in c.views ==> ViewInv(c.hist, v))
  }

  // ---------------------------------------------------------------- growth

  lemma LogInvGrows(h: History, h': History, i: nat, t: nat, log: seq<LogEntry>, data: seq<Command>)
    requires Extends(h, h', i) && LogInv(h, t, log, data)
    ensures LogInv(h', t, log, data) && Full(h', log) == Full(h, log)
  {
    FullGrows(h, h', i, log);
    LogOkGrows(h, h', i, Full(h, log));
    CommittedGrows(h, h', i, t, Full(h, log)[..FirstIndex(log)]);
  }

  lemma HoldsGrows(h: History, h': History, i: nat, j: nat, f: seq<LogEntry>)
    requires Extends(h, h', i) && AcksInv(h) && Holds(h, j, f)
    requires forall t: nat :: Acked(h', j, t) == Acked(h, j, t)
    ensures Holds(h', j, f)
  {
    forall t: nat, k: nat | Own(h', t, k) && Acked(h', j, t) >= k && Choosable(h', t, k)
      ensures h'.termLog[t][..k] <= f
    {
      ChoosableShrinks(h, h', i, t, k);
      assert (j, t) in h.acked;
      assert Own(h, t, k);
    }
  }

  lemma MatchedGrows(h: History, h': History, i: nat, v: nat, t: nat, k: nat)
    requires Extends(h, h', i) && Matched(h, v, t, k)
    ensures Matched(h', v, t, k)
  {
    if k > Acked(h, v, t) {
      CommittedGrows(h, h', i, t, h.termLog[t][..k]);
      assert h'.termLog[t][..k] == h.termLog[t][..k];
    }
  }

  lemma StorageGrows(h: History, h': History, i: nat, j: nat, s: Node)
    requires Extends(h, h', i) && AcksInv(h) && StorageInv(h, j, s)
    requires forall t: nat :: Acked(h', j, t) == Acked(h, j, t)
    ensures StorageInv(h', j, s) && Full(h', s.log) == Full(h, s.log)
  {
    LogInvGrows(h, h', i, s.currentTerm, s.log, s.snapshot.data);
    LogInvGrows(h, h', i, s.currentTerm, s.disk.log, s.disk.data);
    HoldsGrows(h, h', i, j, Full(h, s.log));
    HoldsGrows(h, h', i, j, Full(h, s.disk.log));
  }

  lemma LeaderGrows(h: History, h': History, i: nat, j: nat, s: Node)
    requires Extends(h, h', i) && i != j && Based(h, s.log) && Based(h', s.log) && LeaderInv(h, j, s)
    requires Full(h', s.log) == Full(h, s.log)
    ensures LeaderInv(h', j, s)
  {
    if s.role == Leader {
      forall k | 0 <= k < |s.matchIndex| ensures Matched(h', k, s.currentTerm, s.matchIndex[k]) {
        MatchedGrows(h, h', i, k, s.currentTerm, s.matchIndex[k]);
      }
      forall k: nat | Own(h', s.currentTerm, k) ensures k <= Acked(h', j, s.currentTerm) {
        assert Own(h, s.currentTerm, k);
        assert Acked(h, j, s.currentTerm) <= Acked(h', j, s.currentTerm);
      }
    }
  }

  lemma ProgressGrows(h: History, h': History, i: nat, s: Node, svc: Service)
    requires Extends(h, h', i) && Based(h, s.log) && ProgressInv(h, s, svc)
    ensures Based(h', s.log) && ProgressInv(h', s, svc)
  {
    FullGrows(h, h', i, s.log);
    CommittedGrows(h, h', i, s.currentTerm, Full(h, s.log)[..s.commitIndex]);
  }

  lemma BallotGrows(h: History, h': History, i: nat, j: nat, s: Node)
    requires Extends(h, h', i) && i != j && BallotInv(h, j, s)
    ensures BallotInv(h', j, s)
  {
  }

  lemma CandidateGrows(h: History, h': History, i: nat, j: nat, s: Node)
    requires Extends(h, h', i) && i != j && Based(h, s.log) && CandidateInv(h, j, s)
    ensures Based(h', s.log) && CandidateInv(h', j, s)
  {
    FullGrows(h, h', i, s.log);
    if s.role == Candidate {
      assert Tally(h', j, s.currentTerm) == Tally(h, j, s.currentTerm);
    }
  }

  lemma AcksSame(h: History, h': History, i: nat, j: nat)
    requires Extends(h, h', i) && i != j && j < |h.term|
    ensures forall t: nat :: Acked(h', j, t) == Acked(h, j, t)
  {
    forall t: nat ensures Acked(h', j, t) == Acked(h, j, t) {
      assert Acked(h, j, t) <= Acked(h', j, t);
    }
  }

  lemma PeerIntro(h: History, i: nat, s: Node, svc: Service)
    requires i < |h.term| && h.term[i] == s.currentTerm && Shape(|h.term|, i, s)
    requires StorageInv(h, i, s) && Based(h, s.log) && ProgressInv(h, s, svc)
    requires BallotInv(h, i, s) && CandidateInv(h, i, s) && LeaderInv(h, i, s)
    ensures PeerInv(h, i, s, svc)
  {
    hide StorageInv, ProgressInv, BallotInv, CandidateInv, LeaderInv, Based, Shape;
  }

  lemma PeerElim(h: History, i: nat, s: Node, svc: Service)
    requires PeerInv(h, i, s, svc)
    ensures i < |h.term| && h.term[i] == s.currentTerm && Shape(|h.term|, i, s)
    ensures StorageInv(h, i, s) && Based(h, s.log) && ProgressInv(h, s, svc)
    ensures BallotInv(h, i, s) && CandidateInv(h, i, s) && LeaderInv(h, i, s)
  {
    hide ProgressInv, BallotInv, CandidateInv, LeaderInv, Based, Shape;
  }

  lemma PeerBased(h: History, i: nat, s: Node, svc: Service)
    requires PeerInv(h, i, s, svc)
    ensures Based(h, s.log) && Based(h, s.disk.log)
  {
  }

  lemma TermsKept(h: History, h': History, i: nat, j: nat)
    requires Extends(h, h', i) && i != j && j < |h.term|
    ensures |h'.term| == |h.term| && h'.term[j] == h.term[j]
  {
  }

  /** A peer that did not act keeps its invariant. */
  lemma PeerGrows(h: History, h': History, i: nat, j: nat, s: Node, svc: Service)
    requires Extends(h, h', i) && AcksInv(h) && i != j && PeerInv(h, j, s, svc)
    ensures PeerInv(h', j, s, svc)
  {
    hide Extends, AcksInv, StorageInv, ProgressInv, BallotInv, CandidateInv, LeaderInv, Based, Shape, Acked;
    PeerBased(h, j, s, svc);
    TermsKept(h, h', i, j);
    AcksSame(h, h', i, j);
    StorageGrows(h, h', i, j, s);
    ProgressGrows(h, h', i, s, svc);
    BallotGrows(h, h', i, j, s);
    CandidateGrows(h, h', i, j, s);
    LeaderGrows(h, h', i, j, s);
  }

  lemma AppendArgsGrows(h: History, h': History, i: nat, a: AppendArgs)
    requires Extends(h, h', i) && AppendArgsOk(h, a)
    ensures AppendArgsOk(h', a)
    ensures a.term in h.termLog && a.term in h'.termLog && |h.termLog[a.term]| <= |h'.termLog[a.term]|
  {
    CommittedGrows(h, h', i, a.term, h.termLog[a.term][..a.leaderCommit]);
    assert h'.termLog[a.term][..a.leaderCommit] == h.termLog[a.term][..a.leaderCommit];
  }

  lemma InstallArgsGrows(h: History, h': History, i: nat, a: InstallArgs)
    requires Extends(h, h', i) && InstallArgsOk(h, a)
    ensures InstallArgsOk(h', a)
  {
    var k := a.snapshot.lastIncludedIndex;
    CommittedGrows(h, h', i, a.term, h.termLog[a.term][..k]);
    assert h'.termLog[a.term][..k] == h.termLog[a.term][..k];
  }

  lemma MessageGrows(h: History, h': History, i: nat, m: Message)
    requires Extends(h, h', i) && MessageInv(h, m)
    ensures MessageInv(h', m)
  {
    hide Committed, Acked, Own, Chosen, AppendArgsOk, InstallArgsOk;
    match m
    case VoteRequest(to, a) =>
    case VoteResponse(from, a, r) =>
    case AppendRequest(to, a) => AppendArgsGrows(h, h', i, a);
    case AppendResponse(from, a, r) =>
      AppendArgsGrows(h, h', i, a);
      if r.success { MatchedGrows(h, h', i, from, a.term, a.prevLogIndex + |a.entries|); }
    case InstallRequest(to, a) => InstallArgsGrows(h, h', i, a);
    case InstallResponse(from, a, r) => InstallArgsGrows(h, h', i, a);
  }

  lemma ViewGrows(h: History, h': History, i: nat, view: seq<Command>)
    requires Extends(h, h', i) && ViewInv(h, view)
    ensures ViewInv(h', view)
  {
    var t: nat, p :| Committed(h, t, p) && view == Commands(p);
    CommittedGrows(h, h', i, t, p);
  }

  lemma ViewOfPeer(h: History, i: nat, s: Node, svc: Service)
    requires PeerInv(h, i, s, svc)
    ensures ViewInv(h, svc.applied)
  {
    var f := Full(h, s.log);
    CommittedPrefix(h, s.currentTerm, f[..s.commitIndex], f[..|svc.applied|], s.currentTerm);
  }

  /** It is enough to look at the peer that acted, the messages it sent and the history. */
  lemma Assemble(c: Cluster, c': Cluster, i: nat)
    requires Inv(c) && i < |c.nodes| && Extends(c.hist, c'.hist, i)
    requires HistoryInv(c'.hist)
    requires |c'.nodes| == |c.nodes| && |c'.services| == |c.services|
    requires forall j :: 0 <= j < |c.nodes| && j != i ==> c'.nodes[j] == c.nodes[j] && c'.services[j] == c.services[j]
    requires PeerInv(c'.hist, i, c'.nodes[i], c'.services[i])
    requires forall m :: m in c'.net && m !in c.net ==> MessageInv(c'.hist, m)
    requires BallotsInFlight(c'.hist, c'.net)
    requires forall v :: v in c'.views && v !in c.views ==> v == c'.services[i].applied
    ensures Inv(c')
  {
    forall j | 0 <= j < |c'.nodes| ensures PeerInv(c'.hist, j, c'.nodes[j], c'.services[j]) {
      assert AcksInv(c.hist);
      if j != i { PeerGrows(c.hist, c'.hist, i, j, c.nodes[j], c.services[j]); }
    }
    forall m | m in c'.net ensures MessageInv(c'.hist, m) {
      if m in c.net { MessageGrows(c.hist, c'.hist, i, m); }
    }
    forall v | v in c'.views ensures ViewInv(c'.hist, v) {
      if v in c.views { ViewGrows(c.hist, c'.hist, i, v); } else { ViewOfPeer(c'.hist, i, c'.nodes[i], c'.services[i]); }
    }
  }

  /** The same for a step that sends `sent`, consumes `gone` and delivers nothing. */
  lemma AssembleMove(c: Cluster, i: nat, s: Node, h: History, gone: set<Message>, sent: set<Message>)
    requires Inv(c) && i < |c.nodes| == |h.term|
    requires Extends(c.hist, h.(term := h.term[i := s.currentTerm]), i)
    requires HistoryInv(h.(term := h.term[i := s.currentTerm]))
    requires PeerInv(h.(term := h.term[i := s.currentTerm]), i, s, c.services[i])
    requires forall m :: m in sent ==> MessageInv(h.(term := h.term[i := s.currentTerm]), m)
    requires BallotsInFlight(h, c.net - gone + sent)
    ensures Inv(Move(c, i, s, h, gone, sent))
  {
    hide *;
    InvSize(c);
    MoveFacts(c, i, s, h, gone, sent);
    var c' := Move(c, i, s, h, gone, sent);
    BallotsTerm(h, c'.hist, c'.net);
    Assemble(c, c', i);
  }

  lemma MoveFacts(c: Cluster, i: nat, s: Node, h: History, gone: set<Message>, sent: set<Message>)
    requires i < |c.nodes| == |h.term| && |c.services| == |c.nodes|
    ensures var c' := Move(c, i, s, h, gone, sent);
      && c'.hist == h.(term := h.term[i := s.currentTerm]) && c'.net == c.net - gone + sent
      && |c'.nodes| == |c.nodes| && c'.services == c.services && c'.views == c.views && c'.nodes[i] == s
      && (forall j :: 0 <= j < |c.nodes| && j != i ==> c'.nodes[j] == c.nodes[j])
  {
  }

  lemma BallotsTerm(h: History, h': History, net: set<Message>)
    requires BallotsInFlight(h, net) && h'.granted == h.granted && h'.counted == h.counted
    ensures BallotsInFlight(h', net)
  {
  }

  lemma InvSize(c: Cluster)
    requires Inv(c)
    ensures |c.nodes| == |c.services| == |c.hist.term|
  {
  }

  lemma InvParts(c: Cluster, i: nat)
    requires Inv(c) && i < |c.nodes|
    ensures HistoryInv(c.hist) && PeerInv(c.hist, i, c.nodes[i], c.services[i])
    ensures BallotsInFlight(c.hist, c.net)
  {
  }

  lemma InvMessage(c: Cluster, m: Message)
    requires Inv(c) && m in c.net
    ensures MessageInv(c.hist, m)
  {
  }

  /** Two moves of one peer are one move. */
  lemma MoveTwice(c: Cluster, i: nat, s1: Node, s2: Node, h: History, h1: History, gone: set<Message>, sent: set<Message>)
    requires i < |c.nodes| == |c.hist.term| == |h.term|
    requires h1 == h.(term := h.term[i := s1.currentTerm])
    ensures |c.nodes| == |Move(c, i, s1, c.hist, {}, {}).nodes| == |h1.term|
    ensures Move(Move(c, i, s1, c.hist, {}, {}), i, s2, h1, gone, sent) == Move(c, i, s2, h, gone, sent)
  {
    assert c.nodes[i := s1][i := s2] == c.nodes[i := s2];
    assert h.term[i := s1.currentTerm][i := s2.currentTerm] == h.term[i := s2.currentTerm];
    assert c.net - {} + {} == c.net;
  }

  lemma InvTerm(c: Cluster, i: nat)
    requires Inv(c) && i < |c.nodes|
    ensures |c.nodes| == |c.hist.term| && c.hist.term[i] == c.nodes[i].currentTerm
  {
    hide HistoryInv, MessageInv, BallotsInFlight, ViewInv, StorageInv, ProgressInv, BallotInv, CandidateInv, LeaderInv;
    assert PeerInv(c.hist, i, c.nodes[i], c.services[i]);
  }

  lemma MoveNothing(c: Cluster, i: nat)
    requires i < |c.nodes| == |c.hist.term| && c.hist.term[i] == c.nodes[i].currentTerm
    ensures Move(c, i, c.nodes[i], c.hist, {}, {}) == c
  {
    assert c.nodes[i := c.nodes[i]] == c.nodes;
    assert c.hist.term[i := c.nodes[i].currentTerm] == c.hist.term;
    assert c.net - {} + {} == c.net;
  }
}
