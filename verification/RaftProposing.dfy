/** Sending, proposing and hearing about snapshots: the rest of a leader's steps. */
module RaftProposing {
  import opened RaftNode
  import opened RaftHistory
  import opened RaftCluster
  import opened RaftInvariant
  import opened RaftElection
  import opened RaftVoting
  import opened RaftReplication
  import opened RaftAppend
  import opened RaftLeading

  // ---------------------------------------------------------------- installed snapshots

  lemma InstallResponseParts(h: History, m: Message)
    requires m.InstallResponse? && MessageInv(h, m)
    ensures var k := m.ia.snapshot.lastIncludedIndex;
      && m.from < |h.term| && m.from != m.ia.leaderId && m.ia.term in h.openBase
      && Matched(h, m.from, m.ia.term, k) && k >= h.openBase[m.ia.term]
  {
  }

  lemma InstallResponseInv(c: Cluster, m: Message)
    requires Inv(c) && WellFormed(c) && Enabled(c, HandleInstallResponse(m)) && NoPanic(c, HandleInstallResponse(m))
    ensures Inv(Step(c, HandleInstallResponse(m)))
  {
    hide Inv, WellFormed, HistoryInv, PeerInv, StorageInv, ProgressInv, BallotInv, CandidateInv, LeaderInv, Based, Matched,
         MessageInv, UpdateMatchAndNext, Move;
    var i, h := m.ia.leaderId, c.hist;
    var s := c.nodes[i];
    InvSize(c);
    InvParts(c, i);
    InvMessage(c, m);
    InstallResponseParts(h, m);
    if s.currentTerm == m.ia.term && s.role == Leader {
      if m.ir.term > s.currentTerm {
        BecomeFollowerInv(c, i, m.ir.term);
      } else {
        MatchPeer(h, i, s, c.services[i], m.from, m.ia.snapshot.lastIncludedIndex);
        TouchInv(c, i, UpdateMatchAndNext(s, m.from, m.ia.snapshot.lastIncludedIndex));
      }
    } else {
      TouchInv(c, i, s);
    }
  }

  // ---------------------------------------------------------------- sending

  lemma TailOfFull(h: History, log: seq<LogEntry>, next: nat)
    requires Based(h, log) && FirstIndex(log) < next <= LastLog(log).index + 1
    ensures next - 1 <= |Full(h, log)| && log[next - FirstIndex(log)..] == Full(h, log)[next - 1..]
  {
    assert log[next - FirstIndex(log)..] == log[1..][next - 1 - FirstIndex(log)..];
  }

  lemma LeaderProgress(h: History, i: nat, s: Node, svc: Service)
    requires Based(h, s.log) && LeaderInv(h, i, s) && s.role == Leader && ProgressInv(h, s, svc) && i < |h.term|
    ensures LeaderArgsOk(h, s.currentTerm, i) && h.termLog[s.currentTerm] == Full(h, s.log)
    ensures h.openBase[s.currentTerm] <= FirstIndex(s.log)
    ensures s.commitIndex <= |Full(h, s.log)| && Committed(h, s.currentTerm, Full(h, s.log)[..s.commitIndex])
  {
  }

  /** An append request carries the leader's whole tail, so it reaches past the commit index. */
  lemma AppendArgsMade(h: History, i: nat, s: Node, svc: Service, j: nat)
    requires PeerInv(h, i, s, svc) && s.role == Leader && Window(s.log) && j < |s.nextIndex|
    requires FirstIndex(s.log) < s.nextIndex[j] <= LastLog(s.log).index + 1
    ensures var a := MakeAppendArgs(s, j);
      && AppendArgsOk(h, a) && a.prevLogIndex + |a.entries| == |h.termLog[s.currentTerm]|
  {
    hide PeerInv, Based, Full, LeaderInv, ProgressInv, StorageInv, BallotInv, CandidateInv, Committed, LeaderArgsOk, GetLog,
         Window, FirstIndex;
    PeerElim(h, i, s, svc);
    LeaderProgress(h, i, s, svc);
    WindowRead(h, s.log, s.nextIndex[j] - 1);
    TailOfFull(h, s.log, s.nextIndex[j]);
    LeaderArgsParts(h, s.currentTerm, i);
    var a, f := MakeAppendArgs(s, j), Full(h, s.log);
    MadeArgs(s, j, a);
    hide *;
    WholeTail(f, a);
    AppendArgsIntro(h, a, f);
  }

  lemma MadeArgs(s: Node, j: nat, a: AppendArgs)
    requires Window(s.log) && j < |s.nextIndex| && FirstIndex(s.log) < s.nextIndex[j] <= LastLog(s.log).index + 1
    requires a == MakeAppendArgs(s, j)
    ensures a.term == s.currentTerm && a.leaderId == s.me && a.prevLogIndex == s.nextIndex[j] - 1 && a.leaderCommit == s.commitIndex
    ensures a.prevLogTerm == GetLog(s.log, a.prevLogIndex).term && a.entries == s.log[s.nextIndex[j] - FirstIndex(s.log)..]
  {
  }

  lemma WholeTail(f: seq<LogEntry>, a: AppendArgs)
    requires a.prevLogIndex <= |f| && a.entries == f[a.prevLogIndex..]
    ensures a.prevLogIndex + |a.entries| == |f| && a.entries == f[a.prevLogIndex..a.prevLogIndex + |a.entries|]
  {
  }

  lemma AppendArgsIntro(h: History, a: AppendArgs, f: seq<LogEntry>)
    requires LeaderArgsOk(h, a.term, a.leaderId) && a.term in h.termLog && h.termLog[a.term] == f
    requires a.term in h.openBase && h.openBase[a.term] <= a.prevLogIndex && a.prevLogIndex + |a.entries| == |f|
    requires a.entries == f[a.prevLogIndex..a.prevLogIndex + |a.entries|] && a.prevLogTerm == TermAt(f, a.prevLogIndex)
    requires a.leaderCommit <= |f| && Committed(h, a.term, f[..a.leaderCommit])
    ensures AppendArgsOk(h, a)
  {
    hide LeaderArgsOk, Committed, TermAt;
  }

  lemma LeaderArgsParts(h: History, term: nat, leaderId: nat)
    requires LeaderArgsOk(h, term, leaderId)
    ensures term in h.openBase && term in h.termLog
  {
  }

  lemma InstallArgsMade(h: History, i: nat, s: Node, svc: Service)
    requires PeerInv(h, i, s, svc) && s.role == Leader
    ensures InstallArgsOk(h, InstallArgs(s.currentTerm, i, s.snapshot))
  {
    hide LogOk, Holds, Committed, BallotInv, CandidateInv, Matched, Own;
    var f := Full(h, s.log);
    WindowRead(h, s.log, FirstIndex(s.log));
  }

  lemma LeaderNext(h: History, i: nat, s: Node, j: nat)
    requires Based(h, s.log) && LeaderInv(h, i, s) && s.role == Leader && j < |s.nextIndex|
    ensures s.nextIndex[j] <= LastLog(s.log).index + 1
  {
  }

  lemma SendSafe(c: Cluster, i: nat, j: nat)
    requires Inv(c) && Enabled(c, Send(i, j))
    ensures j < |c.nodes[i].nextIndex| && |c.nodes[i].log| > 0
    ensures c.nodes[i].nextIndex[j] <= LastLog(c.nodes[i].log).index + 1
  {
    hide Inv, HistoryInv, PeerInv, LeaderInv, Based;
    InvSize(c);
    InvParts(c, i);
    PeerElim(c.hist, i, c.nodes[i], c.services[i]);
    LeaderNext(c.hist, i, c.nodes[i], j);
  }

  lemma SendInv(c: Cluster, i: nat, j: nat)
    requires Inv(c) && WellFormed(c) && Enabled(c, Send(i, j)) && NoPanic(c, Send(i, j))
    ensures Inv(Step(c, Send(i, j)))
  {
    hide Inv, WellFormed, HistoryInv, StorageInv, ProgressInv, BallotInv, CandidateInv, LeaderInv, Based, Matched,
         Move, AppendArgsOk, InstallArgsOk;
    var h, s := c.hist, c.nodes[i];
    WellFormedPeers(c, i);
    WellFormedSize(c, i);
    InvParts(c, i);
    if s.nextIndex[j] <= FirstIndex(s.log) {
      InstallArgsMade(h, i, s, c.services[i]);
      SendOnlyInv(c, i, InstallRequest(j, InstallArgs(s.currentTerm, i, s.snapshot)));
    } else {
      AppendArgsMade(h, i, s, c.services[i], j);
      SendOnlyInv(c, i, AppendRequest(j, MakeAppendArgs(s, j)));
    }
  }

  // ---------------------------------------------------------------- proposing

  lemma AppendedFields(h: History, i: nat, t: nat, e: LogEntry)
    requires t in h.termLog
    ensures var h', l := Appended(h, i, t, e), h.termLog[t] + [e];
      && h'.termLog == h.termLog[t := l] && h'.term == h.term && h'.leader == h.leader && h'.openBase == h.openBase
      && h'.candLog == h.candLog && h'.granted == h.granted && h'.counted == h.counted
      && (forall u: nat, x: nat :: (u, x) != (i, t) ==> Acked(h', u, x) == Acked(h, u, x))
      && Acked(h', i, t) >= |l| && (Acked(h, i, t) <= |l| ==> Acked(h', i, t) == |l|)
  {
  }

  lemma AppendedAcks(h: History, i: nat, t: nat, e: LogEntry)
    requires AcksInv(h) && MayAppend(h, i, t, e)
    ensures AcksInv(Appended(h, i, t, e))
  {
    assert Acked(h, i, t) <= |h.termLog[t]|;
  }

  lemma AppendedExtends(h: History, i: nat, t: nat, e: LogEntry)
    requires i < |h.term| && h.term[i] == t && t in h.termLog && t in h.leader && h.leader[t] == i
    ensures Extends(h, Appended(h, i, t, e), i)
  {
    AppendedFields(h, i, t, e);
    var h' := Appended(h, i, t, e);
    forall u: nat, x: nat ensures Acked(h, u, x) <= Acked(h', u, x) {
      if (u, x) != (i, t) {
        assert Acked(h', u, x) == Acked(h, u, x);
      }
    }
    forall u: nat, x: nat | u < |h.term| && Acked(h, u, x) < Acked(h', u, x) ensures u == i && h.term[u] <= x {
      assert (u, x) == (i, t);
    }
  }

  ghost predicate MayAppend(h: History, i: nat, t: nat, e: LogEntry) {
    && i < |h.term| && h.term[i] == t > 0 && t in h.termLog && t in h.leader && h.leader[t] == i
    && e.term == t && e.index == |h.termLog[t]| + 1
  }

  lemma AppendedTerms(h: History, i: nat, t: nat, e: LogEntry)
    requires TermsInv(h) && CandidatesInv(h) && MayAppend(h, i, t, e)
    ensures TermsInv(Appended(h, i, t, e)) && CandidatesInv(Appended(h, i, t, e))
  {
    AppendedExtends(h, i, t, e);
    AppendedFields(h, i, t, e);
    var h', l := Appended(h, i, t, e), h.termLog[t] + [e];
    forall u | u in h'.termLog ensures LogOk(h', h'.termLog[u]) && Bounded(h'.termLog[u], u) {
      LogOkGrows(h, h', i, h.termLog[u]);
      if u == t {
        AppendedLogOk(h', h.termLog[t], t, e);
      }
    }
    forall c, u | (c, u) in h'.candLog ensures LogOk(h', h'.candLog[(c, u)]) {
      LogOkGrows(h, h', i, h.candLog[(c, u)]);
    }
  }

  lemma AppendedLogOk(h: History, l: seq<LogEntry>, t: nat, e: LogEntry)
    requires LogOk(h, l) && t in h.termLog && h.termLog[t] == l + [e] && e.term == t > 0 && e.index == |l| + 1
    ensures LogOk(h, l + [e])
  {
    forall k | 0 < k <= |l| + 1 ensures EntryOk(h, l + [e], k) {
      if k <= |l| {
        assert EntryOk(h, l, k);
        assert (l + [e])[..k] == l[..k];
      }
    }
  }

  /** No peer that moved on can still help a new entry of an old leader to be chosen. */
  lemma NewEntryDead(h: History, h': History, i: nat, t: nat, e: LogEntry, u: nat, k: nat)
    requires AcksInv(h) && LeadersInv(h) && GrantsInv(h) && MayAppend(h, i, t, e) && h' == Appended(h, i, t, e)
    requires t < u && u in h.leader && k == |h.termLog[t]| + 1
    ensures !Choosable(h', t, k)
  {
    AppendedFields(h, i, t, e);
    if Choosable(h', t, k) {
      var v := QuorumsMeet(Voters(h, h.leader[u], u), Potential(h', t, k), |h.term|);
      assert false;
    }
  }

  lemma AppendedCompleteAt(h: History, h': History, i: nat, t: nat, e: LogEntry, x: nat, u: nat, k: nat)
    requires TermsInv(h) && AcksInv(h) && LeadersInv(h) && GrantsInv(h) && CompleteInv(h) && MayAppend(h, i, t, e)
    requires h' == Appended(h, i, t, e) && t in h.termLog && h'.termLog == h.termLog[t := h.termLog[t] + [e]]
    requires x < u && u in h'.termLog && Own(h', x, k) && Choosable(h', x, k) && Choosable(h, x, k)
    ensures h'.termLog[x][..k] <= h'.termLog[u]
  {
    hide Choosable, Appended, AcksInv, LeadersInv, GrantsInv;
    if x == t && k == |h.termLog[t]| + 1 {
      NewEntryDead(h, h', i, t, e, u, k);
    } else {
      assert Own(h, x, k);
      assert h.termLog[x][..k] <= h.termLog[u];
      assert h'.termLog[x][..k] == h.termLog[x][..k];
    }
  }

  lemma AppendedComplete(h: History, i: nat, t: nat, e: LogEntry)
    requires TermsInv(h) && AcksInv(h) && LeadersInv(h) && GrantsInv(h) && CompleteInv(h) && MayAppend(h, i, t, e)
    ensures CompleteInv(Appended(h, i, t, e))
  {
    hide TermsInv, AcksInv, LeadersInv, GrantsInv, Extends, Choosable, Appended;
    var h' := Appended(h, i, t, e);
    AppendedExtends(h, i, t, e);
    AppendedFields(h, i, t, e);
    forall x: nat, u: nat, k: nat | x < u && u in h'.termLog && Own(h', x, k) && Choosable(h', x, k)
      ensures h'.termLog[x][..k] <= h'.termLog[u]
    {
      ChoosableShrinks(h, h', i, x, k);
      AppendedCompleteAt(h, h', i, t, e, x, u, k);
    }
  }

  lemma AppendedCovers(h: History, i: nat, t: nat, e: LogEntry)
    requires AcksInv(h) && GrantsInv(h) && CoversInv(h) && MayAppend(h, i, t, e)
    ensures CoversInv(Appended(h, i, t, e))
  {
    var h' := Appended(h, i, t, e);
    AppendedExtends(h, i, t, e);
    AppendedFields(h, i, t, e);
    forall g, x: nat, k: nat | g in h'.granted && (g.candidate, g.term) in h'.candLog
      && x < g.term && Own(h', x, k) && Acked(h', g.voter, x) >= k && Choosable(h', x, k)
      ensures h'.termLog[x][..k] <= h'.candLog[(g.candidate, g.term)]
    {
      ChoosableShrinks(h, h', i, x, k);
      hide Extends, Choosable, Appended;
      assert (g.voter, x) != (i, t);
      assert Acked(h', g.voter, x) == Acked(h, g.voter, x);
      assert (g.voter, x) in h.acked;
      assert Own(h, x, k);
    }
  }

  lemma AppendedVotes(h: History, i: nat, t: nat, e: LogEntry)
    requires GrantsInv(h) && VotesInv(h) && LeadersInv(h) && AcksInv(h) && MayAppend(h, i, t, e)
    ensures var h' := Appended(h, i, t, e); GrantsInv(h') && VotesInv(h') && LeadersInv(h') && AcksInv(h')
  {
    AppendedFields(h, i, t, e);
    var h' := Appended(h, i, t, e);
    forall u | u in h'.leader ensures IsQuorum(Voters(h', h'.leader[u], u), |h'.term|) {
      assert Voters(h', h'.leader[u], u) == Voters(h, h'.leader[u], u);
    }
    AppendedAcks(h, i, t, e);
  }

  lemma AppendedFrozen(h: History, i: nat, t: nat, e: LogEntry)
    requires FrozenInv(h) && MayAppend(h, i, t, e)
    ensures FrozenInv(Appended(h, i, t, e))
  {
    hide FrozenInv;
    AppendedFields(h, i, t, e);
    FrozenQuietly(h, Appended(h, i, t, e));
  }

  lemma AppendedHistory(h: History, i: nat, t: nat, e: LogEntry)
    requires HistoryInv(h) && MayAppend(h, i, t, e)
    ensures HistoryInv(Appended(h, i, t, e))
  {
    hide *;
    HistoryParts(h);
    AppendedTerms(h, i, t, e);
    AppendedVotes(h, i, t, e);
    AppendedFrozen(h, i, t, e);
    AppendedComplete(h, i, t, e);
    AppendedCovers(h, i, t, e);
    HistoryIntro(Appended(h, i, t, e));
  }

  // the proposing peer

  lemma StartFull(h: History, h': History, s: Node, e: LogEntry)
    requires Based(h, s.log) && Based(h', s.log) && Full(h', s.log) == Full(h, s.log) && e.index == LastLog(s.log).index + 1
    ensures Based(h', s.log + [e]) && Full(h', s.log + [e]) == Full(h, s.log) + [e]
    ensures FirstIndex(s.log + [e]) == FirstIndex(s.log)
  {
    assert (s.log + [e])[1..] == s.log[1..] + [e];
  }

  lemma AppendedHolds(h: History, i: nat, t: nat, e: LogEntry, f: seq<LogEntry>)
    requires HistoryInv(h) && MayAppend(h, i, t, e) && Holds(h, i, f) && h.termLog[t] == f
    ensures Holds(Appended(h, i, t, e), i, f + [e])
  {
    var h' := Appended(h, i, t, e);
    AppendedExtends(h, i, t, e);
    AppendedFields(h, i, t, e);
    forall u: nat, k: nat | Own(h', u, k) && Acked(h', i, u) >= k && Choosable(h', u, k)
      ensures h'.termLog[u][..k] <= f + [e]
    {
      ChoosableShrinks(h, h', i, u, k);
      if u != t {
        assert Acked(h', i, u) == Acked(h, i, u);
        assert (i, u) in h.acked;
        assert Own(h, u, k);
        assert h.termLog[u][..k] <= f;
      }
    }
  }

  lemma ProposeStorage(h: History, i: nat, s: Node, e: LogEntry)
    requires HistoryInv(h) && StorageInv(h, i, s) && MayAppend(h, i, s.currentTerm, e)
    requires Based(h, s.log) && h.termLog[s.currentTerm] == Full(h, s.log)
    ensures var h', s' := Appended(h, i, s.currentTerm, e), Persist(s.(log := s.log + [e]));
      && StorageInv(h', i, s') && Based(h', s'.log) && Full(h', s'.log) == Full(h, s.log) + [e]
  {
    hide *;
    var t := s.currentTerm;
    var h', f, log := Appended(h, i, t, e), Full(h, s.log), s.log + [e];
    HistoryParts(h);
    MayAppendParts(h, i, t, e);
    AppendedExtends(h, i, t, e);
    StorageElim(h, i, s);
    LogInvGrows(h, h', i, t, s.log, s.snapshot.data);
    LogInvBased(h', t, s.log, s.snapshot.data);
    BasedLast(h, s.log);
    StartFull(h, h', s, e);
    AppendedHolds(h, i, t, e, f);
    AppendedTerms(h, i, t, e);
    ProposedLog(h', t, f, e, FirstIndex(s.log));
    AppendedFields(h, i, t, e);
    AppendedOk(h', t, f + [e]);
    CommittedGrows(h, h', i, t, f[..FirstIndex(s.log)]);
    LogIntro(h', t, log, s.snapshot.data, f);
    ProposedFields(s, e);
    StorageIntro(h', i, Persist(s.(log := log)));
  }

  lemma MayAppendParts(h: History, i: nat, t: nat, e: LogEntry)
    requires MayAppend(h, i, t, e)
    ensures i < |h.term| && h.term[i] == t > 0 && t in h.termLog && t in h.leader && h.leader[t] == i
    ensures e.index == |h.termLog[t]| + 1
  {
  }

  lemma BasedLast(h: History, log: seq<LogEntry>)
    requires Based(h, log)
    ensures |log| > 0 && |Full(h, log)| == LastLog(log).index && FirstIndex(log) <= |Full(h, log)|
  {
  }

  lemma ProposedLog(h: History, t: nat, f: seq<LogEntry>, e: LogEntry, b: nat)
    requires b <= |f|
    ensures (f + [e])[..b] == f[..b]
  {
  }

  lemma AppendedOk(h: History, t: nat, l: seq<LogEntry>)
    requires TermsInv(h) && t in h.termLog && h.termLog[t] == l
    ensures LogOk(h, l) && Bounded(l, t)
  {
  }

  lemma ProposedFields(s: Node, e: LogEntry)
    ensures var s' := Persist(s.(log := s.log + [e]));
      && s'.log == s.log + [e] && s'.snapshot == s.snapshot && s'.currentTerm == s.currentTerm
      && s'.disk.log == s.log + [e] && s'.disk.data == s.snapshot.data
  {
  }

  lemma ProposeProgress(h: History, h': History, i: nat, s: Node, s': Node, svc: Service, e: LogEntry)
    requires Extends(h, h', i) && Based(h, s.log) && ProgressInv(h, s, svc)
    requires Based(h', s'.log) && Full(h', s'.log) == Full(h, s.log) + [e]
    requires s'.currentTerm == s.currentTerm && s'.commitIndex == s.commitIndex && s'.lastApplied == s.lastApplied
    ensures ProgressInv(h', s', svc)
  {
    var f := Full(h, s.log);
    CommittedGrows(h, h', i, s.currentTerm, f[..s.commitIndex]);
    assert (f + [e])[..s.commitIndex] == f[..s.commitIndex];
    assert (f + [e])[..|svc.applied|] == f[..|svc.applied|];
  }

  lemma ProposeFacts(h: History, i: nat, s: Node, e: LogEntry)
    requires Shape(|h.term|, i, s) && BallotInv(h, i, s) && Based(h, s.log) && LeaderInv(h, i, s) && s.role == Leader
    requires MayAppend(h, i, s.currentTerm, e) && Acked(h, i, s.currentTerm) <= |h.termLog[s.currentTerm]|
    requires var h' := Appended(h, i, s.currentTerm, e);
      Based(h', s.log + [e]) && Full(h', s.log + [e]) == Full(h, s.log) + [e]
    ensures var h', s' := Appended(h, i, s.currentTerm, e), Persist(s.(log := s.log + [e]));
      && s'.commitIndex == s.commitIndex && s'.lastApplied == s.lastApplied && s'.currentTerm == s.currentTerm
      && s'.log == s.log + [e] && h'.term == h.term
      && Shape(|h.term|, i, s') && BallotInv(h', i, s') && CandidateInv(h', i, s') && LeaderInv(h', i, s')
  {
    var h', s' := Appended(h, i, s.currentTerm, e), Persist(s.(log := s.log + [e]));
    AppendedFields(h, i, s.currentTerm, e);
    AppendedExtends(h, i, s.currentTerm, e);
    forall j | 0 <= j < |s'.matchIndex| ensures Matched(h', j, s'.currentTerm, s'.matchIndex[j]) {
      MatchedGrows(h, h', i, j, s.currentTerm, s.matchIndex[j]);
    }
  }

  lemma ProposePeer(h: History, i: nat, s: Node, svc: Service, e: LogEntry)
    requires HistoryInv(h) && PeerInv(h, i, s, svc) && s.role == Leader && MayAppend(h, i, s.currentTerm, e)
    ensures PeerInv(Appended(h, i, s.currentTerm, e), i, Persist(s.(log := s.log + [e])), svc)
  {
    hide *;
    var h', s' := Appended(h, i, s.currentTerm, e), Persist(s.(log := s.log + [e]));
    HistoryParts(h);
    PeerElim(h, i, s, svc);
    MayAppendParts(h, i, s.currentTerm, e);
    LeaderLog(h, i, s);
    AppendedExtends(h, i, s.currentTerm, e);
    ProposeStorage(h, i, s, e);
    ProposedFields(s, e);
    ProposeFacts(h, i, s, e);
    ProposeProgress(h, h', i, s, s', svc, e);
    PeerIntro(h', i, s', svc);
  }

  lemma LeaderLog(h: History, i: nat, s: Node)
    requires Based(h, s.log) && LeaderInv(h, i, s) && s.role == Leader && AcksInv(h)
    ensures s.currentTerm in h.termLog && h.termLog[s.currentTerm] == Full(h, s.log)
    ensures s.currentTerm in h.leader && h.leader[s.currentTerm] == i
    ensures Acked(h, i, s.currentTerm) <= |h.termLog[s.currentTerm]|
  {
  }

  lemma ProposeInv(c: Cluster, i: nat, command: Command)
    requires Inv(c) && WellFormed(c) && Enabled(c, Propose(i, command))
    ensures Inv(Step(c, Propose(i, command)))
  {
    hide Inv, WellFormed, HistoryInv, PeerInv, StorageInv, ProgressInv, BallotInv, CandidateInv, LeaderInv, Based, Full,
         Move, Appended, Extends, BallotsInFlight, AcksInv, TermsInv, GrantsInv, VotesInv, FrozenInv, LeadersInv, CandidatesInv,
         CompleteInv, CoversInv;
    var h, s := c.hist, c.nodes[i];
    WellFormedSize(c, i);
    InvParts(c, i);
    HistoryParts(h);
    PeerElim(h, i, s, c.services[i]);
    LeaderLog(h, i, s);
    PositiveTerm(h, s.currentTerm);
    BasedLast(h, s.log);
    var e := LogEntry(command, LastLog(s.log).index + 1, s.currentTerm);
    var h' := Appended(h, i, s.currentTerm, e);
    AppendedExtends(h, i, s.currentTerm, e);
    AppendedHistory(h, i, s.currentTerm, e);
    ProposePeer(h, i, s, c.services[i], e);
    AppendedFields(h, i, s.currentTerm, e);
    SameTerm(h', i, s.currentTerm);
    NoMessage(c.net);
    BallotsTerm(h, h', c.net);
    AssembleMove(c, i, Start(s, command), h', {}, {});
  }

  lemma PositiveTerm(h: History, t: nat)
    requires TermsInv(h) && t in h.leader
    ensures t > 0
  {
  }
}
