/** One AppendEntries call, from the term check to the acknowledgement, keeps the invariant. */
module RaftAppend {
  import opened RaftNode
  import opened RaftHistory
  import opened RaftCluster
  import opened RaftInvariant
  import opened RaftElection
  import opened RaftVoting
  import opened RaftReplication

  // ---------------------------------------------------------------- acknowledging

  lemma StoredAcks(h: History, v: nat, t: nat, k: nat)
    ensures forall u: nat, x: nat :: (u, x) != (v, t) ==> Acked(Stored(h, v, t, k), u, x) == Acked(h, u, x)
    ensures Acked(Stored(h, v, t, k), v, t) == if k > Acked(h, v, t) then k else Acked(h, v, t)
  {
  }

  lemma StoredExtends(h: History, v: nat, t: nat, k: nat)
    requires v < |h.term| && h.term[v] == t
    ensures Extends(h, Stored(h, v, t, k), v)
  {
    StoredAcks(h, v, t, k);
    var h' := Stored(h, v, t, k);
    forall u: nat, x: nat ensures Acked(h, u, x) <= Acked(h', u, x) {
      if (u, x) != (v, t) {
        assert Acked(h', u, x) == Acked(h, u, x);
      }
    }
    forall u: nat, x: nat | u < |h.term| && Acked(h, u, x) < Acked(h', u, x) ensures u == v && h.term[u] <= x {
      assert (u, x) == (v, t);
    }
  }

  lemma StoredAcksInv(h: History, v: nat, t: nat, k: nat)
    requires HistoryInv(h) && v < |h.term| && h.term[v] == t && t in h.termLog && k <= |h.termLog[t]|
    ensures AcksInv(Stored(h, v, t, k)) && h.counted <= h.granted
  {
  }

  lemma StoredHistory(h: History, v: nat, t: nat, k: nat)
    requires HistoryInv(h) && v < |h.term| && h.term[v] == t && t in h.termLog && k <= |h.termLog[t]|
    ensures HistoryInv(Stored(h, v, t, k))
  {
    hide *;
    StoredExtends(h, v, t, k);
    StoredAcksInv(h, v, t, k);
    StoredQuietly(h, v, t, k);
    HistoryGrowsQuietly(h, Stored(h, v, t, k), v);
  }

  lemma StoredQuietly(h: History, v: nat, t: nat, k: nat)
    ensures var h' := Stored(h, v, t, k);
      && h'.termLog == h.termLog && h'.leader == h.leader && h'.candLog == h.candLog && h'.granted == h.granted
      && h'.counted == h.counted && h'.openBase == h.openBase && NoLateCount(h, h')
  {
  }

  /** What is on disk may be acknowledged. */
  lemma StoredHolds(h: History, v: nat, t: nat, k: nat, f: seq<LogEntry>)
    requires AcksInv(h) && Holds(h, v, f) && v < |h.term| && h.term[v] == t
    requires t in h.termLog && k <= |h.termLog[t]| && h.termLog[t][..k] <= f
    ensures Holds(Stored(h, v, t, k), v, f)
  {
    var h' := Stored(h, v, t, k);
    StoredExtends(h, v, t, k);
    StoredAcks(h, v, t, k);
    forall u: nat, j: nat | Own(h', u, j) && Acked(h', v, u) >= j && Choosable(h', u, j)
      ensures h'.termLog[u][..j] <= f
    {
      ChoosableShrinks(h, h', v, u, j);
      if Acked(h, v, u) >= j {
        assert Own(h, u, j);
      } else {
        assert u == t && j <= k;
        assert h.termLog[t][..j] <= h.termLog[t][..k];
      }
    }
  }

  lemma StoredStorage(h: History, v: nat, s: Node, k: nat)
    requires AcksInv(h) && StorageInv(h, v, s) && v < |h.term| && h.term[v] == s.currentTerm
    requires OnDisk(h, s, s.currentTerm, k) && Based(h, s.log) && h.termLog[s.currentTerm][..k] <= Full(h, s.log)
    ensures StorageInv(Stored(h, v, s.currentTerm, k), v, s)
  {
    var t := s.currentTerm;
    var h' := Stored(h, v, t, k);
    StoredHolds(h, v, t, k, Full(h, s.log));
    StoredHolds(h, v, t, k, Full(h, s.disk.log));
    StoredExtends(h, v, t, k);
    hide Extends, Holds, LogInv, Based, OnDisk, AcksInv, Full, Stored;
    StorageElim(h, v, s);
    LogInvGrows(h, h', v, t, s.log, s.snapshot.data);
    LogInvGrows(h, h', v, t, s.disk.log, s.disk.data);
    LogInvBased(h', t, s.log, s.snapshot.data);
    LogInvBased(h', t, s.disk.log, s.disk.data);
    StorageIntro(h', v, s);
  }

  lemma LogInvBased(h: History, t: nat, log: seq<LogEntry>, data: seq<Command>)
    requires LogInv(h, t, log, data)
    ensures Based(h, log)
  {
  }

  lemma StoredFacts(h: History, v: nat, s: Node, k: nat)
    requires BallotInv(h, v, s) && s.role == Follower
    ensures var h' := Stored(h, v, s.currentTerm, k);
      && h'.term == h.term && BallotInv(h', v, s)
      && (Based(h', s.log) ==> CandidateInv(h', v, s) && LeaderInv(h', v, s))
      && h'.granted == h.granted && h'.counted == h.counted
  {
  }

  lemma StoredPeer(h: History, v: nat, s: Node, svc: Service, k: nat)
    requires HistoryInv(h) && PeerInv(h, v, s, svc) && s.role == Follower
    requires OnDisk(h, s, s.currentTerm, k) && Based(h, s.log) && h.termLog[s.currentTerm][..k] <= Full(h, s.log)
    ensures PeerInv(Stored(h, v, s.currentTerm, k), v, s, svc)
  {
    var h' := Stored(h, v, s.currentTerm, k);
    hide *;
    HistoryParts(h);
    PeerElim(h, v, s, svc);
    StoredExtends(h, v, s.currentTerm, k);
    StoredStorage(h, v, s, k);
    StoredFacts(h, v, s, k);
    ProgressGrows(h, h', v, s, svc);
    PeerIntro(h', v, s, svc);
  }

  /** A follower that did not write to disk had the entries there already, or they were committed. */
  lemma AcceptedMatches(h: History, i: nat, s: Node, a: AppendArgs)
    requires HistoryInv(h) && StorageInv(h, i, s) && Fits(h, s.log, a) && Follows(a.entries, a.prevLogIndex)
    requires i < |h.term| && h.term[i] == s.currentTerm == a.term
    ensures var s' := Merged(s, a);
      OnDisk(h, s', a.term, a.prevLogIndex + |a.entries|) || Committed(h, a.term, Shipped(h, a))
  {
    hide *;
    StorageBased(h, i, s);
    ShippedPrefix(h, s.log, a);
    var s', f, l, k := Merged(s, a), Full(h, s.log), Shipped(h, a), a.prevLogIndex + |a.entries|;
    HistoryParts(h);
    StorageElim(h, i, s);
    MergeFull(h, s.log, a);
    MergedFields(h, s, a);
    AdoptHasIt(f, l);
    if l <= f && Full(h, s.disk.log) != f {
      SoleSentinel(h, s.log, a.term, l);
    } else {
      OnDiskIntro(h, s', a);
    }
  }

  lemma OnDiskIntro(h: History, s: Node, a: AppendArgs)
    requires Based(h, s.disk.log) && a.term in h.termLog && a.prevLogIndex + |a.entries| <= |h.termLog[a.term]|
    requires Shipped(h, a) <= Full(h, s.disk.log)
    ensures OnDisk(h, s, a.term, a.prevLogIndex + |a.entries|)
  {
  }

  lemma SoleSentinel(h: History, log: seq<LogEntry>, t: nat, l: seq<LogEntry>)
    requires Based(h, log) && |log| == 1 && l <= Full(h, log)
    requires Committed(h, t, Full(h, log)[..FirstIndex(log)])
    ensures Committed(h, t, l)
  {
    CommittedPrefix(h, t, Full(h, log)[..FirstIndex(log)], l, t);
  }

  // ---------------------------------------------------------------- the whole call

  lemma AcceptInv(c: Cluster, m: Message)
    requires Inv(c) && m in c.net && m.AppendRequest? && m.to < |c.nodes|
    requires c.nodes[m.to].role == Follower && c.nodes[m.to].currentTerm == m.aa.term
    requires Fits(c.hist, c.nodes[m.to].log, m.aa)
    ensures |c.nodes| == |c.hist.term| && Follows(m.aa.entries, m.aa.prevLogIndex)
    ensures var s, k := AcceptEntries(c.nodes[m.to], m.aa), m.aa.prevLogIndex + |m.aa.entries|;
      var h1 := if OnDisk(c.hist, s, m.aa.term, k) then Stored(c.hist, m.to, m.aa.term, k) else c.hist;
      Inv(Move(c, m.to, s, h1, {}, {AppendResponse(m.to, m.aa, AppendReply(m.aa.term, true, 0, 0))}))
  {
    hide *;
    var v, h, s0, a := m.to, c.hist, c.nodes[m.to], m.aa;
    var k, rsp := a.prevLogIndex + |a.entries|, AppendResponse(v, a, AppendReply(a.term, true, 0, 0));
    InvSize(c);
    FitsWindow(c, m);
    var s := AcceptEntries(s0, a);
    InvParts(c, v);
    InvMessage(c, m);
    PeerElim(h, v, s0, c.services[v]);
    AcceptPeer(h, v, s0, c.services[v], a);
    AcceptedMatches(h, v, s0, a);
    FitsParts(h, s0, s, a, m);
    var h1 := if OnDisk(h, s, a.term, k) then Stored(h, v, a.term, k) else h;
    if OnDisk(h, s, a.term, k) {
      StoredExtends(h, v, a.term, k);
      StoredHistory(h, v, a.term, k);
      StoredPeer(h, v, s, c.services[v], k);
      StoredSame(h, v, a.term, k);
    } else {
      SameHistory(h, v);
    }
    SuccessMessage(h, h1, v, a, k, rsp);
    AppendBallots(h, h1, c.net, rsp);
    SameTerm(h1, v, s.currentTerm);
    AssembleMove(c, v, s, h1, {}, {rsp});
  }

  lemma FitsWindow(c: Cluster, m: Message)
    requires Inv(c) && m in c.net && m.AppendRequest? && m.to < |c.nodes|
    requires Fits(c.hist, c.nodes[m.to].log, m.aa)
    ensures Follows(m.aa.entries, m.aa.prevLogIndex) && Window(c.nodes[m.to].log)
    ensures FirstIndex(c.nodes[m.to].log) <= m.aa.prevLogIndex <= LastLog(c.nodes[m.to].log).index
  {
    hide Inv, HistoryInv;
    InvParts(c, m.to);
    FitsFollows(c.hist, c.nodes[m.to].log, m.aa);
  }

  lemma FitsParts(h: History, s0: Node, s: Node, a: AppendArgs, m: Message)
    requires Fits(h, s0.log, a) && Follows(a.entries, a.prevLogIndex) && Based(h, s.log)
    requires Shipped(h, a) <= Full(h, s.log) && s.disk == Merged(s0, a).disk
    requires m.AppendRequest? && m.aa == a && MessageInv(h, m)
    ensures AppendArgsOk(h, a) && m.to != a.leaderId && m.to < |h.term|
    ensures a.term in h.termLog && a.prevLogIndex + |a.entries| <= |h.termLog[a.term]|
    ensures h.termLog[a.term][..a.prevLogIndex + |a.entries|] <= Full(h, s.log)
    ensures Shipped(h, a) == h.termLog[a.term][..a.prevLogIndex + |a.entries|]
    ensures forall t: nat, k: nat :: OnDisk(h, s, t, k) == OnDisk(h, Merged(s0, a), t, k)
  {
  }

  lemma StoredSame(h: History, v: nat, t: nat, k: nat)
    ensures var h' := Stored(h, v, t, k);
      h'.term == h.term && h'.termLog == h.termLog && h'.granted == h.granted && h'.counted == h.counted
    ensures k <= Acked(Stored(h, v, t, k), v, t)
  {
  }

  lemma SameTerm(h: History, v: nat, t: nat)
    requires v < |h.term| && h.term[v] == t
    ensures h.(term := h.term[v := t]) == h
  {
    assert h.term[v := t] == h.term;
  }

  lemma SuccessMessage(h: History, h1: History, v: nat, a: AppendArgs, k: nat, m: Message)
    requires Extends(h, h1, v) && AppendArgsOk(h, a) && v < |h.term| && v != a.leaderId
    requires k == a.prevLogIndex + |a.entries| && m == AppendResponse(v, a, AppendReply(a.term, true, 0, 0))
    requires a.term in h.termLog && k <= |h.termLog[a.term]|
    requires k <= Acked(h1, v, a.term) || Committed(h, a.term, h.termLog[a.term][..k])
    ensures MessageInv(h1, m)
  {
    AppendArgsGrows(h, h1, v, a);
    if k > Acked(h1, v, a.term) {
      CommittedGrows(h, h1, v, a.term, h.termLog[a.term][..k]);
      assert h1.termLog[a.term][..k] == h.termLog[a.term][..k];
    }
  }

  lemma AppendBallots(h: History, h1: History, net: set<Message>, m: Message)
    requires BallotsInFlight(h, net) && h1.granted == h.granted && h1.counted == h.counted
    requires !m.VoteRequest? && !m.VoteResponse?
    ensures BallotsInFlight(h1, net - {} + {m})
  {
  }

  /** A step that only sends messages other than votes. */
  lemma SendOnlyInv(c: Cluster, i: nat, m: Message)
    requires Inv(c) && i < |c.nodes| && !m.VoteRequest? && !m.VoteResponse? && MessageInv(c.hist, m)
    ensures |c.nodes| == |c.hist.term|
    ensures Inv(Move(c, i, c.nodes[i], c.hist, {}, {m}))
  {
    hide *;
    InvSize(c);
    InvParts(c, i);
    PeerElim(c.hist, i, c.nodes[i], c.services[i]);
    SameHistory(c.hist, i);
    AppendBallots(c.hist, c.hist, c.net, m);
    AssembleMove(c, i, c.nodes[i], c.hist, {}, {m});
  }

  lemma AppendTermInv(c: Cluster, i: nat, a: AppendArgs)
    requires Inv(c) && i < |c.nodes| && a.term in c.hist.leader
    ensures |c.nodes| == |c.hist.term|
    ensures Inv(Move(c, i, AppendEntriesTerm(c.nodes[i], a), c.hist, {}, {}))
  {
    hide Inv;
    InvSize(c);
    var s1 := StepDown(c.nodes[i], a.term);
    StepDownInv(c, i, a.term);
    if s1.role == Candidate && a.term >= s1.currentTerm {
      var c1 := Move(c, i, s1, c.hist, {}, {});
      BecomeFollowerInv(c1, i, a.term);
      MoveTwice(c, i, s1, BecomeFollower(s1, a.term), c.hist, c1.hist, {}, {});
    }
  }

  /** A leader receives no append request of its own term. */
  lemma NotTheLeader(h: History, i: nat, s: Node, a: AppendArgs)
    requires Based(h, s.log) && LeaderInv(h, i, s) && AppendArgsOk(h, a) && i != a.leaderId && s.currentTerm == a.term
    ensures s.role != Leader
  {
  }

  /** The hint for the leader never points beyond its own log. */
  lemma ConflictBound(h: History, i: nat, s: Node, a: AppendArgs)
    requires CompleteInv(h) && StorageInv(h, i, s) && AppendArgsOk(h, a) && s.currentTerm == a.term
    requires PrevLogConflict(s.log, a.prevLogIndex, a.prevLogTerm).0
    ensures PrevLogConflict(s.log, a.prevLogIndex, a.prevLogTerm).2 <= |h.termLog[a.term]| + 1
  {
    CommittedInLeader(h, a.term, Full(h, s.log)[..FirstIndex(s.log)], a.term);
  }

  lemma FitsIntro(h: History, s: Node, a: AppendArgs)
    requires Based(h, s.log) && AppendArgsOk(h, a)
    requires !PrevLogConflict(s.log, a.prevLogIndex, a.prevLogTerm).0
    ensures Fits(h, s.log, a)
  {
  }

  lemma FailMessage(h: History, v: nat, a: AppendArgs, r: AppendReply)
    requires AppendArgsOk(h, a) && v < |h.term| && v != a.leaderId && !r.success
    requires r.term > a.term || r.conflictFirstIndex <= |h.termLog[a.term]| + 1
    ensures MessageInv(h, AppendResponse(v, a, r))
  {
  }

  /** The answer of a peer whose term already matches the request, or is ahead. */
  ghost function Answer(c: Cluster, m: Message): Cluster
    requires m.AppendRequest? && m.to < |c.nodes| == |c.hist.term|
    requires Window(c.nodes[m.to].log) && Follows(m.aa.entries, m.aa.prevLogIndex)
  {
    var s, a := c.nodes[m.to], m.aa;
    var k := a.prevLogIndex + |a.entries|;
    if a.term < s.currentTerm then
      Move(c, m.to, s, c.hist, {}, {AppendResponse(m.to, a, AppendReply(s.currentTerm, false, 0, 0))})
    else
      var f := PrevLogConflict(s.log, a.prevLogIndex, a.prevLogTerm);
      if f.0 then Move(c, m.to, s, c.hist, {}, {AppendResponse(m.to, a, AppendReply(s.currentTerm, false, f.1, f.2))})
      else
        var s' := AcceptEntries(s, a);
        var h1 := if OnDisk(c.hist, s', a.term, k) then Stored(c.hist, m.to, a.term, k) else c.hist;
        Move(c, m.to, s', h1, {}, {AppendResponse(m.to, a, AppendReply(s.currentTerm, true, 0, 0))})
  }

  lemma RequestParts(c: Cluster, m: Message)
    requires Inv(c) && m in c.net && m.AppendRequest? && m.to < |c.nodes|
    ensures |c.nodes| == |c.hist.term| == |c.services| && m.to != m.aa.leaderId && AppendArgsOk(c.hist, m.aa)
    ensures Window(c.nodes[m.to].log) && Follows(m.aa.entries, m.aa.prevLogIndex) && CompleteInv(c.hist)
  {
    hide Inv, CompleteInv, CoversInv, CandidatesInv, GrantsInv, VotesInv, FrozenInv, LeadersInv, AcksInv;
    InvSize(c);
    InvParts(c, m.to);
    InvMessage(c, m);
    ShippedFollows(c.hist, m.aa);
  }

  lemma AnswerInv(c: Cluster, m: Message)
    requires Inv(c) && m in c.net && m.AppendRequest? && m.to < |c.nodes| == |c.hist.term|
    requires Window(c.nodes[m.to].log) && Follows(m.aa.entries, m.aa.prevLogIndex)
    requires c.nodes[m.to].currentTerm >= m.aa.term
    requires c.nodes[m.to].currentTerm == m.aa.term ==> c.nodes[m.to].role != Candidate
    ensures Inv(Answer(c, m))
  {
    hide Inv, HistoryInv, PeerInv, StorageInv, BallotInv, CandidateInv, LeaderInv, ProgressInv, AppendArgsOk, Based, Shape,
         MessageInv, Fits, CompleteInv, PrevLogConflict, AcceptEntries, OnDisk, Stored, Move;
    var v, h, s, a := m.to, c.hist, c.nodes[m.to], m.aa;
    RequestParts(c, m);
    InvParts(c, v);
    PeerElim(h, v, s, c.services[v]);
    if a.term < s.currentTerm {
      FailMessage(h, v, a, AppendReply(s.currentTerm, false, 0, 0));
      SendOnlyInv(c, v, AppendResponse(v, a, AppendReply(s.currentTerm, false, 0, 0)));
    } else {
      NotTheLeader(h, v, s, a);
      var f := PrevLogConflict(s.log, a.prevLogIndex, a.prevLogTerm);
      if f.0 {
        ConflictBound(h, v, s, a);
        FailMessage(h, v, a, AppendReply(s.currentTerm, false, f.1, f.2));
        SendOnlyInv(c, v, AppendResponse(v, a, AppendReply(s.currentTerm, false, f.1, f.2)));
      } else {
        FitsIntro(h, s, a);
        AcceptInv(c, m);
      }
    }
  }

  lemma LeaderOfRequest(c: Cluster, m: Message)
    requires Inv(c) && m in c.net && m.AppendRequest?
    ensures m.aa.term in c.hist.leader
  {
    hide PeerInv, HistoryInv, BallotsInFlight;
    InvMessage(c, m);
  }

  lemma TermFacts(s: Node, a: AppendArgs)
    ensures var s1 := AppendEntriesTerm(s, a);
      && s1.log == s.log && s1.currentTerm >= a.term
      && (s1.currentTerm == a.term ==> s1.role != Candidate)
      && AppendEntriesTerm(s1, a) == s1
  {
  }

  /** Handling the term first and the log second is handling the request. */
  lemma StepIsAnswer(c: Cluster, m: Message)
    requires WellFormed(c) && Enabled(c, HandleAppendRequest(m)) && NoPanic(c, HandleAppendRequest(m))
    ensures var c1 := Move(c, m.to, AppendEntriesTerm(c.nodes[m.to], m.aa), c.hist, {}, {});
      && Window(c1.nodes[m.to].log) && |c1.nodes| == |c1.hist.term|
      && Answer(c1, m) == Step(c, HandleAppendRequest(m))
  {
    hide WellFormed, Based, Window, PrevLogConflict, AcceptEntries, Move, Follows, AppendEntriesTerm;
    WellFormedSize(c, m.to);
    var s, a := c.nodes[m.to], m.aa;
    var s1 := AppendEntriesTerm(s, a);
    TermFacts(s, a);
    BasedWindow(c.hist, s.log);
    var c1 := Move(c, m.to, s1, c.hist, {}, {});
    MoveFacts(c, m.to, s1, c.hist, {}, {});
    var (s', r) := AppendEntries(s, a);
    var k := a.prevLogIndex + |a.entries|;
    var h1 := if r.success && OnDisk(c.hist, s', a.term, k) then Stored(c.hist, m.to, a.term, k) else c.hist;
    var h2 := if r.success && OnDisk(c1.hist, s', a.term, k) then Stored(c1.hist, m.to, a.term, k) else c1.hist;
    OnDiskTerm(c.hist, c1.hist, s', a.term, k);
    assert h2 == h1.(term := h1.term[m.to := s1.currentTerm]);
    MoveTwice(c, m.to, s1, s', h1, h2, {}, {AppendResponse(m.to, a, r)});
  }

  lemma BasedWindow(h: History, log: seq<LogEntry>)
    requires Based(h, log)
    ensures Window(log)
  {
  }

  lemma OnDiskTerm(h: History, h1: History, s: Node, t: nat, k: nat)
    requires h1.termLog == h.termLog
    ensures OnDisk(h1, s, t, k) == OnDisk(h, s, t, k)
  {
  }

  lemma AppendRequestInv(c: Cluster, m: Message)
    requires Inv(c) && WellFormed(c) && Enabled(c, HandleAppendRequest(m)) && NoPanic(c, HandleAppendRequest(m))
    ensures Inv(Step(c, HandleAppendRequest(m)))
  {
    hide Inv, WellFormed, NoPanic, Step, Answer, AppendEntriesTerm, Window, Follows, Move;
    var s1 := AppendEntriesTerm(c.nodes[m.to], m.aa);
    WellFormedSize(c, m.to);
    RequestParts(c, m);
    LeaderOfRequest(c, m);
    AppendTermInv(c, m.to, m.aa);
    TermFacts(c.nodes[m.to], m.aa);
    MoveFacts(c, m.to, s1, c.hist, {}, {});
    StepIsAnswer(c, m);
    AnswerInv(Move(c, m.to, s1, c.hist, {}, {}), m);
  }
}
