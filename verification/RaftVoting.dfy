/** Granting and counting votes keeps the invariant, and no term has two leaders. */
module RaftVoting {
  import opened RaftNode
  import opened RaftHistory
  import opened RaftCluster
  import opened RaftInvariant
  import opened RaftElection

  // ---------------------------------------------------------------- granting a vote

  function AfterGrant(h: History, v: nat, c: nat, t: nat): History {
    h.(granted := h.granted + {Grant(v, c, t)})
  }

  lemma GrantExtends(h: History, v: nat, c: nat, t: nat)
    ensures Extends(h, AfterGrant(h, v, c, t), v)
    ensures forall u: nat, x: nat :: Acked(AfterGrant(h, v, c, t), u, x) == Acked(h, u, x)
  {
    assert forall u: nat, x: nat :: Acked(AfterGrant(h, v, c, t), u, x) == Acked(h, u, x);
  }

  /** A peer whose `votedFor` allows it has given no other vote that matters. */
  lemma GrantVotes(h: History, v: nat, s: Node, c: nat)
    requires HistoryInv(h) && BallotInv(h, v, s) && v < |h.term| && h.term[v] == s.currentTerm
    requires s.votedFor == NA || s.votedFor == c
    requires c != v && (c, s.currentTerm) in h.candLog
    ensures GrantsInv(AfterGrant(h, v, c, s.currentTerm)) && VotesInv(AfterGrant(h, v, c, s.currentTerm))
  {
    hide TermsInv, FrozenInv, LeadersInv, AcksInv, CompleteInv, CoversInv;
  }

  /** A peer in the quorum that made the leader can vote for nobody else. */
  lemma GrantFrozen(h: History, v: nat, s: Node, c: nat)
    requires HistoryInv(h) && BallotInv(h, v, s) && v < |h.term|
    requires s.votedFor == NA || s.votedFor == c
    requires c != v
    ensures FrozenInv(AfterGrant(h, v, c, s.currentTerm))
  {
    hide TermsInv, LeadersInv, AcksInv, CompleteInv, CoversInv, CandidatesInv;
    var h' := AfterGrant(h, v, c, s.currentTerm);
    forall t | t in h'.leader ensures IsQuorum(Tally(h', h'.leader[t], t), |h'.term|) {
      TallyGrows(h, h', h.leader[t], t);
    }
  }

  lemma GrantCandidates(h: History, v: nat, c: nat, t: nat)
    requires CandidatesInv(h)
    ensures CandidatesInv(AfterGrant(h, v, c, t))
  {
    GrantExtends(h, v, c, t);
    CandidatesGrow(h, AfterGrant(h, v, c, t), v);
  }

  lemma GrantCovers(h: History, v: nat, c: nat, t: nat, f: seq<LogEntry>)
    requires TermsInv(h) && CandidatesInv(h) && CompleteInv(h) && CoversInv(h)
    requires v < |h.term| && h.term[v] == t && (c, t) in h.candLog
    requires LogOk(h, f) && Holds(h, v, f)
    requires var g := h.candLog[(c, t)];
      TermAt(g, |g|) > TermAt(f, |f|) || (TermAt(g, |g|) == TermAt(f, |f|) && |g| >= |f|)
    ensures CoversInv(AfterGrant(h, v, c, t))
  {
    var h' := AfterGrant(h, v, c, t);
    GrantExtends(h, v, c, t);
    CandidateOk(h, c, t);
    hide TermsInv, CandidatesInv, CompleteInv, LogOk, TermAt;
    forall g, u: nat, k: nat | g in h'.granted && (g.candidate, g.term) in h'.candLog
      && u < g.term && Own(h', u, k) && Acked(h', g.voter, u) >= k && Choosable(h', u, k)
      ensures h'.termLog[u][..k] <= h'.candLog[(g.candidate, g.term)]
    {
      ChoosableShrinks(h, h', v, u, k);
      assert Own(h, u, k);
      if g == Grant(v, c, t) {
        UpToDateCovers(h, f, h.candLog[(c, t)], u, k);
      }
    }
  }

  lemma CandidateOk(h: History, c: nat, t: nat)
    requires CandidatesInv(h) && (c, t) in h.candLog
    ensures LogOk(h, h.candLog[(c, t)])
  {
  }

  ghost predicate MayGrant(h: History, v: nat, s: Node, a: VoteArgs) {
    && v < |h.term| && h.term[v] == s.currentTerm == a.term && a.candidateId != v
    && (s.votedFor == NA || s.votedFor == a.candidateId)
    && Based(h, s.log) && UpToDate(s.log, a.lastLogIndex, a.lastLogTerm)
    && VoteArgsOk(h, a)
  }

  lemma GrantHistory(h: History, v: nat, s: Node, a: VoteArgs)
    requires HistoryInv(h) && BallotInv(h, v, s) && StorageInv(h, v, s) && MayGrant(h, v, s, a)
    ensures HistoryInv(AfterGrant(h, v, a.candidateId, a.term))
  {
    var h' := AfterGrant(h, v, a.candidateId, a.term);
    LastTerm(h, s.log);
    hide Extends, HistoryInv, CompleteInv, CoversInv, CandidatesInv, GrantsInv, VotesInv, FrozenInv, LeadersInv, AcksInv,
         TermsInv, BallotInv, Full, Based, LogOk, Holds, Committed;
    HistoryParts(h);
    GrantExtends(h, v, a.candidateId, a.term);
    GrantVotes(h, v, s, a.candidateId);
    GrantFrozen(h, v, s, a.candidateId);
    GrantCandidates(h, v, a.candidateId, a.term);
    GrantCovers(h, v, a.candidateId, a.term, Full(h, s.log));
    StandTerms(h, h', v);
    CompleteGrows(h, h', v);
    HistoryIntro(h');
  }

  lemma GrantFacts(h: History, v: nat, s: Node, a: VoteArgs)
    requires HistoryInv(h) && Shape(|h.term|, v, s) && BallotInv(h, v, s) && MayGrant(h, v, s, a)
    ensures var h', s' := AfterGrant(h, v, a.candidateId, a.term), Persist(s.(votedFor := a.candidateId));
      && |h'.term| == |h.term| && h'.term[v] == s'.currentTerm == s.currentTerm
      && Shape(|h.term|, v, s')
      && s'.log == s.log && s'.snapshot == s.snapshot && s'.disk.log == s.log && s'.disk.data == s.snapshot.data
      && s'.commitIndex == s.commitIndex && s'.lastApplied == s.lastApplied
      && BallotInv(h', v, s')
      && (Based(h', s'.log) ==> CandidateInv(h', v, s') && LeaderInv(h', v, s'))
  {
  }

  lemma GrantPeer(h: History, v: nat, s: Node, svc: Service, a: VoteArgs)
    requires HistoryInv(h) && PeerInv(h, v, s, svc) && MayGrant(h, v, s, a)
    ensures PeerInv(AfterGrant(h, v, a.candidateId, a.term), v, Persist(s.(votedFor := a.candidateId)), svc)
  {
    var h', s' := AfterGrant(h, v, a.candidateId, a.term), Persist(s.(votedFor := a.candidateId));
    hide *;
    HistoryParts(h);
    PeerElim(h, v, s, svc);
    GrantExtends(h, v, a.candidateId, a.term);
    GrantFacts(h, v, s, a);
    StorageGrows(h, h', v, v, s);
    StoragePersist(h', v, s, s');
    ProgressGrows(h, h', v, s, svc);
    ProgressLater(h', s, s', svc);
    PeerIntro(h', v, s', svc);
  }

  lemma GrantBallots(c: Cluster, m: Message, r: VoteReply)
    requires Inv(c) && m in c.net && m.VoteRequest?
    ensures BallotsInFlight(AfterGrant(c.hist, m.to, m.va.candidateId, m.va.term),
                            c.net - {m} + {VoteResponse(m.to, m.va, r)})
  {
    var h := c.hist;
    hide PeerInv, CompleteInv, CoversInv, CandidatesInv, VotesInv, FrozenInv, LeadersInv, AcksInv, TermsInv;
    var g := Grant(m.to, m.va.candidateId, m.va.term);
    assert g !in h.granted && g !in h.counted;
    forall x | x in c.net - {m} && x.VoteRequest?
      ensures Grant(x.to, x.va.candidateId, x.va.term) !in h.granted + {g}
    {
      assert MessageInv(h, m) && MessageInv(h, x);
    }
  }

  lemma RefuseBallots(h: History, net: set<Message>, m: Message, sent: set<Message>)
    requires BallotsInFlight(h, net) && forall x :: x in sent ==> x.VoteResponse? && !x.vr.voteGranted
    ensures BallotsInFlight(h, net - {m} + sent)
  {
  }

  lemma GrantInv(c: Cluster, m: Message, r: VoteReply)
    requires Inv(c) && m in c.net && m.VoteRequest? && m.to < |c.nodes|
    requires MayGrant(c.hist, m.to, c.nodes[m.to], m.va) && r == VoteReply(m.va.term, true)
    ensures |c.nodes| == |c.hist.term|
    ensures Inv(Move(c, m.to, Persist(c.nodes[m.to].(votedFor := m.va.candidateId)),
                     AfterGrant(c.hist, m.to, m.va.candidateId, m.va.term), {m}, {VoteResponse(m.to, m.va, r)}))
  {
    hide Inv, HistoryInv, PeerInv, StorageInv, BallotInv, Extends, BallotsInFlight, MayGrant, Based;
    var v, h, s, a := m.to, c.hist, c.nodes[m.to], m.va;
    var h' := AfterGrant(h, v, a.candidateId, a.term);
    InvSize(c);
    InvParts(c, v);
    InvMessage(c, m);
    PeerElim(h, v, s, c.services[v]);
    GrantExtends(h, v, a.candidateId, a.term);
    GrantHistory(h, v, s, a);
    GrantPeer(h, v, s, c.services[v], a);
    GrantBallots(c, m, r);
    SameHistory(h', v);
    AssembleMove(c, v, Persist(s.(votedFor := a.candidateId)), h', {m}, {VoteResponse(v, a, r)});
  }

  /** Only the network changes. */
  lemma RefuseInv(c: Cluster, i: nat, m: Message, sent: set<Message>)
    requires Inv(c) && i < |c.nodes|
    requires forall x :: x in sent ==> x.VoteResponse? && !x.vr.voteGranted && MessageInv(c.hist, x)
    ensures |c.nodes| == |c.hist.term|
    ensures Inv(Move(c, i, c.nodes[i], c.hist, {m}, sent))
  {
    hide Inv, HistoryInv, StorageInv, ProgressInv, BallotInv, CandidateInv, LeaderInv, Extends, BallotsInFlight, Based,
      MessageInv;
    InvSize(c);
    InvParts(c, i);
    SameHistory(c.hist, i);
    RefuseBallots(c.hist, c.net, m, sent);
    AssembleMove(c, i, c.nodes[i], c.hist, {m}, sent);
  }

  /** A peer that is already in the candidate's term, or later, answers. */
  lemma AnswerVoteInv(c: Cluster, m: Message)
    requires Inv(c) && m in c.net && m.VoteRequest? && m.to < |c.nodes| == |c.hist.term| && |c.nodes[m.to].log| > 0
    requires c.nodes[m.to].currentTerm >= m.va.term
    ensures var (s, r) := RequestVote(c.nodes[m.to], m.va);
      var h1 := if r.voteGranted then AfterGrant(c.hist, m.to, m.va.candidateId, m.va.term) else c.hist;
      Inv(Move(c, m.to, s, h1, {m}, {VoteResponse(m.to, m.va, r)}))
  {
    hide Inv, StorageInv, ProgressInv, BallotInv, CandidateInv, LeaderInv, HistoryInv, UpToDate;
    var (s, r) := RequestVote(c.nodes[m.to], m.va);
    InvSize(c);
    InvMessage(c, m);
    InvParts(c, m.to);
    PeerBased(c.hist, m.to, c.nodes[m.to], c.services[m.to]);
    if r.voteGranted {
      GrantInv(c, m, r);
    } else {
      RefuseInv(c, m.to, m, {VoteResponse(m.to, m.va, r)});
    }
  }

  lemma SameHistory(h: History, i: nat)
    requires i < |h.term|
    ensures h.(term := h.term[i := h.term[i]]) == h && Extends(h, h, i)
  {
    assert h.term[i := h.term[i]] == h.term;
  }

  lemma VoteRequestInv(c: Cluster, m: Message)
    requires Inv(c) && WellFormed(c) && Enabled(c, HandleVoteRequest(m))
    ensures Inv(Step(c, HandleVoteRequest(m)))
  {
    hide Inv, WellFormed, Window, Based, UpToDate;
    var s1 := StepDown(c.nodes[m.to], m.va.term);
    WellFormedSize(c, m.to);
    var c1 := Move(c, m.to, s1, c.hist, {}, {});
    StepDownInv(c, m.to, m.va.term);
    MoveTwice(c, m.to, s1, s1, c.hist, c1.hist, {}, {});
    AnswerVoteInv(c1, m);
    var (s, r) := RequestVote(c.nodes[m.to], m.va);
    var h := if r.voteGranted then AfterGrant(c.hist, m.to, m.va.candidateId, m.va.term) else c.hist;
    var h1 := if r.voteGranted then AfterGrant(c1.hist, m.to, m.va.candidateId, m.va.term) else c1.hist;
    MoveTwice(c, m.to, s1, s, h, h1, {m}, {VoteResponse(m.to, m.va, r)});
  }

  lemma WellFormedSize(c: Cluster, i: nat)
    requires WellFormed(c) && i < |c.nodes|
    ensures |c.nodes| == |c.services| == |c.hist.term| && |c.nodes[i].log| > 0
    ensures Based(c.hist, c.nodes[i].log) && Based(c.hist, c.nodes[i].disk.log)
  {
  }

  // ---------------------------------------------------------------- counting a vote

  function AfterCount(h: History, v: nat, c: nat, t: nat): History {
    h.(counted := h.counted + {Grant(v, c, t)})
  }

  lemma CountExtends(h: History, v: nat, c: nat, t: nat)
    ensures Extends(h, AfterCount(h, v, c, t), c)
    ensures forall u: nat, x: nat :: Acked(AfterCount(h, v, c, t), u, x) == Acked(h, u, x)
  {
    assert forall u: nat, x: nat :: Acked(AfterCount(h, v, c, t), u, x) == Acked(h, u, x);
  }

  lemma CountHistory(h: History, v: nat, c: nat, t: nat)
    requires HistoryInv(h) && Grant(v, c, t) in h.granted && (t in h.leader ==> h.leader[t] != c)
    ensures HistoryInv(AfterCount(h, v, c, t))
  {
    CountExtends(h, v, c, t);
    hide CompleteInv, CoversInv, TermsInv, CandidatesInv, VotesInv, FrozenInv, LeadersInv, Extends;
    HistoryGrowsQuietly(h, AfterCount(h, v, c, t), c);
  }

  /** The counter of an election equals the number of distinct peers that granted it. */
  lemma CountFacts(h: History, i: nat, s: Node, v: nat)
    requires Shape(|h.term|, i, s) && BallotInv(h, i, s) && Based(h, s.log) && CandidateInv(h, i, s)
    requires i < |h.term| && h.term[i] == s.currentTerm && v < |h.term| && s.role == Candidate
    requires Grant(v, i, s.currentTerm) !in h.counted
    ensures var h', s' := AfterCount(h, v, i, s.currentTerm), s.(votes := s.votes + 1);
      && |h'.term| == |h.term| && h'.term[i] == s'.currentTerm == s.currentTerm
      && Shape(|h.term|, i, s') && BallotInv(h', i, s') && Based(h', s'.log)
      && CandidateInv(h', i, s') && LeaderInv(h', i, s')
  {
    var h', s' := AfterCount(h, v, i, s.currentTerm), s.(votes := s.votes + 1);
    assert Tally(h', i, s.currentTerm) == Tally(h, i, s.currentTerm) + {v};
  }

  lemma StorageSame(h: History, i: nat, s: Node, s': Node)
    requires StorageInv(h, i, s)
    requires s'.currentTerm == s.currentTerm && s'.log == s.log && s'.snapshot == s.snapshot && s'.disk == s.disk
    ensures StorageInv(h, i, s')
  {
  }

  lemma CountPeer(h: History, i: nat, s: Node, svc: Service, v: nat)
    requires HistoryInv(h) && PeerInv(h, i, s, svc) && v < |h.term| && s.role == Candidate
    requires Grant(v, i, s.currentTerm) !in h.counted
    ensures PeerInv(AfterCount(h, v, i, s.currentTerm), i, s.(votes := s.votes + 1), svc)
  {
    var h', s' := AfterCount(h, v, i, s.currentTerm), s.(votes := s.votes + 1);
    hide *;
    HistoryParts(h);
    PeerElim(h, i, s, svc);
    CountExtends(h, v, i, s.currentTerm);
    CountFacts(h, i, s, v);
    StorageGrows(h, h', i, i, s);
    StorageSame(h', i, s, s');
    ProgressGrows(h, h', i, s, svc);
    ProgressLater(h', s, s', svc);
    PeerIntro(h', i, s', svc);
  }

  lemma CountBallots(c: Cluster, m: Message)
    requires Inv(c) && m in c.net && m.VoteResponse? && m.vr.voteGranted
    ensures BallotsInFlight(AfterCount(c.hist, m.from, m.va.candidateId, m.va.term), c.net - {m} + {})
  {
    var h := c.hist;
    hide PeerInv, HistoryInv;
    var g := Grant(m.from, m.va.candidateId, m.va.term);
    forall x | x in c.net - {m} && x.VoteResponse? && x.vr.voteGranted
      ensures Grant(x.from, x.va.candidateId, x.va.term) !in h.counted + {g}
    {
      assert MessageInv(h, m) && MessageInv(h, x);
    }
  }

  lemma CountInv(c: Cluster, m: Message)
    requires Inv(c) && m in c.net && m.VoteResponse? && m.vr.voteGranted && m.va.candidateId < |c.nodes|
    requires c.nodes[m.va.candidateId].role == Candidate && c.nodes[m.va.candidateId].currentTerm == m.va.term
    ensures |c.nodes| == |c.hist.term|
    ensures var i := m.va.candidateId;
      Inv(Move(c, i, c.nodes[i].(votes := c.nodes[i].votes + 1), AfterCount(c.hist, m.from, i, m.va.term), {m}, {}))
  {
    hide Inv, HistoryInv, PeerInv, Extends, BallotsInFlight;
    var i, h, v, t := m.va.candidateId, c.hist, m.from, m.va.term;
    var s := c.nodes[i];
    InvSize(c);
    InvParts(c, i);
    InvMessage(c, m);
    InFlight(h, c.net, m);
    PeerElim(h, i, s, c.services[i]);
    CountExtends(h, v, i, t);
    NotYetLeader(h, i, s);
    CountHistory(h, v, i, t);
    CountPeer(h, i, s, c.services[i], v);
    CountBallots(c, m);
    SameHistory(AfterCount(h, v, i, t), i);
    AssembleMove(c, i, s.(votes := s.votes + 1), AfterCount(h, v, i, t), {m}, {});
  }

  lemma NotYetLeader(h: History, i: nat, s: Node)
    requires BallotInv(h, i, s) && s.role == Candidate
    ensures s.currentTerm in h.leader ==> h.leader[s.currentTerm] != i
  {
  }

  lemma InFlight(h: History, net: set<Message>, m: Message)
    requires BallotsInFlight(h, net) && m in net && m.VoteResponse? && m.vr.voteGranted
    ensures Grant(m.from, m.va.candidateId, m.va.term) !in h.counted
  {
  }

  // ---------------------------------------------------------------- winning

  /**
   Election Safety, at the only place where leaders are made: a candidate with a majority
   is the first winner of its term, although a peer may have voted twice in that term.
   */
  lemma FirstWinner(h: History, i: nat, s: Node)
    requires HistoryInv(h) && BallotInv(h, i, s) && s.role == Candidate
    requires IsQuorum(Voters(h, i, s.currentTerm), |h.term|)
    ensures s.currentTerm !in h.leader
  {
    var t := s.currentTerm;
    if t in h.leader {
      var v := QuorumsMeet(Voters(h, i, t), Voters(h, h.leader[t], t), |h.term|);
    }
  }

  lemma WinExtends(h: History, i: nat, t: nat, l: seq<LogEntry>, base: nat)
    requires TermsInv(h) && t !in h.leader && t > 0
    ensures Extends(h, Won(h, i, t, l, base), i)
    ensures forall u: nat, x: nat :: Acked(Won(h, i, t, l, base), u, x) == Acked(h, u, x)
  {
    assert forall u: nat, x: nat :: Acked(Won(h, i, t, l, base), u, x) == Acked(h, u, x);
  }

  lemma WinTerms(h: History, i: nat, t: nat, l: seq<LogEntry>, base: nat)
    requires TermsInv(h) && CandidatesInv(h) && t !in h.leader && t > 0
    requires LogOk(h, l) && Bounded(l, t)
    ensures TermsInv(Won(h, i, t, l, base)) && CandidatesInv(Won(h, i, t, l, base))
  {
    var h' := Won(h, i, t, l, base);
    WinExtends(h, i, t, l, base);
    forall u | u in h'.termLog ensures LogOk(h', h'.termLog[u]) {
      LogOkGrows(h, h', i, h'.termLog[u]);
    }
    forall c, u | (c, u) in h'.candLog ensures LogOk(h', h'.candLog[(c, u)]) {
      LogOkGrows(h, h', i, h.candLog[(c, u)]);
    }
  }

  lemma WinVotes(h: History, i: nat, s: Node, l: seq<LogEntry>, base: nat)
    requires GrantsInv(h) && VotesInv(h) && BallotInv(h, i, s) && s.role == Candidate && s.currentTerm !in h.leader
    ensures var h' := Won(h, i, s.currentTerm, l, base); GrantsInv(h') && VotesInv(h')
  {
  }

  lemma WinOffice(h: History, i: nat, t: nat, l: seq<LogEntry>, base: nat)
    requires TermsInv(h) && LeadersInv(h) && AcksInv(h) && t !in h.leader && t > 0 && i < |h.term| && h.term[i] == t
    requires IsQuorum(Voters(h, i, t), |h.term|)
    ensures var h' := Won(h, i, t, l, base); LeadersInv(h') && AcksInv(h')
  {
    var h' := Won(h, i, t, l, base);
    forall u | u in h'.leader ensures IsQuorum(Voters(h', h'.leader[u], u), |h'.term|) {
      assert Voters(h', h'.leader[u], u) == Voters(h, h'.leader[u], u);
    }
  }

  /** Before its leader a term has no second votes, so the quorum that makes the leader is frozen. */
  lemma WinFrozen(h: History, i: nat, t: nat, l: seq<LogEntry>, base: nat)
    requires GrantsInv(h) && VotesInv(h) && FrozenInv(h) && t !in h.leader
    requires IsQuorum(Tally(h, i, t), |h.term|)
    ensures FrozenInv(Won(h, i, t, l, base))
  {
    var h' := Won(h, i, t, l, base);
    forall u | u in h'.leader ensures IsQuorum(Tally(h', h'.leader[u], u), |h'.term|) {
      assert Tally(h', h'.leader[u], u) == Tally(h, h'.leader[u], u);
    }
  }

  /** The new leader's log holds everything that may still be chosen. */
  lemma WinComplete(h: History, i: nat, t: nat, base: nat)
    requires HistoryInv(h) && t !in h.leader && (i, t) in h.candLog
    requires IsQuorum(Voters(h, i, t), |h.term|)
    ensures CompleteInv(Won(h, i, t, h.candLog[(i, t)], base))
  {
    var l := h.candLog[(i, t)];
    var h' := Won(h, i, t, l, base);
    WinExtends(h, i, t, l, base);
    forall x: nat, u: nat, k: nat | x < u && u in h'.termLog && Own(h', x, k) && Choosable(h', x, k)
      ensures h'.termLog[x][..k] <= h'.termLog[u]
    {
      ChoosableShrinks(h, h', i, x, k);
      if x == t {
        assert false;
      }
      assert Own(h, x, k);
      if u == t {
        var v := QuorumsMeet(Voters(h, i, t), Potential(h, x, k), |h.term|);
        assert Grant(v, i, t) in h.granted;
      }
    }
  }

  lemma WinCovers(h: History, i: nat, t: nat, base: nat)
    requires HistoryInv(h) && t !in h.leader && (i, t) in h.candLog
    ensures CoversInv(Won(h, i, t, h.candLog[(i, t)], base))
  {
    var l := h.candLog[(i, t)];
    var h' := Won(h, i, t, l, base);
    WinExtends(h, i, t, l, base);
    forall g, x: nat, k: nat | g in h'.granted && (g.candidate, g.term) in h'.candLog
      && x < g.term && Own(h', x, k) && Acked(h', g.voter, x) >= k && Choosable(h', x, k)
      ensures h'.termLog[x][..k] <= h'.candLog[(g.candidate, g.term)]
    {
      ChoosableShrinks(h, h', i, x, k);
      assert (g.voter, x) in h.acked;
      assert Own(h, x, k);
    }
  }

  lemma WinHistory(h: History, i: nat, s: Node, base: nat)
    requires HistoryInv(h) && BallotInv(h, i, s) && s.role == Candidate
    requires i < |h.term| && h.term[i] == s.currentTerm && s.currentTerm !in h.leader
    requires IsQuorum(Voters(h, i, s.currentTerm), |h.term|) && IsQuorum(Tally(h, i, s.currentTerm), |h.term|)
    requires (i, s.currentTerm) in h.candLog
    ensures s.currentTerm > 0
    ensures HistoryInv(Won(h, i, s.currentTerm, h.candLog[(i, s.currentTerm)], base))
    ensures Extends(h, Won(h, i, s.currentTerm, h.candLog[(i, s.currentTerm)], base), i)
  {
    var t, l := s.currentTerm, h.candLog[(i, s.currentTerm)];
    CandidateLog(h, i, t);
    hide Extends, HistoryInv, CompleteInv, CoversInv, CandidatesInv, GrantsInv, VotesInv, FrozenInv, LeadersInv, AcksInv,
         TermsInv, BallotInv, LogOk, Bounded, IsQuorum;
    HistoryParts(h);
    WinExtends(h, i, t, l, base);
    WinTerms(h, i, t, l, base);
    WinVotes(h, i, s, l, base);
    WinOffice(h, i, t, l, base);
    WinFrozen(h, i, t, l, base);
    WinComplete(h, i, t, base);
    WinCovers(h, i, t, base);
    HistoryIntro(Won(h, i, t, l, base));
  }

  lemma CandidateLog(h: History, i: nat, t: nat)
    requires HistoryInv(h) && (i, t) in h.candLog
    ensures t > 0 && LogOk(h, h.candLog[(i, t)]) && Bounded(h.candLog[(i, t)], t)
  {
  }

  lemma WinFacts(h: History, i: nat, s: Node)
    requires Shape(|h.term|, i, s) && BallotInv(h, i, s) && Based(h, s.log) && CandidateInv(h, i, s)
    requires i < |h.term| && h.term[i] == s.currentTerm && s.role == Candidate && s.currentTerm !in h.leader
    requires TermsInv(h) && CandidatesInv(h) && s.currentTerm > 0
    ensures (i, s.currentTerm) in h.candLog && Full(h, s.log) == h.candLog[(i, s.currentTerm)]
    ensures var h', s' := Won(h, i, s.currentTerm, Full(h, s.log), FirstIndex(s.log)), BecomeLeader(s);
      && |h'.term| == |h.term| && h'.term[i] == s'.currentTerm == s.currentTerm
      && s'.log == s.log && s'.snapshot == s.snapshot && s'.disk == s.disk
      && s'.commitIndex == s.commitIndex && s'.lastApplied == s.lastApplied
      && Shape(|h.term|, i, s') && BallotInv(h', i, s') && Based(h', s'.log)
      && CandidateInv(h', i, s') && LeaderInv(h', i, s')
  {
  }

  lemma WinPeer(h: History, i: nat, s: Node, svc: Service)
    requires HistoryInv(h) && PeerInv(h, i, s, svc) && s.role == Candidate && s.currentTerm !in h.leader
    requires IsQuorum(Voters(h, i, s.currentTerm), |h.term|) && IsQuorum(Tally(h, i, s.currentTerm), |h.term|)
    ensures Based(h, s.log)
    ensures var h' := Won(h, i, s.currentTerm, Full(h, s.log), FirstIndex(s.log));
      HistoryInv(h') && Extends(h, h', i) && PeerInv(h', i, BecomeLeader(s), svc) && h'.term == h.term
  {
    hide *;
    HistoryParts(h);
    PeerElim(h, i, s, svc);
    WinLog(h, i, s);
    var h', s' := Won(h, i, s.currentTerm, Full(h, s.log), FirstIndex(s.log)), BecomeLeader(s);
    WinHistory(h, i, s, FirstIndex(s.log));
    WinFacts(h, i, s);
    WinAcks(h, h', i, s);
    StorageGrows(h, h', i, i, s);
    StorageSame(h', i, s, s');
    ProgressGrows(h, h', i, s, svc);
    ProgressLater(h', s, s', svc);
    PeerIntro(h', i, s', svc);
  }

  lemma WinLog(h: History, i: nat, s: Node)
    requires Based(h, s.log) && CandidateInv(h, i, s) && s.role == Candidate && s.currentTerm !in h.leader
    ensures |s.log| > 0 && (i, s.currentTerm) in h.candLog && h.candLog[(i, s.currentTerm)] == Full(h, s.log)
  {
  }

  lemma WinAcks(h: History, h': History, i: nat, s: Node)
    requires Based(h, s.log) && h' == Won(h, i, s.currentTerm, Full(h, s.log), FirstIndex(s.log))
    ensures h'.term == h.term && forall t: nat :: Acked(h', i, t) == Acked(h, i, t)
  {
  }

  lemma QuorumCounted(h: History, i: nat, s: Node)
    requires GrantsInv(h) && Based(h, s.log) && CandidateInv(h, i, s) && s.role == Candidate && s.votes > |h.term| / 2
    ensures IsQuorum(Voters(h, i, s.currentTerm), |h.term|) && IsQuorum(Tally(h, i, s.currentTerm), |h.term|)
  {
    IdLists.SubsetSize(Tally(h, i, s.currentTerm), Voters(h, i, s.currentTerm));
  }

  /** A candidate whose counter shows a majority takes office. */
  lemma WinInv(c: Cluster, i: nat)
    requires Inv(c) && i < |c.nodes| && c.nodes[i].role == Candidate && c.nodes[i].votes > |c.nodes| / 2
    ensures |c.nodes| == |c.hist.term| && Based(c.hist, c.nodes[i].log)
    ensures Inv(Move(c, i, BecomeLeader(c.nodes[i]),
                     Won(c.hist, i, c.nodes[i].currentTerm, Full(c.hist, c.nodes[i].log), FirstIndex(c.nodes[i].log)),
                     {}, {}))
  {
    hide Inv, HistoryInv, PeerInv, Extends, BallotsInFlight, Based, Full, GrantsInv, CandidateInv, StorageInv, LeaderInv,
         BallotInv, ProgressInv, CompleteInv, CoversInv, VotesInv, FrozenInv, TermsInv, LeadersInv, CandidatesInv, AcksInv, IsQuorum;
    var h, s := c.hist, c.nodes[i];
    InvSize(c);
    InvParts(c, i);
    HistoryParts(h);
    PeerElim(h, i, s, c.services[i]);
    QuorumCounted(h, i, s);
    FirstWinner(h, i, s);
    WinPeer(h, i, s, c.services[i]);
    var h' := Won(h, i, s.currentTerm, Full(h, s.log), FirstIndex(s.log));
    SameHistory(h', i);
    assert c.net - {} + {} == c.net;
    BallotsTerm(h, h', c.net);
    AssembleMove(c, i, BecomeLeader(s), h', {}, {});
  }

  /** A reply that does not count, possibly with a newer term. */
  lemma IgnoredReplyInv(c: Cluster, i: nat, t: nat, m: Message)
    requires Inv(c) && i < |c.nodes| == |c.hist.term|
    ensures Inv(Move(c, i, StepDown(c.nodes[i], t), c.hist, {m}, {}))
  {
    hide Inv;
    var s1 := StepDown(c.nodes[i], t);
    StepDownInv(c, i, t);
    var c1 := Move(c, i, s1, c.hist, {}, {});
    RefuseInv(c1, i, m, {});
    MoveTwice(c, i, s1, s1, c.hist, c1.hist, {m}, {});
  }

  lemma VoteResponseInv(c: Cluster, m: Message)
    requires Inv(c) && WellFormed(c) && Enabled(c, HandleVoteResponse(m))
    ensures Inv(Step(c, HandleVoteResponse(m)))
  {
    hide Inv, WellFormed, Window, Based, Full;
    var i := m.va.candidateId;
    WellFormedSize(c, i);
    var s := c.nodes[i];
    if !(s.currentTerm == m.va.term && s.role == Candidate) {
      IgnoredReplyInv(c, i, s.currentTerm, m);
    } else if !m.vr.voteGranted {
      IgnoredReplyInv(c, i, m.vr.term, m);
    } else {
      CountInv(c, m);
      WellFormedPeers(c, i);
      var s1, h1 := s.(votes := s.votes + 1), AfterCount(c.hist, m.from, i, m.va.term);
      if s1.votes > |s.matchIndex| / 2 {
        var c1 := Move(c, i, s1, h1, {m}, {});
        WinInv(c1, i);
        FullOfCount(c.hist, h1, i, s.currentTerm, s.log);
        var h2 := Won(h1, i, s.currentTerm, Full(c.hist, s.log), FirstIndex(s.log));
        MoveAgain(c, i, s1, BecomeLeader(s1), h1, h2, {m});
      }
    }
  }

  lemma WellFormedPeers(c: Cluster, i: nat)
    requires WellFormed(c) && i < |c.nodes|
    ensures |c.nodes[i].nextIndex| == |c.nodes[i].matchIndex| == |c.nodes|
  {
  }

  lemma FullOfCount(h: History, h1: History, i: nat, t: nat, log: seq<LogEntry>)
    requires Based(h, log) && h1.termLog == h.termLog && i < |h1.term|
    ensures Based(h1.(term := h1.term[i := t]), log) && Full(h1.(term := h1.term[i := t]), log) == Full(h, log)
  {
  }

  lemma MoveAgain(c: Cluster, i: nat, s1: Node, s2: Node, h1: History, h2: History, gone: set<Message>)
    requires i < |c.nodes| == |h1.term| && h2.term == h1.term
    ensures Move(Move(c, i, s1, h1, gone, {}), i, s2, h2.(term := h1.term[i := s1.currentTerm]), {}, {})
         == Move(c, i, s2, h2, gone, {})
  {
    assert c.nodes[i := s1][i := s2] == c.nodes[i := s2];
    assert h1.term[i := s1.currentTerm][i := s2.currentTerm] == h2.term[i := s2.currentTerm];
    assert c.net - gone + {} - {} + {} == c.net - gone + {};
  }
}
