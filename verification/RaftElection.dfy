/** The steps that change terms, votes and leadership keep the invariant. */
module RaftElection {
  import opened RaftNode
  import opened RaftHistory
  import opened RaftCluster
  import opened RaftInvariant

  // ---------------------------------------------------------------- history

  lemma VotersGrow(h: History, h': History, c: nat, t: nat)
    requires |h'.term| == |h.term| && h.granted <= h'.granted && IsQuorum(Voters(h, c, t), |h.term|)
    ensures IsQuorum(Voters(h', c, t), |h'.term|)
  {
    IdLists.SubsetSize(Voters(h, c, t), Voters(h', c, t));
  }

  lemma TallyGrows(h: History, h': History, c: nat, t: nat)
    requires |h'.term| == |h.term| && h.counted <= h'.counted && IsQuorum(Tally(h, c, t), |h.term|)
    ensures IsQuorum(Tally(h', c, t), |h'.term|)
  {
    IdLists.SubsetSize(Tally(h, c, t), Tally(h', c, t));
  }

  /** New counted votes are not for the leader of their term. */
  ghost predicate NoLateCount(h: History, h': History) {
    forall g :: g in h'.counted && g !in h.counted && g.term in h.leader ==> h.leader[g.term] != g.candidate
  }

  lemma FrozenQuietly(h: History, h': History)
    requires FrozenInv(h) && NoLateCount(h, h') && |h'.term| == |h.term|
    requires h'.leader == h.leader && h'.granted == h.granted && h.counted <= h'.counted
    ensures FrozenInv(h')
  {
    forall t | t in h'.leader ensures IsQuorum(Tally(h', h'.leader[t], t), |h'.term|) {
      TallyGrows(h, h', h.leader[t], t);
    }
  }

  /** Terms, acknowledgements and counted votes may grow without touching the rest. */
  lemma HistoryGrowsQuietly(h: History, h': History, i: nat)
    requires HistoryInv(h) && Extends(h, h', i) && AcksInv(h')
    requires h'.termLog == h.termLog && h'.leader == h.leader && h'.candLog == h.candLog && h'.granted == h.granted
    requires h'.counted <= h'.granted && h'.openBase == h.openBase && NoLateCount(h, h')
    ensures HistoryInv(h')
  {
    hide *;
    HistoryParts(h);
    FrozenQuietly(h, h') by { ExtendsCounted(h, h', i); }
    TermsGrow(h, h', i);
    CandidatesGrow(h, h', i);
    VotesQuietly(h, h', i);
    CompleteGrows(h, h', i);
    CoversGrow(h, h', i);
    HistoryIntro(h');
  }

  lemma ExtendsCounted(h: History, h': History, i: nat)
    requires Extends(h, h', i)
    ensures |h'.term| == |h.term| && h.counted <= h'.counted
  {
  }

  lemma TermsGrow(h: History, h': History, i: nat)
    requires TermsInv(h) && Extends(h, h', i)
    requires h'.termLog == h.termLog && h'.leader == h.leader && h'.openBase == h.openBase
    ensures TermsInv(h')
  {
    forall t | t in h'.termLog ensures LogOk(h', h'.termLog[t]) {
      LogOkGrows(h, h', i, h.termLog[t]);
    }
  }

  lemma CandidatesGrow(h: History, h': History, i: nat)
    requires CandidatesInv(h) && Extends(h, h', i) && h'.candLog == h.candLog
    ensures CandidatesInv(h')
  {
    forall c, t | (c, t) in h'.candLog ensures LogOk(h', h'.candLog[(c, t)]) {
      LogOkGrows(h, h', i, h.candLog[(c, t)]);
    }
  }

  lemma VotesQuietly(h: History, h': History, i: nat)
    requires GrantsInv(h) && VotesInv(h) && LeadersInv(h) && Extends(h, h', i) && h'.counted <= h'.granted
    requires h'.granted == h.granted && h'.leader == h.leader && h'.candLog == h.candLog
    ensures GrantsInv(h') && VotesInv(h') && LeadersInv(h')
  {
    forall t | t in h'.leader ensures IsQuorum(Voters(h', h'.leader[t], t), |h'.term|) {
      VotersGrow(h, h', h.leader[t], t);
    }
  }

  lemma CompleteGrows(h: History, h': History, i: nat)
    requires HistoryInv(h) && Extends(h, h', i) && h'.termLog == h.termLog
    ensures CompleteInv(h')
  {
    forall t: nat, u: nat, k: nat | t < u && u in h'.termLog && Own(h', t, k) && Choosable(h', t, k)
      ensures h'.termLog[t][..k] <= h'.termLog[u]
    {
      ChoosableShrinks(h, h', i, t, k);
      assert Own(h, t, k);
    }
  }

  /** A voter acknowledges nothing more in the terms before its vote. */
  lemma CoversGrow(h: History, h': History, i: nat)
    requires HistoryInv(h) && Extends(h, h', i)
    requires h'.termLog == h.termLog && h'.candLog == h.candLog && h'.granted == h.granted
    ensures CoversInv(h')
  {
    forall g, t: nat, k: nat | g in h'.granted && (g.candidate, g.term) in h'.candLog
      && t < g.term && Own(h', t, k) && Acked(h', g.voter, t) >= k && Choosable(h', t, k)
      ensures h'.termLog[t][..k] <= h'.candLog[(g.candidate, g.term)]
    {
      ChoosableShrinks(h, h', i, t, k);
      assert Own(h, t, k);
      assert Acked(h', g.voter, t) == Acked(h, g.voter, t);
    }
  }

  function Bumped(h: History, i: nat, t: nat): History
    requires i < |h.term|
  {
    h.(term := h.term[i := t])
  }

  lemma BumpTerm(h: History, i: nat, t: nat)
    requires HistoryInv(h) && i < |h.term| && h.term[i] <= t
    ensures Extends(h, Bumped(h, i, t), i) && HistoryInv(Bumped(h, i, t))
    ensures forall v: nat, u: nat :: Acked(Bumped(h, i, t), v, u) == Acked(h, v, u)
  {
    var h' := Bumped(h, i, t);
    assert forall v: nat, u: nat :: Acked(h', v, u) == Acked(h, v, u);
    HistoryGrowsQuietly(h, h', i);
  }

  // ---------------------------------------------------------------- stepping down

  lemma LogInvLater(h: History, t: nat, u: nat, log: seq<LogEntry>, data: seq<Command>)
    requires LogInv(h, t, log, data) && t <= u
    ensures LogInv(h, u, log, data)
  {
    var p := Full(h, log)[..FirstIndex(log)];
    CommittedPrefix(h, t, p, p, u);
  }

  /** Writing the in-memory log to disk, possibly in a later term. */
  lemma StoragePersist(h: History, i: nat, s: Node, s': Node)
    requires StorageInv(h, i, s) && s'.currentTerm >= s.currentTerm
    requires s'.log == s.log && s'.snapshot == s.snapshot
    requires s'.disk.log == s.log && s'.disk.data == s.snapshot.data
    ensures StorageInv(h, i, s')
  {
    LogInvLater(h, s.currentTerm, s'.currentTerm, s.log, s.snapshot.data);
  }

  lemma ProgressLater(h: History, s: Node, s': Node, svc: Service)
    requires Based(h, s.log) && ProgressInv(h, s, svc) && s'.currentTerm >= s.currentTerm
    requires s'.log == s.log && s'.commitIndex == s.commitIndex && s'.lastApplied == s.lastApplied
    ensures ProgressInv(h, s', svc)
  {
    var p := Full(h, s.log)[..s.commitIndex];
    CommittedPrefix(h, s.currentTerm, p, p, s'.currentTerm);
  }

  lemma HistoryParts(h: History)
    requires HistoryInv(h)
    ensures TermsInv(h) && GrantsInv(h) && VotesInv(h) && FrozenInv(h) && LeadersInv(h) && AcksInv(h)
    ensures CandidatesInv(h) && CompleteInv(h) && CoversInv(h)
  {
  }

  lemma HistoryIntro(h: History)
    requires TermsInv(h) && GrantsInv(h) && VotesInv(h) && FrozenInv(h) && LeadersInv(h) && AcksInv(h)
    requires CandidatesInv(h) && CompleteInv(h) && CoversInv(h)
    ensures HistoryInv(h)
  {
  }

  lemma FollowerFacts(h: History, i: nat, s: Node, t: nat)
    requires Shape(|h.term|, i, s) && i < |h.term|
    ensures var h', s' := Bumped(h, i, t), BecomeFollower(s, t);
      && |h'.term| == |h.term| && h'.term[i] == s'.currentTerm == t
      && Shape(|h.term|, i, s')
      && s'.log == s.log && s'.snapshot == s.snapshot && s'.disk.log == s.log && s'.disk.data == s.snapshot.data
      && s'.commitIndex == s.commitIndex && s'.lastApplied == s.lastApplied
      && (Based(h', s'.log) ==> CandidateInv(h', i, s') && LeaderInv(h', i, s'))
  {
  }

  lemma FollowerBallot(h: History, i: nat, s: Node, t: nat)
    requires GrantsInv(h) && LeadersInv(h) && BallotInv(h, i, s) && i < |h.term| && h.term[i] == s.currentTerm
    requires t > s.currentTerm || (t == s.currentTerm && s.role == Candidate && t in h.leader)
    ensures BallotInv(Bumped(h, i, t), i, BecomeFollower(s, t))
  {
  }

  lemma BecomeFollowerPeer(h: History, i: nat, s: Node, svc: Service, t: nat)
    requires HistoryInv(h) && PeerInv(h, i, s, svc)
    requires t > s.currentTerm || (t == s.currentTerm && s.role == Candidate && t in h.leader)
    ensures PeerInv(Bumped(h, i, t), i, BecomeFollower(s, t), svc)
  {
    var h', s' := Bumped(h, i, t), BecomeFollower(s, t);
    hide *;
    HistoryParts(h);
    PeerElim(h, i, s, svc);
    BumpTerm(h, i, t);
    FollowerFacts(h, i, s, t);
    StorageGrows(h, h', i, i, s);
    StoragePersist(h', i, s, s');
    ProgressGrows(h, h', i, s, svc);
    ProgressLater(h', s, s', svc);
    FollowerBallot(h, i, s, t);
    PeerIntro(h', i, s', svc);
  }

  lemma BecomeFollowerInv(c: Cluster, i: nat, t: nat)
    requires Inv(c) && i < |c.nodes|
    requires t > c.nodes[i].currentTerm || (t == c.nodes[i].currentTerm && c.nodes[i].role == Candidate && t in c.hist.leader)
    ensures Inv(Move(c, i, BecomeFollower(c.nodes[i], t), c.hist, {}, {}))
  {
    hide HistoryInv, MessageInv, Extends, StorageInv, ProgressInv, BallotInv, CandidateInv, LeaderInv;
    BumpTerm(c.hist, i, t);
    BecomeFollowerPeer(c.hist, i, c.nodes[i], c.services[i], t);
    assert c.net - {} + {} == c.net;
    AssembleMove(c, i, BecomeFollower(c.nodes[i], t), c.hist, {}, {});
  }

  lemma StepDownInv(c: Cluster, i: nat, t: nat)
    requires Inv(c) && i < |c.nodes|
    ensures Inv(Move(c, i, StepDown(c.nodes[i], t), c.hist, {}, {}))
  {
    hide Inv;
    InvSize(c);
    if t > c.nodes[i].currentTerm {
      BecomeFollowerInv(c, i, t);
    } else {
      InvTerm(c, i);
      MoveNothing(c, i);
    }
  }

  // ---------------------------------------------------------------- standing for election

  /** A log that passes the up-to-date test against f holds every choosable entry that f holds. */
  lemma UpToDateCovers(h: History, f: seq<LogEntry>, g: seq<LogEntry>, t: nat, k: nat)
    requires TermsInv(h) && CompleteInv(h) && LogOk(h, f) && LogOk(h, g)
    requires TermAt(g, |g|) > TermAt(f, |f|) || (TermAt(g, |g|) == TermAt(f, |f|) && |g| >= |f|)
    requires Own(h, t, k) && Choosable(h, t, k) && h.termLog[t][..k] <= f
    ensures h.termLog[t][..k] <= g
  {
    assert f[k - 1] == h.termLog[t][k - 1];
    TermsMonotone(h, f, k, |f|);
    var u := TermAt(g, |g|);
    assert EntryOk(h, g, |g|);
    assert g <= h.termLog[u];
    if u == TermAt(f, |f|) {
      assert EntryOk(h, f, |f|);
      assert f <= h.termLog[u];
    } else {
      assert h.termLog[t][..k] <= h.termLog[u];
      TermsOrder(h, h.termLog[u], k, |g|);
    }
  }

  lemma LastTerm(h: History, log: seq<LogEntry>)
    requires Based(h, log)
    ensures LastLog(log).term == TermAt(Full(h, log), |Full(h, log)|)
    ensures LastLog(log).index == |Full(h, log)|
  {
  }

  /** The history after peer c stood in its next term. */
  ghost function AfterStand(h: History, c: nat, l: seq<LogEntry>): History
    requires c < |h.term|
  {
    Bumped(StoodFor(h, c, h.term[c] + 1, l), c, h.term[c] + 1)
  }

  lemma StandFresh(h: History, c: nat)
    requires HistoryInv(h) && c < |h.term|
    ensures (c, h.term[c] + 1) !in h.candLog
    ensures forall g :: g in h.granted || g in h.counted ==>
              !(g.term == h.term[c] + 1 && (g.candidate == c || g.voter == c))
    ensures h.term[c] + 1 in h.leader ==> h.leader[h.term[c] + 1] != c
  {
  }

  lemma StandExtends(h: History, c: nat, l: seq<LogEntry>)
    requires HistoryInv(h) && c < |h.term|
    ensures Extends(h, AfterStand(h, c, l), c)
    ensures forall v: nat, t: nat :: Acked(AfterStand(h, c, l), v, t) == Acked(h, v, t)
  {
    hide HistoryInv;
    StandFresh(h, c);
    assert forall v: nat, t: nat :: Acked(AfterStand(h, c, l), v, t) == Acked(h, v, t);
  }

  lemma StandTerms(h: History, h': History, i: nat)
    requires Extends(h, h', i) && TermsInv(h) && LeadersInv(h) && AcksInv(h)
    requires h'.termLog == h.termLog && h'.leader == h.leader && h'.acked == h.acked && h'.openBase == h.openBase
    ensures TermsInv(h') && LeadersInv(h') && AcksInv(h')
  {
    TermsGrow(h, h', i);
    hide TermsInv;
    forall t | t in h'.leader ensures IsQuorum(Voters(h', h'.leader[t], t), |h'.term|) {
      VotersGrow(h, h', h.leader[t], t);
    }
  }

  lemma StandVotes(h: History, c: nat, l: seq<LogEntry>)
    requires HistoryInv(h) && c < |h.term| && LogOk(h, l) && Bounded(l, h.term[c])
    ensures CandidatesInv(AfterStand(h, c, l)) && GrantsInv(AfterStand(h, c, l)) && VotesInv(AfterStand(h, c, l))
  {
    hide TermsInv, FrozenInv, LeadersInv, AcksInv, CompleteInv, CoversInv;
    var h' := AfterStand(h, c, l);
    StandFresh(h, c);
    StandExtends(h, c, l);
    forall x, t | (x, t) in h'.candLog ensures LogOk(h', h'.candLog[(x, t)]) {
      LogOkGrows(h, h', c, h'.candLog[(x, t)]);
    }
  }

  lemma StandFrozen(h: History, c: nat, l: seq<LogEntry>)
    requires HistoryInv(h) && c < |h.term|
    ensures FrozenInv(AfterStand(h, c, l))
  {
    hide TermsInv, LeadersInv, AcksInv, CompleteInv, CoversInv, CandidatesInv, VotesInv;
    var h' := AfterStand(h, c, l);
    StandFresh(h, c);
    forall t | t in h'.leader ensures IsQuorum(Tally(h', h'.leader[t], t), |h'.term|) {
      TallyGrows(h, h', h.leader[t], t);
    }
  }

  lemma StandCovers(h: History, c: nat, l: seq<LogEntry>)
    requires HistoryInv(h) && c < |h.term| && Holds(h, c, l)
    ensures CoversInv(AfterStand(h, c, l))
  {
    hide TermsInv, CandidatesInv, VotesInv, FrozenInv, LeadersInv, AcksInv, CompleteInv;
    var h' := AfterStand(h, c, l);
    StandFresh(h, c);
    StandExtends(h, c, l);
    forall g, t: nat, k: nat | g in h'.granted && (g.candidate, g.term) in h'.candLog
      && t < g.term && Own(h', t, k) && Acked(h', g.voter, t) >= k && Choosable(h', t, k)
      ensures h'.termLog[t][..k] <= h'.candLog[(g.candidate, g.term)]
    {
      ChoosableShrinks(h, h', c, t, k);
      assert Own(h, t, k);
    }
  }

  lemma StandHistory(h: History, c: nat, l: seq<LogEntry>)
    requires HistoryInv(h) && c < |h.term| && LogOk(h, l) && Bounded(l, h.term[c]) && Holds(h, c, l)
    ensures HistoryInv(AfterStand(h, c, l))
  {
    var h' := AfterStand(h, c, l);
    StandExtends(h, c, l);
    hide Extends, TermsInv, CandidatesInv, GrantsInv, VotesInv, FrozenInv, LeadersInv, AcksInv, CompleteInv, CoversInv,
         LogOk, Holds;
    StandTerms(h, h', c);
    StandVotes(h, c, l);
    StandFrozen(h, c, l);
    StandCovers(h, c, l);
    CompleteGrows(h, h', c);
  }

  lemma CandidateFacts(h: History, i: nat, s: Node)
    requires HistoryInv(h) && i < |h.term| && h.term[i] == s.currentTerm && Shape(|h.term|, i, s) && Based(h, s.log)
    ensures var h', s' := AfterStand(h, i, Full(h, s.log)), BecomeCandidate(s);
      && |h'.term| == |h.term| && h'.term[i] == s'.currentTerm == s.currentTerm + 1
      && Shape(|h.term|, i, s')
      && s'.log == s.log && s'.snapshot == s.snapshot && s'.disk.log == s.log && s'.disk.data == s.snapshot.data
      && s'.commitIndex == s.commitIndex && s'.lastApplied == s.lastApplied
      && BallotInv(h', i, s') && Based(h', s'.log) && CandidateInv(h', i, s') && LeaderInv(h', i, s')
  {
    var h', s' := AfterStand(h, i, Full(h, s.log)), BecomeCandidate(s);
    StandFresh(h, i);
    assert Tally(h', i, s'.currentTerm) == {i};
  }

  lemma CandidatePeer(h: History, i: nat, s: Node, svc: Service)
    requires HistoryInv(h) && PeerInv(h, i, s, svc)
    ensures Based(h, s.log) && PeerInv(AfterStand(h, i, Full(h, s.log)), i, BecomeCandidate(s), svc)
  {
    hide *;
    HistoryParts(h);
    PeerElim(h, i, s, svc);
    var h', s' := AfterStand(h, i, Full(h, s.log)), BecomeCandidate(s);
    StandExtends(h, i, Full(h, s.log));
    CandidateFacts(h, i, s);
    StorageGrows(h, h', i, i, s);
    StoragePersist(h', i, s, s');
    ProgressGrows(h, h', i, s, svc);
    ProgressLater(h', s, s', svc);
    PeerIntro(h', i, s', svc);
  }

  lemma CandidateBallots(c: Cluster, i: nat, s: Node)
    requires Inv(c) && i < |c.nodes| && s == BecomeCandidate(c.nodes[i]) && |s.log| > 0
    ensures Based(c.hist, s.log)
    ensures BallotsInFlight(StoodFor(c.hist, i, s.currentTerm, Full(c.hist, s.log)),
                            c.net - {} + VoteRequests(|c.nodes|, RequestArgs(s)))
  {
    var h := c.hist;
    hide HistoryInv, StorageInv, ProgressInv, BallotInv, CandidateInv, LeaderInv;
    assert PeerInv(h, i, c.nodes[i], c.services[i]);
    PeerBased(h, i, c.nodes[i], c.services[i]);
    StandFresh(h, i);
    var h1 := StoodFor(h, i, s.currentTerm, Full(h, s.log));
    var sent := VoteRequests(|c.nodes|, RequestArgs(s));
    forall m | m in c.net - {} + sent && m.VoteRequest?
      ensures Grant(m.to, m.va.candidateId, m.va.term) !in h1.granted
    {
      if m in c.net { assert MessageInv(h, m); }
    }
    forall m | m in c.net - {} + sent && m.VoteResponse? && m.vr.voteGranted
      ensures Grant(m.from, m.va.candidateId, m.va.term) !in h1.counted
    {
      assert m in c.net && MessageInv(h, m);
    }
  }

  lemma CandidateMessages(h: History, i: nat, s: Node, m: Message)
    requires HistoryInv(h) && i < |h.term| && h.term[i] == s.currentTerm && s.me == i && Based(h, s.log)
    requires m in VoteRequests(|h.term|, RequestArgs(BecomeCandidate(s)))
    ensures MessageInv(AfterStand(h, i, Full(h, s.log)), m)
  {
    hide HistoryInv;
    LastTerm(h, s.log);
  }

  lemma TimeoutInv(c: Cluster, i: nat)
    requires Inv(c) && WellFormed(c) && Enabled(c, Timeout(i))
    ensures Inv(Step(c, Timeout(i)))
  {
    TimeoutStep(c, i);
    hide *;
    InvSize(c);
    InvParts(c, i);
    var h, s, s' := c.hist, c.nodes[i], BecomeCandidate(c.nodes[i]);
    var sent := VoteRequests(|c.nodes|, RequestArgs(s'));
    CandidatePeer(h, i, s, c.services[i]);
    var f := Full(h, s.log);
    StandExtends(h, i, f);
    StandHistoryOf(h, i, s, c.services[i]);
    CandidateBallots(c, i, s');
    forall m | m in sent ensures MessageInv(AfterStand(h, i, f), m) {
      PeerElim(h, i, s, c.services[i]);
      ShapeMe(|h.term|, i, s);
      CandidateMessages(h, i, s, m);
    }
    AssembleMove(c, i, s', StoodFor(h, i, s'.currentTerm, f), {}, sent);
  }

  lemma ShapeMe(n: nat, i: nat, s: Node)
    requires Shape(n, i, s)
    ensures s.me == i
  {
  }

  lemma TimeoutStep(c: Cluster, i: nat)
    requires Inv(c) && WellFormed(c) && Enabled(c, Timeout(i))
    ensures i < |c.nodes| == |c.hist.term| && Based(c.hist, c.nodes[i].log) && |BecomeCandidate(c.nodes[i]).log| > 0
    ensures var s := BecomeCandidate(c.nodes[i]);
      var h := StoodFor(c.hist, i, s.currentTerm, Full(c.hist, c.nodes[i].log));
      && s.log == c.nodes[i].log && s.currentTerm == c.nodes[i].currentTerm + 1 == c.hist.term[i] + 1
      && Bumped(h, i, s.currentTerm) == AfterStand(c.hist, i, Full(c.hist, c.nodes[i].log))
      && |h.term| == |c.hist.term| && h.(term := h.term[i := s.currentTerm]) == Bumped(h, i, s.currentTerm)
      && Step(c, Timeout(i)) == Move(c, i, s, h, {}, VoteRequests(|c.nodes|, RequestArgs(s)))
  {
    hide HistoryInv, PeerInv, MessageInv, BallotsInFlight, Based, Full;
    InvParts(c, i);
    PeerElim(c.hist, i, c.nodes[i], c.services[i]);
  }

  lemma StandHistoryOf(h: History, i: nat, s: Node, svc: Service)
    requires HistoryInv(h) && PeerInv(h, i, s, svc)
    ensures Based(h, s.log) && HistoryInv(AfterStand(h, i, Full(h, s.log)))
  {
    hide HistoryInv;
    StandHistory(h, i, Full(h, s.log));
  }
}
