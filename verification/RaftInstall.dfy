/** Installing a snapshot, which is acknowledged without being persisted, keeps the invariant. */
module RaftInstall {
  import opened RaftNode
  import opened RaftHistory
  import opened RaftCluster
  import opened RaftInvariant
  import opened RaftElection
  import opened RaftVoting
  import opened RaftReplication
  import opened RaftAppend

  /** The leader's log up to the snapshot. */
  function Covered(h: History, a: InstallArgs): seq<LogEntry>
    requires a.term in h.termLog && a.snapshot.lastIncludedIndex <= |h.termLog[a.term]|
  {
    h.termLog[a.term][..a.snapshot.lastIncludedIndex]
  }

  /** The window left after a newer snapshot is installed. */
  function InstalledLog(log: seq<LogEntry>, snap: Snapshot): seq<LogEntry>
    requires Window(log) && FirstIndex(log) < snap.lastIncludedIndex
  {
    if LastLog(log).index >= snap.lastIncludedIndex && GetLog(log, snap.lastIncludedIndex).term == snap.lastIncludedTerm
    then TrimLog(log, snap.lastIncludedIndex)
    else [LogEntry(Nil, snap.lastIncludedIndex, snap.lastIncludedTerm)]
  }

  function Installed(s: Node, a: InstallArgs): Node
    requires Window(s.log) && FirstIndex(s.log) < a.snapshot.lastIncludedIndex
  {
    s.(snapshot := a.snapshot, log := InstalledLog(s.log, a.snapshot), applySnapshot := true)
  }

  /** On the full log, installing a snapshot is adopting the prefix it stands for. */
  lemma InstallFull(h: History, log: seq<LogEntry>, a: InstallArgs)
    requires TermsInv(h) && InstallArgsOk(h, a) && Based(h, log) && LogOk(h, Full(h, log))
    requires FirstIndex(log) < a.snapshot.lastIncludedIndex
    ensures var r := InstalledLog(log, a.snapshot);
      && Based(h, r) && FirstIndex(r) == a.snapshot.lastIncludedIndex
      && Full(h, r) == Adopt(Full(h, log), Covered(h, a))
      && (|r| == 1 || (|log| > 1 && Full(h, r) == Full(h, log)))
  {
    var f, p, k := Full(h, log), Covered(h, a), a.snapshot.lastIncludedIndex;
    var l := h.termLog[a.term];
    hide Committed;
    if LastLog(log).index >= k && GetLog(log, k).term == a.snapshot.lastIncludedTerm {
      WindowRead(h, log, k);
      LogMatching(h, f, l, k);
      TrimFull(h, log, k);
    } else {
      SentinelFull(h, a.term, k);
      if p <= f {
        WindowRead(h, log, k);
      }
    }
  }

  lemma InstallStorage(h: History, i: nat, s: Node, a: InstallArgs)
    requires HistoryInv(h) && StorageInv(h, i, s) && InstallArgsOk(h, a) && Window(s.log)
    requires i < |h.term| && h.term[i] == s.currentTerm == a.term && FirstIndex(s.log) < a.snapshot.lastIncludedIndex
    ensures StorageInv(h, i, Installed(s, a)) && Based(h, s.log) && Based(h, Installed(s, a).log)
    ensures Full(h, Installed(s, a).log) == Adopt(Full(h, s.log), Covered(h, a))
  {
    hide *;
    HistoryParts(h);
    StorageElim(h, i, s);
    CoveredParts(h, a);
    var f, p, s', k := Full(h, s.log), Covered(h, a), Installed(s, a), a.snapshot.lastIncludedIndex;
    InstallFull(h, s.log, a);
    InstalledFields(s, a);
    AdoptOk(h, f, p, a.term);
    AdoptHolds(h, i, f, p, a.term);
    AdoptHasIt(f, p);
    LogIntro(h, a.term, s'.log, a.snapshot.data, p);
    StorageIntro(h, i, s');
  }

  lemma CoveredParts(h: History, a: InstallArgs)
    requires InstallArgsOk(h, a)
    ensures a.term in h.termLog && a.snapshot.lastIncludedIndex <= |h.termLog[a.term]|
    ensures var p := Covered(h, a);
      && |p| == a.snapshot.lastIncludedIndex && p <= h.termLog[a.term] && p[..a.snapshot.lastIncludedIndex] == p
      && Committed(h, a.term, p) && a.snapshot.data == Commands(p)
  {
  }

  lemma InstalledFields(s: Node, a: InstallArgs)
    requires Window(s.log) && FirstIndex(s.log) < a.snapshot.lastIncludedIndex
    ensures var s' := Installed(s, a);
      && s'.log == InstalledLog(s.log, a.snapshot) && s'.snapshot == a.snapshot && s'.disk == s.disk
      && s'.currentTerm == s.currentTerm && s'.commitIndex == s.commitIndex && s'.lastApplied == s.lastApplied
      && s'.role == s.role
  {
  }

  lemma InstallFacts(h: History, i: nat, s: Node, a: InstallArgs)
    requires Shape(|h.term|, i, s) && BallotInv(h, i, s) && Based(h, s.log) && CandidateInv(h, i, s)
    requires s.role != Leader && InstallArgsOk(h, a) && s.currentTerm == a.term
    requires FirstIndex(s.log) < a.snapshot.lastIncludedIndex && Based(h, Installed(s, a).log)
    ensures var s' := Installed(s, a);
      && Shape(|h.term|, i, s') && BallotInv(h, i, s') && CandidateInv(h, i, s') && LeaderInv(h, i, s')
  {
  }

  lemma InstallPeer(h: History, i: nat, s: Node, svc: Service, a: InstallArgs)
    requires HistoryInv(h) && PeerInv(h, i, s, svc) && InstallArgsOk(h, a) && Window(s.log)
    requires s.role != Leader && s.currentTerm == a.term && FirstIndex(s.log) < a.snapshot.lastIncludedIndex
    ensures PeerInv(h, i, Installed(s, a), svc)
  {
    hide *;
    HistoryParts(h);
    PeerElim(h, i, s, svc);
    InstallStorage(h, i, s, a);
    InstallFacts(h, i, s, a);
    InstalledFields(s, a);
    CoveredParts(h, a);
    AdoptProgress(h, s, Installed(s, a), svc, Covered(h, a));
    PeerIntro(h, i, Installed(s, a), svc);
  }

  lemma InstallNotLeader(h: History, i: nat, s: Node, a: InstallArgs)
    requires Based(h, s.log) && LeaderInv(h, i, s) && InstallArgsOk(h, a) && i != a.leaderId && s.currentTerm == a.term
    ensures s.role != Leader
  {
  }

  lemma InstallRequestParts(c: Cluster, m: Message)
    requires Inv(c) && m in c.net && m.InstallRequest? && m.to < |c.nodes|
    ensures |c.nodes| == |c.hist.term| == |c.services| && m.to != m.ia.leaderId && InstallArgsOk(c.hist, m.ia)
    ensures Window(c.nodes[m.to].log)
    ensures forall r :: MessageInv(c.hist, InstallResponse(m.to, m.ia, r))
  {
    hide *;
    InvSize(c);
    InvParts(c, m.to);
    InvMessage(c, m);
    PeerElim(c.hist, m.to, c.nodes[m.to], c.services[m.to]);
    BasedWindow(c.hist, c.nodes[m.to].log);
    InstallMessage(c.hist, m);
  }

  lemma InstallMessage(h: History, m: Message)
    requires m.InstallRequest? && MessageInv(h, m)
    ensures m.to != m.ia.leaderId && InstallArgsOk(h, m.ia)
    ensures forall r :: MessageInv(h, InstallResponse(m.to, m.ia, r))
  {
    hide InstallArgsOk;
  }

  /** The answer of a peer whose term is at least the request's. */
  function InstallAnswer(c: Cluster, m: Message): Cluster
    requires m.InstallRequest? && m.to < |c.nodes| == |c.hist.term| && Window(c.nodes[m.to].log)
  {
    var s, a := c.nodes[m.to], m.ia;
    var s' := if a.term < s.currentTerm || FirstIndex(s.log) >= a.snapshot.lastIncludedIndex then s else Installed(s, a);
    Move(c, m.to, s', c.hist, {}, {InstallResponse(m.to, a, InstallReply(s.currentTerm))})
  }

  lemma InstallAnswerInv(c: Cluster, m: Message)
    requires Inv(c) && m in c.net && m.InstallRequest? && m.to < |c.nodes| == |c.hist.term| && Window(c.nodes[m.to].log)
    requires c.nodes[m.to].currentTerm >= m.ia.term
    ensures Inv(InstallAnswer(c, m))
  {
    hide Inv, HistoryInv, PeerInv, StorageInv, BallotInv, CandidateInv, LeaderInv, ProgressInv, InstallArgsOk, Based, Shape,
         MessageInv, Installed, Move, Extends, BallotsInFlight;
    var v, h, s, a := m.to, c.hist, c.nodes[m.to], m.ia;
    var rsp := InstallResponse(v, a, InstallReply(s.currentTerm));
    InstallRequestParts(c, m);
    InvParts(c, v);
    PeerElim(h, v, s, c.services[v]);
    if a.term < s.currentTerm || FirstIndex(s.log) >= a.snapshot.lastIncludedIndex {
      SendOnlyInv(c, v, rsp);
    } else {
      InstallNotLeader(h, v, s, a);
      InstallPeer(h, v, s, c.services[v], a);
      InstalledFields(s, a);
      SameHistory(h, v);
      AppendBallots(h, h, c.net, rsp);
      AssembleMove(c, v, Installed(s, a), h, {}, {rsp});
    }
  }

  lemma InstallStepIsAnswer(c: Cluster, m: Message)
    requires WellFormed(c) && Enabled(c, HandleInstallRequest(m))
    ensures var c1 := Move(c, m.to, StepDown(c.nodes[m.to], m.ia.term), c.hist, {}, {});
      && Window(c1.nodes[m.to].log) && |c1.nodes| == |c1.hist.term|
      && InstallAnswer(c1, m) == Step(c, HandleInstallRequest(m))
  {
    hide WellFormed, Based, Move, Window;
    WellFormedSize(c, m.to);
    BasedWindow(c.hist, c.nodes[m.to].log);
    var s1 := StepDown(c.nodes[m.to], m.ia.term);
    MoveFacts(c, m.to, s1, c.hist, {}, {});
    var (s', r) := InstallSnapshot(c.nodes[m.to], m.ia);
    MoveTwice(c, m.to, s1, s', c.hist, c.hist.(term := c.hist.term[m.to := s1.currentTerm]), {},
              {InstallResponse(m.to, m.ia, r)});
  }

  lemma InstallRequestInv(c: Cluster, m: Message)
    requires Inv(c) && WellFormed(c) && Enabled(c, HandleInstallRequest(m))
    ensures Inv(Step(c, HandleInstallRequest(m)))
  {
    hide Inv, WellFormed, Step, InstallAnswer, Move, Window;
    var s1 := StepDown(c.nodes[m.to], m.ia.term);
    WellFormedSize(c, m.to);
    StepDownInv(c, m.to, m.ia.term);
    MoveFacts(c, m.to, s1, c.hist, {}, {});
    InstallStepIsAnswer(c, m);
    InstallAnswerInv(Move(c, m.to, s1, c.hist, {}, {}), m);
  }
}
