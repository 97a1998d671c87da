/** Following a leader: AppendEntries and InstallSnapshot at the receiver keep the invariant. */
module RaftReplication {
  import opened RaftNode
  import opened RaftHistory
  import opened RaftCluster
  import opened RaftInvariant
  import opened RaftElection

  // ---------------------------------------------------------------- windows and full logs

  /** Reading the retained window reads the full log. */
  lemma WindowRead(h: History, log: seq<LogEntry>, k: nat)
    requires Based(h, log) && FirstIndex(log) <= k <= LastLog(log).index
    ensures k <= |Full(h, log)| && GetLog(log, k).term == TermAt(Full(h, log), k)
    ensures k > FirstIndex(log) ==> GetLog(log, k) == Full(h, log)[k - 1]
  {
  }

  /** Trimming changes the window, not the full log. */
  lemma TrimFull(h: History, log: seq<LogEntry>, k: nat)
    requires Based(h, log) && LogOk(h, Full(h, log)) && FirstIndex(log) < k <= LastLog(log).index
    ensures Based(h, TrimLog(log, k)) && Full(h, TrimLog(log, k)) == Full(h, log)
  {
    var f, r := Full(h, log), TrimLog(log, k);
    WindowRead(h, log, k);
    assert EntryOk(h, f, k);
    assert r[0] == f[k - 1];
    assert h.termLog[r[0].term][..k] == f[..k];
    assert r[1..] == f[k..];
  }

  /** A bare sentinel stands for the leader's log up to it. */
  lemma SentinelFull(h: History, t: nat, k: nat)
    requires TermsInv(h) && t in h.termLog && 0 < k <= |h.termLog[t]|
    ensures var log := [LogEntry(Nil, k, TermAt(h.termLog[t], k))];
      Based(h, log) && Full(h, log) == h.termLog[t][..k]
  {
    assert EntryOk(h, h.termLog[t], k);
  }

  /** The leader's log up to the request's end. */
  function Shipped(h: History, a: AppendArgs): seq<LogEntry>
    requires a.term in h.termLog && a.prevLogIndex + |a.entries| <= |h.termLog[a.term]|
  {
    h.termLog[a.term][..a.prevLogIndex + |a.entries|]
  }

  lemma ShippedFollows(h: History, a: AppendArgs)
    requires TermsInv(h) && AppendArgsOk(h, a)
    ensures Follows(a.entries, a.prevLogIndex)
    ensures LogOk(h, h.termLog[a.term]) && LogOk(h, Shipped(h, a))
  {
    var l := h.termLog[a.term];
    PrefixOk(h, l, Shipped(h, a));
    forall i | 0 <= i < |a.entries| ensures a.entries[i].index == a.prevLogIndex + 1 + i {
      assert EntryOk(h, l, a.prevLogIndex + 1 + i);
    }
  }

  /** Up to the first conflict the follower already has the leader's log. */
  lemma AgreeBefore(h: History, f: seq<LogEntry>, l: seq<LogEntry>, prev: nat, k: nat)
    requires LogOk(h, f) && LogOk(h, l) && prev <= k && k <= |f| && k <= |l|
    requires TermAt(f, prev) == TermAt(l, prev)
    requires forall j :: prev < j <= k ==> TermAt(f, j) == TermAt(l, j)
    ensures f[..k] == l[..k]
  {
    LogMatching(h, f, l, k);
  }

  /** The request meets the follower's window and its previous entry matches. */
  ghost predicate Fits(h: History, log: seq<LogEntry>, a: AppendArgs) {
    && Based(h, log) && AppendArgsOk(h, a)
    && FirstIndex(log) <= a.prevLogIndex <= LastLog(log).index
    && GetLog(log, a.prevLogIndex).term == a.prevLogTerm
  }

  lemma AgreeToConflict(h: History, log: seq<LogEntry>, a: AppendArgs, i: nat)
    requires TermsInv(h) && Fits(h, log, a) && LogOk(h, Full(h, log))
    requires i == FirstConflict(log, a.prevLogIndex, a.entries, 0)
    ensures a.prevLogIndex + i <= |Full(h, log)|
    ensures Full(h, log)[..a.prevLogIndex + i] == Shipped(h, a)[..a.prevLogIndex + i]
  {
    ShippedFollows(h, a);
    var f, l, prev := Full(h, log), Shipped(h, a), a.prevLogIndex;
    WindowRead(h, log, prev);
    forall j | prev < j <= prev + i ensures TermAt(f, j) == TermAt(l, j) {
      WindowRead(h, log, j);
      assert GetLog(log, prev + 1 + (j - prev - 1)).term == a.entries[j - prev - 1].term;
    }
    hide TermsInv, Fits, Based, Full, LogOk;
    AgreeBefore(h, f, l, prev, prev + i);
  }

  lemma MergeConflict(h: History, log: seq<LogEntry>, a: AppendArgs, i: nat)
    requires TermsInv(h) && Fits(h, log, a) && LogOk(h, Full(h, log)) && Follows(a.entries, a.prevLogIndex)
    requires i == FirstConflict(log, a.prevLogIndex, a.entries, 0) < |a.entries|
    ensures Based(h, MergeLog(log, a.prevLogIndex, a.entries))
    ensures Full(h, MergeLog(log, a.prevLogIndex, a.entries)) == Shipped(h, a)
    ensures !(Shipped(h, a) <= Full(h, log))
  {
    hide *;
    FitsShape(h, log, a);
    AgreeToConflict(h, log, a, i);
    var l, prev, b := Shipped(h, a), a.prevLogIndex, FirstIndex(log);
    MergedWindow(log, prev, a.entries, i);
    SameBase(h, log, log);
    SameBase(h, log, MergeLog(log, prev, a.entries));
    MergeSeq(h.termLog[log[0].term][..b], log, a.entries, l, b, prev, i);
    assert l[prev + i] == a.entries[i];
    MissingEntry(h, log, l, prev + 1 + i);
  }

  lemma FitsShape(h: History, log: seq<LogEntry>, a: AppendArgs)
    requires Fits(h, log, a) && Follows(a.entries, a.prevLogIndex)
    ensures Based(h, log) && Window(log) && |log| > 0 && FirstIndex(log) == log[0].index
    ensures log[0].term in h.termLog && log[0].index <= |h.termLog[log[0].term]|
    ensures FirstIndex(log) <= a.prevLogIndex <= LastLog(log).index == |Full(h, log)| == FirstIndex(log) + |log| - 1
    ensures a.term in h.termLog && a.prevLogIndex + |a.entries| <= |h.termLog[a.term]|
    ensures |Shipped(h, a)| == a.prevLogIndex + |a.entries| && a.entries == Shipped(h, a)[a.prevLogIndex..]
  {
  }

  lemma MergedWindow(log: seq<LogEntry>, prev: nat, entries: seq<LogEntry>, i: nat)
    requires Window(log) && FirstIndex(log) <= prev <= LastLog(log).index && Follows(entries, prev)
    requires i == FirstConflict(log, prev, entries, 0) < |entries|
    ensures prev + 1 + i - FirstIndex(log) <= |log|
    ensures var r := MergeLog(log, prev, entries);
      r == log[..prev + 1 + i - FirstIndex(log)] + entries[i..] && Window(r) && |r| > 0 && r[0] == log[0]
    ensures LastLog(log).index < prev + 1 + i || entries[i].term != GetLog(log, prev + 1 + i).term
  {
  }

  lemma SameBase(h: History, log: seq<LogEntry>, r: seq<LogEntry>)
    requires Based(h, log) && Window(r) && |log| > 0 && |r| > 0 && r[0] == log[0]
    ensures Based(h, r) && log[0].term in h.termLog && log[0].index <= |h.termLog[log[0].term]|
    ensures Full(h, r) == h.termLog[log[0].term][..log[0].index] + r[1..]
  {
  }

  /** What AppendEntries does to the full log, although it only ever sees the window. */
  lemma MergeFull(h: History, log: seq<LogEntry>, a: AppendArgs)
    requires TermsInv(h) && Fits(h, log, a) && LogOk(h, Full(h, log))
    ensures Follows(a.entries, a.prevLogIndex)
    ensures Based(h, MergeLog(log, a.prevLogIndex, a.entries))
    ensures Full(h, MergeLog(log, a.prevLogIndex, a.entries)) == Adopt(Full(h, log), Shipped(h, a))
    ensures FirstConflict(log, a.prevLogIndex, a.entries, 0) == |a.entries| <==> Shipped(h, a) <= Full(h, log)
  {
    ShippedFollows(h, a);
    var i := FirstConflict(log, a.prevLogIndex, a.entries, 0);
    hide TermsInv, LogOk, Committed, Follows, Full;
    if i < |a.entries| {
      MergeConflict(h, log, a, i);
    } else {
      AgreeToConflict(h, log, a, i);
    }
  }

  lemma MissingEntry(h: History, log: seq<LogEntry>, l: seq<LogEntry>, k: nat)
    requires Based(h, log) && FirstIndex(log) < k <= |l|
    requires LastLog(log).index < k || l[k - 1].term != GetLog(log, k).term
    ensures !(l <= Full(h, log))
  {
    if l <= Full(h, log) {
      WindowRead(h, log, k);
    }
  }

  /** Cutting a window at the first difference and appending the rest yields the other list. */
  lemma MergeSeq<T>(pre: seq<T>, window: seq<T>, entries: seq<T>, l: seq<T>, b: nat, prev: nat, i: nat)
    requires |pre| == b && |window| > 0 && b <= prev && i <= |entries|
    requires prev + i <= b + |window| - 1 && |l| == prev + |entries| && entries == l[prev..]
    requires (pre + window[1..])[..prev + i] == l[..prev + i]
    ensures pre + (window[..prev + 1 + i - b] + entries[i..])[1..] == l
  {
    var cut := prev + 1 + i - b;
    assert (window[..cut] + entries[i..])[1..] == window[1..cut] + entries[i..];
    assert pre + window[1..cut] == (pre + window[1..])[..prev + i];
    assert entries[i..] == l[prev + i..];
  }

  // ---------------------------------------------------------------- adopting a leader's log

  lemma AdoptOk(h: History, f: seq<LogEntry>, l: seq<LogEntry>, t: nat)
    requires TermsInv(h) && LogOk(h, f) && Bounded(f, t) && t in h.termLog && l <= h.termLog[t]
    ensures LogOk(h, Adopt(f, l)) && Bounded(Adopt(f, l), t)
  {
    PrefixOk(h, h.termLog[t], l);
  }

  /** A peer in term t loses nothing it acknowledged by following the leader of t. */
  lemma AdoptHolds(h: History, i: nat, f: seq<LogEntry>, l: seq<LogEntry>, t: nat)
    requires AcksInv(h) && CompleteInv(h) && i < |h.term| && h.term[i] == t && Holds(h, i, f)
    requires t in h.termLog && l <= h.termLog[t]
    ensures Holds(h, i, Adopt(f, l))
  {
    forall u: nat, k: nat | Own(h, u, k) && Acked(h, i, u) >= k && Choosable(h, u, k)
      ensures h.termLog[u][..k] <= Adopt(f, l)
    {
      assert (i, u) in h.acked;
      AdoptKeeps(f, l, h.termLog[t], h.termLog[u][..k]);
    }
  }

  lemma AdoptCommitted(h: History, f: seq<LogEntry>, l: seq<LogEntry>, t: nat, k: nat)
    requires CompleteInv(h) && t in h.termLog && l <= h.termLog[t]
    requires k <= |f| && Committed(h, t, f[..k])
    ensures k <= |Adopt(f, l)| && Adopt(f, l)[..k] == f[..k]
  {
    CommittedInLeader(h, t, f[..k], t);
    AdoptKeeps(f, l, h.termLog[t], f[..k]);
  }

  /** Neither the commit index nor what the service has seen is disturbed. */
  lemma AdoptProgress(h: History, s: Node, s': Node, svc: Service, l: seq<LogEntry>)
    requires CompleteInv(h) && Based(h, s.log) && ProgressInv(h, s, svc)
    requires s.currentTerm in h.termLog && l <= h.termLog[s.currentTerm]
    requires Based(h, s'.log) && Full(h, s'.log) == Adopt(Full(h, s.log), l)
    requires s'.currentTerm == s.currentTerm && s'.commitIndex == s.commitIndex && s'.lastApplied == s.lastApplied
    ensures ProgressInv(h, s', svc)
  {
    var f, f' := Full(h, s.log), Full(h, s'.log);
    AdoptCommitted(h, f, l, s.currentTerm, s.commitIndex);
    assert f'[..|svc.applied|] == f'[..s.commitIndex][..|svc.applied|] == f[..|svc.applied|];
  }

  // ---------------------------------------------------------------- accepting entries

  /** The state after the entries are merged, before the commit index moves. */
  function Merged(s: Node, a: AppendArgs): Node
    requires Window(s.log) && Follows(a.entries, a.prevLogIndex)
    requires FirstIndex(s.log) <= a.prevLogIndex <= LastLog(s.log).index
  {
    var s1 := s.(log := MergeLog(s.log, a.prevLogIndex, a.entries));
    if FirstConflict(s.log, a.prevLogIndex, a.entries, 0) < |a.entries| then Persist(s1) else s1
  }

  lemma MergeStorage(h: History, i: nat, s: Node, a: AppendArgs)
    requires HistoryInv(h) && StorageInv(h, i, s) && Fits(h, s.log, a)
    requires i < |h.term| && h.term[i] == s.currentTerm == a.term && Follows(a.entries, a.prevLogIndex)
    ensures StorageInv(h, i, Merged(s, a))
    ensures Full(h, Merged(s, a).log) == Adopt(Full(h, s.log), Shipped(h, a))
  {
    hide *;
    FitsFollows(h, s.log, a);
    ShippedPrefix(h, s.log, a);
    StorageBased(h, i, s);
    var f, l, s', b := Full(h, s.log), Shipped(h, a), Merged(s, a), FirstIndex(s.log);
    HistoryParts(h);
    StorageElim(h, i, s);
    MergeFull(h, s.log, a);
    MergedFields(h, s, a);
    AdoptOk(h, f, l, a.term);
    AdoptHolds(h, i, f, l, a.term);
    AdoptCommitted(h, f, l, a.term, b);
    LogIntro(h, a.term, s'.log, s.snapshot.data, f);
    if !(l <= f) {
      StorageIntro(h, i, s');
    } else {
      SameAdopt(f, l);
      StorageIntro(h, i, s');
    }
  }

  lemma SameAdopt(f: seq<LogEntry>, l: seq<LogEntry>)
    requires l <= f
    ensures Adopt(f, l) == f
  {
  }

  lemma MergedFields(h: History, s: Node, a: AppendArgs)
    requires Window(s.log) && Follows(a.entries, a.prevLogIndex)
    requires FirstIndex(s.log) <= a.prevLogIndex <= LastLog(s.log).index
    ensures var s' := Merged(s, a);
      && s'.log == MergeLog(s.log, a.prevLogIndex, a.entries) && s'.snapshot == s.snapshot
      && FirstIndex(s'.log) == FirstIndex(s.log) && s'.currentTerm == s.currentTerm
      && (if FirstConflict(s.log, a.prevLogIndex, a.entries, 0) == |a.entries|
          then s'.disk == s.disk && s'.log == s.log
          else s'.disk.log == s'.log && s'.disk.data == s.snapshot.data)
  {
  }

  lemma StorageElim(h: History, i: nat, s: Node)
    requires StorageInv(h, i, s)
    ensures Based(h, s.log) && Based(h, s.disk.log)
    ensures LogInv(h, s.currentTerm, s.log, s.snapshot.data) && LogInv(h, s.currentTerm, s.disk.log, s.disk.data)
    ensures LogOk(h, Full(h, s.log)) && Bounded(Full(h, s.log), s.currentTerm)
    ensures Committed(h, s.currentTerm, Full(h, s.log)[..FirstIndex(s.log)])
    ensures s.snapshot.data == Commands(Full(h, s.log)[..FirstIndex(s.log)])
    ensures Holds(h, i, Full(h, s.log)) && Holds(h, i, Full(h, s.disk.log))
    ensures |s.log| == 1 || Full(h, s.disk.log) == Full(h, s.log)
  {
  }

  lemma StorageIntro(h: History, i: nat, s: Node)
    requires LogInv(h, s.currentTerm, s.log, s.snapshot.data) && LogInv(h, s.currentTerm, s.disk.log, s.disk.data)
    requires Based(h, s.log) && Based(h, s.disk.log)
    requires Holds(h, i, Full(h, s.log)) && Holds(h, i, Full(h, s.disk.log))
    requires |s.log| == 1 || Full(h, s.disk.log) == Full(h, s.log)
    ensures StorageInv(h, i, s)
  {
  }

  /** A log whose committed part is that of f. */
  lemma LogIntro(h: History, t: nat, log: seq<LogEntry>, data: seq<Command>, f: seq<LogEntry>)
    requires Based(h, log) && LogOk(h, Full(h, log)) && Bounded(Full(h, log), t)
    requires FirstIndex(log) <= |f| && Full(h, log)[..FirstIndex(log)] == f[..FirstIndex(log)]
    requires Committed(h, t, f[..FirstIndex(log)]) && data == Commands(f[..FirstIndex(log)])
    ensures LogInv(h, t, log, data)
  {
  }

  lemma MergeFacts(h: History, i: nat, s: Node, a: AppendArgs)
    requires Shape(|h.term|, i, s) && BallotInv(h, i, s) && Based(h, s.log) && s.role == Follower
    requires Follows(a.entries, a.prevLogIndex) && FirstIndex(s.log) <= a.prevLogIndex <= LastLog(s.log).index
    requires Based(h, Merged(s, a).log)
    ensures var s' := Merged(s, a);
      && s'.currentTerm == s.currentTerm && s'.commitIndex == s.commitIndex && s'.lastApplied == s.lastApplied
      && Shape(|h.term|, i, s') && BallotInv(h, i, s') && CandidateInv(h, i, s') && LeaderInv(h, i, s')
      && s'.role == Follower
  {
  }

  lemma MergePeer(h: History, i: nat, s: Node, svc: Service, a: AppendArgs)
    requires HistoryInv(h) && PeerInv(h, i, s, svc) && Fits(h, s.log, a)
    requires s.role == Follower && s.currentTerm == a.term
    ensures Follows(a.entries, a.prevLogIndex)
    ensures PeerInv(h, i, Merged(s, a), svc)
    ensures Based(h, Merged(s, a).log) && Full(h, Merged(s, a).log) == Adopt(Full(h, s.log), Shipped(h, a))
  {
    FitsFollows(h, s.log, a);
    var s' := Merged(s, a);
    hide *;
    HistoryParts(h);
    PeerElim(h, i, s, svc);
    MergeStorage(h, i, s, a);
    StorageBased(h, i, s');
    MergeFacts(h, i, s, a);
    ShippedPrefix(h, s.log, a);
    AdoptProgress(h, s, s', svc, Shipped(h, a));
    PeerIntro(h, i, s', svc);
  }

  lemma FitsFollows(h: History, log: seq<LogEntry>, a: AppendArgs)
    requires HistoryInv(h) && Fits(h, log, a)
    ensures Follows(a.entries, a.prevLogIndex)
  {
    ShippedFollows(h, a);
  }

  lemma ShippedPrefix(h: History, log: seq<LogEntry>, a: AppendArgs)
    requires Fits(h, log, a)
    ensures a.term in h.termLog && a.prevLogIndex + |a.entries| <= |h.termLog[a.term]|
    ensures Shipped(h, a) <= h.termLog[a.term]
    ensures Window(log) && FirstIndex(log) <= a.prevLogIndex <= LastLog(log).index
  {
  }

  lemma StorageBased(h: History, i: nat, s: Node)
    requires StorageInv(h, i, s)
    ensures Based(h, s.log) && Based(h, s.disk.log) && |s.log| > 0
  {
  }

  /**
   The follower's clamp to its own last index never bites: the request always reaches past
   the commit index it carries.
   */
  lemma CommitIsUnclamped(h: History, s: Node, a: AppendArgs)
    requires AppendArgsOk(h, a) && Based(h, s.log) && Shipped(h, a) <= Full(h, s.log)
    ensures Min(a.leaderCommit, LastLog(s.log).index) == a.leaderCommit
  {
  }

  lemma AdvanceProgress(h: History, s: Node, svc: Service, a: AppendArgs)
    requires AppendArgsOk(h, a) && Based(h, s.log) && Shipped(h, a) <= Full(h, s.log)
    requires ProgressInv(h, s, svc) && s.currentTerm == a.term && a.leaderCommit > s.commitIndex
    ensures ProgressInv(h, s.(commitIndex := a.leaderCommit), svc)
  {
    assert Full(h, s.log)[..a.leaderCommit] == h.termLog[a.term][..a.leaderCommit];
  }

  lemma AcceptPeer(h: History, i: nat, s: Node, svc: Service, a: AppendArgs)
    requires HistoryInv(h) && PeerInv(h, i, s, svc) && Fits(h, s.log, a)
    requires s.role == Follower && s.currentTerm == a.term
    ensures Follows(a.entries, a.prevLogIndex)
    ensures PeerInv(h, i, AcceptEntries(s, a), svc) && AcceptEntries(s, a).disk == Merged(s, a).disk
    ensures AcceptEntries(s, a).role == Follower && AcceptEntries(s, a).currentTerm == s.currentTerm
    ensures Based(h, AcceptEntries(s, a).log) && Shipped(h, a) <= Full(h, AcceptEntries(s, a).log)
  {
    hide HistoryInv, PeerInv, Shipped, Committed, LogOk, ProgressInv, BallotInv, StorageInv, LeaderInv, CandidateInv;
    MergePeer(h, i, s, svc, a);
    var s1, s2 := Merged(s, a), AcceptEntries(s, a);
    PeerElim(h, i, s1, svc);
    AdoptHasIt(Full(h, s.log), Shipped(h, a));
    if a.leaderCommit > s1.commitIndex {
      CommitIsUnclamped(h, s1, a);
      assert s2 == s1.(commitIndex := a.leaderCommit);
      AdvanceProgress(h, s1, svc, a);
      CommitMoved(h, i, s1, a.leaderCommit);
      PeerIntro(h, i, s2, svc);
    }
  }

  lemma AdoptHasIt(f: seq<LogEntry>, l: seq<LogEntry>)
    ensures l <= Adopt(f, l)
  {
  }

  lemma CommitMoved(h: History, i: nat, s: Node, k: nat)
    requires Shape(|h.term|, i, s) && StorageInv(h, i, s) && BallotInv(h, i, s) && s.role == Follower
    ensures var s' := s.(commitIndex := k);
      && Shape(|h.term|, i, s') && StorageInv(h, i, s') && Based(h, s'.log)
      && BallotInv(h, i, s') && CandidateInv(h, i, s') && LeaderInv(h, i, s')
  {
  }
}
