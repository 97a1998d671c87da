/**
 The rules for servers that labs/src/raft/raft.go implements, each as a law about what a handler
 answers and leaves behind, in terms of terms, indices and logs alone.
 */
module RaftRules {
  import opened RaftNode
  import opened RaftHistory
  import opened RaftCluster
  import opened RaftInvariant
  import opened RaftElection
  import opened RaftVoting
  import opened RaftReplication
  import opened RaftLeading
  import opened RaftSafety
  import opened Sorting

  // ---------------------------------------------------------------- terms

  /** The parts of a peer that hearing of a term must not touch. */
  predicate SameLog(s: Node, s': Node) {
    && s'.log == s.log && s'.snapshot == s.snapshot && s'.me == s.me
    && s'.commitIndex == s.commitIndex && s'.lastApplied == s.lastApplied && s'.applySnapshot == s.applySnapshot
  }

  /** What the disk holds is what a peer remembers of terms, votes and entries. */
  predicate Saved(s: Node) {
    s.disk == Persisted(s.currentTerm, s.votedFor, s.log, s.snapshot.data)
  }

  /** After a request of term t: never in an earlier term, and in a later one as a follower that has saved it. */
  predicate HasHeard(s: Node, t: nat, s': Node) {
    && s'.currentTerm == (if t > s.currentTerm then t else s.currentTerm)
    && (t > s.currentTerm ==> s'.role == Follower && s'.disk.currentTerm == t && s'.disk.votedFor == s'.votedFor)
    && (t < s.currentTerm ==> s' == s)
  }

  /** Vote requests are obeyed, and refused when they come from an earlier term. */
  lemma VoteTerms(s: Node, a: VoteArgs)
    requires |s.log| > 0
    ensures var (s', r) := RequestVote(s, a);
      HasHeard(s, a.term, s') && r.term == s'.currentTerm && (a.term < s.currentTerm ==> !r.voteGranted) && SameLog(s, s')
  {
  }

  /** So are append requests, which also end an election of their own term. */
  lemma AppendTerms(s: Node, a: AppendArgs)
    requires Window(s.log) && Follows(a.entries, a.prevLogIndex)
    ensures var (s', r) := AppendEntries(s, a);
      && HasHeard(s, a.term, s') && r.term == s'.currentTerm && (a.term < s.currentTerm ==> !r.success)
      && (a.term > s.currentTerm ==> s'.votedFor == NA) && (a.term == s.currentTerm && s.role == Candidate ==> s'.role == Follower)
  {
    hide PrevLogConflict, MergeLog, FirstConflict;
  }

  /** And snapshots. */
  lemma InstallTerms(s: Node, a: InstallArgs)
    requires Window(s.log)
    ensures var (s', r) := InstallSnapshot(s, a);
      HasHeard(s, a.term, s') && r.term == s'.currentTerm && (a.term > s.currentTerm ==> s'.votedFor == NA)
  {
  }

  /** So are answers: a peer that waits for them steps down when one names a later term. */
  lemma LaterAnswersDepose(s: Node, j: nat, va: VoteArgs, vr: VoteReply, aa: AppendArgs, ar: AppendReply, ia: InstallArgs, ir: InstallReply)
    requires |s.log| > 0 && AppendReplyOk(s, j, aa, ar) && j < |s.matchIndex| == |s.nextIndex|
    ensures s.role == Candidate && va.term == s.currentTerm && !vr.voteGranted && vr.term > s.currentTerm ==>
      var s' := ProcessVoteReply(s, va, vr); s'.role == Follower && s'.currentTerm == vr.term && s'.votedFor == NA && SameLog(s, s')
    ensures s.role == Leader && aa.term == s.currentTerm && !ar.success && ar.term > s.currentTerm ==>
      var s' := ProcessAppendReply(s, j, aa, ar); s'.role == Follower && s'.currentTerm == ar.term && s'.votedFor == NA && SameLog(s, s')
    ensures s.role == Leader && ia.term == s.currentTerm && ir.term > s.currentTerm ==>
      var s' := ProcessInstallReply(s, j, ia, ir); s'.role == Follower && s'.currentTerm == ir.term && s'.votedFor == NA && SameLog(s, s')
  {
  }

  // ---------------------------------------------------------------- votes

  /**
   A vote is granted exactly to a candidate of a term not behind, when the peer has no vote in that
   term or this candidate has it, and the candidate's last entry is not behind the peer's: its term
   is later, or it is the same and the index is no smaller.
   */
  lemma VoteIff(s: Node, a: VoteArgs)
    requires |s.log| > 0
    ensures var (s', r) := RequestVote(s, a);
      && (r.voteGranted <==>
            && a.term >= s.currentTerm
            && (a.term > s.currentTerm || s.votedFor == NA || s.votedFor == a.candidateId)
            && (a.lastLogTerm > LastLog(s.log).term || (a.lastLogTerm == LastLog(s.log).term && a.lastLogIndex >= LastLog(s.log).index)))
      && (r.voteGranted ==> s'.votedFor == a.candidateId && Saved(s'))
      && (!r.voteGranted && a.term == s.currentTerm ==> s' == s)
      && (!r.voteGranted && a.term > s.currentTerm ==> s'.votedFor == NA && Saved(s'))
  {
  }

  /** An election: the next term, a vote for itself, and a request that tells of its last entry. */
  lemma StandsForNext(s: Node)
    requires |s.log| > 0
    ensures var s' := BecomeCandidate(s);
      && s'.role == Candidate && s'.currentTerm == s.currentTerm + 1 && s'.votedFor == s.me && s'.votes == 1 && SameLog(s, s') && Saved(s')
      && RequestArgs(s') == VoteArgs(s.currentTerm + 1, s.me, s.log[|s.log| - 1].index, s.log[|s.log| - 1].term)
  {
  }

  /** Of any two peers at least one would get the other's vote in a term new to both. */
  lemma OneIsElectable(s: Node, w: Node, t: nat)
    requires |s.log| > 0 && |w.log| > 0 && t > s.currentTerm && t > w.currentTerm
    ensures
      || RequestVote(w, VoteArgs(t, s.me, LastLog(s.log).index, LastLog(s.log).term)).1.voteGranted
      || RequestVote(s, VoteArgs(t, w.me, LastLog(w.log).index, LastLog(w.log).term)).1.voteGranted
  {
  }

  lemma VoteCounts(h: History, net: set<Message>, i: nat, s: Node, m: Message)
    requires m in net && m.VoteResponse? && m.vr.voteGranted && m.va.candidateId == i && m.from < |h.term|
    requires BallotsInFlight(h, net) && Based(h, s.log) && CandidateInv(h, i, s) && |s.matchIndex| == |h.term|
    requires s.role == Candidate && s.currentTerm == m.va.term
    ensures |s.log| > 0
    ensures ProcessVoteReply(s, m.va, m.vr).role == Leader <==> IsQuorum(Tally(h, i, m.va.term) + {m.from}, |h.term|)
    ensures ProcessVoteReply(s, m.va, m.vr).role == Candidate || ProcessVoteReply(s, m.va, m.vr).role == Leader
  {
    var tally := Tally(h, i, m.va.term);
    assert m.from !in tally;
    assert |tally + {m.from}| == s.votes + 1;
  }

  /**
   In every run a granted vote makes its candidate leader exactly when it completes a majority of
   distinct peers.
   */
  lemma MajorityWins(run: seq<Cluster>, actions: seq<Action>, p: nat, m: Message)
    requires IsRun(run, actions) && p < |run| && m in run[p].net && m.VoteResponse? && m.vr.voteGranted && m.va.candidateId < |run[p].nodes|
    requires var s := run[p].nodes[m.va.candidateId]; s.role == Candidate && s.currentTerm == m.va.term
    ensures |run[p].nodes[m.va.candidateId].log| > 0
    ensures ProcessVoteReply(run[p].nodes[m.va.candidateId], m.va, m.vr).role == Leader <==>
      IsQuorum(Tally(run[p].hist, m.va.candidateId, m.va.term) + {m.from}, |run[p].nodes|)
  {
    hide *;
    var (c, i) := (run[p], m.va.candidateId);
    RunInv(run, actions, p);
    InvSize(c);
    InvParts(c, i);
    InvMessage(c, m);
    PeerElim(c.hist, i, c.nodes[i], c.services[i]);
    ShapeSize(|c.hist.term|, i, c.nodes[i]);
    ResponseFrom(c.hist, m);
    VoteCounts(c.hist, c.net, i, c.nodes[i], m);
  }

  lemma ResponseFrom(h: History, m: Message)
    requires MessageInv(h, m) && m.VoteResponse?
    ensures m.from < |h.term|
  {
  }

  /** A new leader expects to send the entries after its last to everyone, and knows of no match. */
  lemma LeaderBegins(s: Node)
    requires |s.log| > 0
    ensures var s' := BecomeLeader(s);
      && s'.role == Leader && s'.currentTerm == s.currentTerm && SameLog(s, s') && s'.disk == s.disk
      && |s'.nextIndex| == |s.nextIndex| && |s'.matchIndex| == |s.matchIndex|
      && (forall j :: 0 <= j < |s'.nextIndex| ==> s'.nextIndex[j] == s.log[|s.log| - 1].index + 1)
      && (forall j :: 0 <= j < |s'.matchIndex| ==> s'.matchIndex[j] == 0)
  {
  }

  // ---------------------------------------------------------------- entries

  /** The log has this index with this term, at its base or in its window. */
  predicate HasTerm(log: seq<LogEntry>, k: int, term: nat) {
    Window(log) && FirstIndex(log) <= k <= LastLog(log).index && log[k - FirstIndex(log)].term == term
  }

  /** An append request is accepted exactly when its term is not behind and the entry before it matches. */
  lemma AppendIff(s: Node, a: AppendArgs)
    requires Window(s.log) && Follows(a.entries, a.prevLogIndex)
    ensures var (s', r) := AppendEntries(s, a);
      && (r.success <==> a.term >= s.currentTerm && HasTerm(s.log, a.prevLogIndex, a.prevLogTerm))
      && (!r.success ==> SameLog(s, s'))
  {
    hide MergeLog, FirstConflict, ConflictStart;
  }

  /**
   What an accepted request leaves: the log is as it was up to its entries, which follow with
   their terms; it is cut behind them only if one of them is new.
   */
  lemma AcceptedLog(s: Node, a: AppendArgs)
    requires Window(s.log) && Follows(a.entries, a.prevLogIndex) && AppendEntries(s, a).1.success
    ensures var (s', prev) := (AppendEntries(s, a).0, a.prevLogIndex);
      && Window(s'.log) && FirstIndex(s'.log) == FirstIndex(s.log) <= prev <= LastLog(s.log).index
      && (forall k :: FirstIndex(s.log) <= k <= prev ==> HasTerm(s'.log, k, GetLog(s.log, k).term) && GetLog(s'.log, k) == GetLog(s.log, k))
      && (forall k :: 0 <= k < |a.entries| ==> HasTerm(s'.log, prev + 1 + k, a.entries[k].term))
      && (if forall k :: 0 <= k < |a.entries| ==> HasTerm(s.log, prev + 1 + k, a.entries[k].term) then s'.log == s.log
          else LastLog(s'.log).index == prev + |a.entries| && Saved(s'))
  {
    hide AppendEntries, MergeLog, FirstConflict, Saved;
    AcceptedIs(s, a);
    MergedTerms(s.log, a.prevLogIndex, a.entries);
    NewEntryIff(s.log, a.prevLogIndex, a.entries);
  }

  lemma AcceptedIs(s: Node, a: AppendArgs)
    requires Window(s.log) && Follows(a.entries, a.prevLogIndex) && AppendEntries(s, a).1.success
    ensures FirstIndex(s.log) <= a.prevLogIndex <= LastLog(s.log).index
    ensures var s' := AppendEntries(s, a).0;
      && s'.log == MergeLog(s.log, a.prevLogIndex, a.entries)
      && (FirstConflict(s.log, a.prevLogIndex, a.entries, 0) < |a.entries| ==> Saved(s'))
  {
    hide MergeLog, FirstConflict, ConflictStart;
  }

  lemma NewEntryIff(log: seq<LogEntry>, prev: nat, entries: seq<LogEntry>)
    requires Window(log) && FirstIndex(log) <= prev <= LastLog(log).index && Follows(entries, prev)
    ensures FirstConflict(log, prev, entries, 0) == |entries| <==>
      forall k :: 0 <= k < |entries| ==> HasTerm(log, prev + 1 + k, entries[k].term)
  {
    var i := FirstConflict(log, prev, entries, 0);
    hide FirstConflict;
    assert i < |entries| ==> !HasTerm(log, prev + 1 + i, entries[i].term);
    forall k | 0 <= k < i ensures HasTerm(log, prev + 1 + k, entries[k].term) {
      assert GetLog(log, prev + 1 + k).term == entries[k].term;
    }
  }

  lemma MergedTerms(log: seq<LogEntry>, prev: nat, entries: seq<LogEntry>)
    requires Window(log) && FirstIndex(log) <= prev <= LastLog(log).index && Follows(entries, prev)
    ensures var r := MergeLog(log, prev, entries);
      && Window(r) && FirstIndex(r) == FirstIndex(log)
      && (forall k :: FirstIndex(log) <= k <= prev ==> HasTerm(r, k, GetLog(log, k).term) && GetLog(r, k) == GetLog(log, k))
      && (forall k :: 0 <= k < |entries| ==> HasTerm(r, prev + 1 + k, entries[k].term))
      && (if FirstConflict(log, prev, entries, 0) == |entries| then r == log else LastLog(r).index == prev + |entries|)
  {
  }

  /** The commit index follows the leader's as far as the log reaches, and never falls. */
  lemma AcceptedCommit(s: Node, a: AppendArgs)
    requires Window(s.log) && Follows(a.entries, a.prevLogIndex) && AppendEntries(s, a).1.success
    ensures var s' := AppendEntries(s, a).0;
      && |s'.log| > 0 && s'.lastApplied == s.lastApplied && s'.snapshot == s.snapshot
      && s'.commitIndex == if a.leaderCommit <= s.commitIndex then s.commitIndex
                           else if a.leaderCommit <= s'.log[|s'.log| - 1].index then a.leaderCommit else s'.log[|s'.log| - 1].index
  {
    hide FirstConflict, PrevLogConflict, MergeLog;
  }

  /** A leader's request: the entry before nextIndex, everything after it, and the commit index. */
  lemma RequestMade(s: Node, j: nat)
    requires Window(s.log) && j < |s.nextIndex| && FirstIndex(s.log) < s.nextIndex[j] <= LastLog(s.log).index + 1
    ensures var a := MakeAppendArgs(s, j);
      && a.term == s.currentTerm && a.leaderId == s.me && a.leaderCommit == s.commitIndex
      && a.prevLogIndex == s.nextIndex[j] - 1 && HasTerm(s.log, a.prevLogIndex, a.prevLogTerm)
      && a.prevLogIndex + |a.entries| == LastLog(s.log).index && Follows(a.entries, a.prevLogIndex)
      && forall k :: 0 <= k < |a.entries| ==> a.entries[k] == GetLog(s.log, a.prevLogIndex + 1 + k)
  {
  }

  /** A leader's new entry is its last, of its term, and saved. */
  lemma StartAppends(s: Node, command: Command)
    requires Window(s.log)
    ensures var s' := Start(s, command);
      && s'.log == s.log + [LogEntry(command, LastLog(s.log).index + 1, s.currentTerm)] && Saved(s')
      && s'.role == s.role && s'.currentTerm == s.currentTerm && s'.votedFor == s.votedFor
      && s'.nextIndex == s.nextIndex && s'.matchIndex == s.matchIndex && s'.commitIndex == s.commitIndex
  {
  }

  // ---------------------------------------------------------------- snapshots

  /**
   A snapshot is taken over exactly when its term is not behind and it goes beyond the base: it is
   the new base, what the log had after a matching entry stays and all else goes, and it will be
   handed to the service.
   */
  lemma InstallIff(s: Node, a: InstallArgs)
    requires Window(s.log)
    ensures var (s', k) := (InstallSnapshot(s, a).0, a.snapshot.lastIncludedIndex);
      if a.term >= s.currentTerm && k > FirstIndex(s.log) then
        && s'.snapshot == a.snapshot && s'.applySnapshot && Window(s'.log) && s'.commitIndex == s.commitIndex && s'.lastApplied == s.lastApplied
        && HasTerm(s'.log, k, a.snapshot.lastIncludedTerm) && FirstIndex(s'.log) == k
        && if HasTerm(s.log, k, a.snapshot.lastIncludedTerm) then
             && LastLog(s'.log).index == LastLog(s.log).index
             && forall x :: k <= x <= LastLog(s.log).index ==> GetLog(s'.log, x) == GetLog(s.log, x)
           else LastLog(s'.log).index == k
      else SameLog(s, s')
  {
  }

  /** Taking a snapshot moves the base up to it, keeps what follows and saves both. */
  lemma SnapshotTrims(s: Node, k: nat, data: seq<Command>)
    requires Window(s.log) && k <= LastLog(s.log).index
    ensures var s' := TakeSnapshot(s, k, data);
      if k <= FirstIndex(s.log) then s' == s
      else
        && Window(s'.log) && FirstIndex(s'.log) == k && LastLog(s'.log).index == LastLog(s.log).index
        && (forall x :: k <= x <= LastLog(s.log).index ==> GetLog(s'.log, x) == GetLog(s.log, x))
        && s'.snapshot == Snapshot(k, GetLog(s.log, k).term, data) && Saved(s')
        && s'.currentTerm == s.currentTerm && s'.role == s.role && s'.commitIndex == s.commitIndex && s'.lastApplied == s.lastApplied
  {
  }

  /** The applier delivers the next command, and stops for good exactly when that entry has been trimmed away. */
  lemma StopsIff(s: Node)
    requires Window(s.log) && s.lastApplied < s.commitIndex <= LastLog(s.log).index
    ensures var (s', d) := ApplyCommand(s);
      && (d.Stop? <==> s.lastApplied < FirstIndex(s.log))
      && (!d.Stop? ==> d == DeliverCommand(s.lastApplied + 1, GetLog(s.log, s.lastApplied + 1).command))
      && s'.lastApplied == s.lastApplied + 1 && s'.commitIndex == s.commitIndex && s'.log == s.log
  {
  }

  /** A snapshot is delivered exactly when it goes beyond what has been applied, and then counts as applied. */
  lemma SnapshotDeliveredIff(s: Node)
    ensures var (s', d) := ApplySnapshot(s);
      && !s'.applySnapshot && s'.log == s.log
      && if s.snapshot.lastIncludedIndex > s.lastApplied then
           d == DeliverSnapshot(s.snapshot.lastIncludedIndex, s.snapshot.data)
           && s'.lastApplied == s'.commitIndex == s.snapshot.lastIncludedIndex
         else d == Nothing && s'.lastApplied == s.lastApplied && s'.commitIndex == s.commitIndex
  {
  }

  /** A restart remembers what was saved and nothing else. */
  lemma RestartRemembers(s: Node, w: Node)
    requires |s.disk.log| > 0 && s.me == w.me && s.disk == w.disk && |s.nextIndex| == |w.nextIndex| && |s.matchIndex| == |w.matchIndex|
    ensures Restart(s) == Restart(w) && Saved(Restart(s)) && Restart(s).role == Follower
    ensures Restart(s).disk == s.disk && Restart(s).lastApplied == Restart(s).commitIndex == s.disk.log[0].index
  {
  }

  // ---------------------------------------------------------------- what followers have

  /** Peer j is known to have the first k entries; nothing known of anyone is taken back. */
  predicate KnowsOf(s: Node, j: nat, k: nat, s': Node)
    requires j < |s.matchIndex| == |s.nextIndex|
  {
    && |s'.matchIndex| == |s'.nextIndex| == |s.nextIndex|
    && s'.matchIndex[j] == (if k > s.matchIndex[j] then k else s.matchIndex[j])
    && s'.nextIndex[j] == (if k + 1 > s.nextIndex[j] then k + 1 else s.nextIndex[j])
    && forall x :: 0 <= x < |s.nextIndex| && x != j ==> s'.matchIndex[x] == s.matchIndex[x] && s'.nextIndex[x] == s.nextIndex[x]
  }

  /** An acknowledged snapshot counts as entries that the follower has. */
  lemma InstallAcknowledged(s: Node, j: nat, a: InstallArgs, r: InstallReply)
    requires j < |s.matchIndex| == |s.nextIndex| && s.role == Leader && s.currentTerm == a.term && r.term <= s.currentTerm
    ensures var s' := ProcessInstallReply(s, j, a, r);
      KnowsOf(s, j, a.snapshot.lastIncludedIndex, s') && SameLog(s, s') && s'.role == Leader && s'.currentTerm == s.currentTerm
  {
  }

  /** With the leader, which does not count itself, a majority is known to have the first k entries. */
  ghost predicate OnMajority(s: Node, k: nat) {
    2 * (|Reaching(s.matchIndex, k, |s.matchIndex|)| + 1) > |s.matchIndex|
  }

  lemma SmallPart(s: seq<nat>, x: nat, k: nat)
    requires k <= |s| && forall i :: 0 <= i < k ==> s[i] < x
    ensures CountAtLeast(s, x) <= |s| - k
  {
    if k > 0 {
      SmallPart(s[1..], x, k - 1);
    } else {
      CountBounded(s, x);
    }
  }

  lemma CountBounded(s: seq<nat>, x: nat)
    ensures CountAtLeast(s, x) <= |s|
  {
  }

  /** The k-th smallest of the numbers reaches x exactly when at least |s| - k of them do. */
  lemma PositionReaches(s: seq<nat>, k: nat, x: nat)
    requires k < |s|
    ensures SortInts(s)[k] >= x <==> CountAtLeast(s, x) >= |s| - k
  {
    var r := SortInts(s);
    SortIntsSorted(s);
    SortIntsCount(s, x);
    if r[k] >= x {
      CountTail(r, x, k);
      AllAtLeast(r[k..], x);
    } else {
      SmallPart(r, x, k + 1);
    }
  }

  lemma CandidateReaches(s: Node, k: nat)
    requires |s.matchIndex| >= 3 && |s.matchIndex| % 2 == 1
    ensures CommitCandidate(s) >= k <==> OnMajority(s, k)
  {
    hide SortInts, CountAtLeast, Reaching;
    var n := |s.matchIndex|;
    PositionReaches(s.matchIndex, n / 2 + 1, k);
    ReachingSize(s.matchIndex, k, n);
    assert s.matchIndex[..n] == s.matchIndex;
  }

  /** Terms never decrease along the leader's window, and none is beyond its own. */
  predicate TermsRise(s: Node) {
    && Window(s.log)
    && (forall x, y :: FirstIndex(s.log) <= x <= y <= LastLog(s.log).index ==> GetLog(s.log, x).term <= GetLog(s.log, y).term)
    && (forall x :: FirstIndex(s.log) <= x <= LastLog(s.log).index ==> GetLog(s.log, x).term <= s.currentTerm)
  }

  lemma CommitRule(s: Node)
    requires CommitReadOk(s) && |s.matchIndex| % 2 == 1 && TermsRise(s)
    ensures var s' := SetCommitIndex(s);
      && s' == s.(commitIndex := s'.commitIndex) && s'.commitIndex >= s.commitIndex
      && (s'.commitIndex > s.commitIndex ==> HasTerm(s.log, s'.commitIndex, s.currentTerm) && OnMajority(s, s'.commitIndex))
      && (forall k: nat :: k > s'.commitIndex && HasTerm(s.log, k, s.currentTerm) ==> !OnMajority(s, k))
  {
    hide OnMajority, CommitCandidate;
    var n := CommitCandidate(s);
    CandidateReaches(s, n);
    forall k: nat | k > SetCommitIndex(s).commitIndex && HasTerm(s.log, k, s.currentTerm) ensures !OnMajority(s, k) {
      CandidateReaches(s, k);
      LaterIsOwn(s, k, n);
    }
  }

  lemma LaterIsOwn(s: Node, k: nat, n: nat)
    requires TermsRise(s) && HasTerm(s.log, k, s.currentTerm)
    ensures k <= n <= LastLog(s.log).index ==> GetLog(s.log, n).term == s.currentTerm
  {
    if k <= n <= LastLog(s.log).index {
      assert GetLog(s.log, k).term <= GetLog(s.log, n).term;
    }
  }

  lemma LeaderTermsRise(h: History, i: nat, s: Node)
    requires TermsInv(h) && StorageInv(h, i, s) && Window(s.log)
    ensures TermsRise(s)
  {
    hide TermsInv, Committed, Holds, LogOk, Full;
    StorageElim(h, i, s);
    var f := Full(h, s.log);
    forall x, y | FirstIndex(s.log) <= x <= y <= LastLog(s.log).index
      ensures GetLog(s.log, x).term <= GetLog(s.log, y).term && GetLog(s.log, y).term <= s.currentTerm
    {
      WindowRead(h, s.log, x);
      WindowRead(h, s.log, y);
      if x > 0 {
        TermsMonotone(h, f, x, y);
      }
    }
  }

  lemma AcknowledgedParts(s: Node, j: nat, a: AppendArgs, r: AppendReply)
    requires AppendReplyOk(s, j, a, r) && s.role == Leader && s.currentTerm == a.term && r.success
    ensures var s1 := UpdateMatchAndNext(s, j, a.prevLogIndex + |a.entries|);
      && CommitReadOk(s1) && ProcessAppendReply(s, j, a, r) == SetCommitIndex(s1)
      && KnowsOf(s, j, a.prevLogIndex + |a.entries|, s1)
      && s1 == s.(matchIndex := s1.matchIndex, nextIndex := s1.nextIndex)
  {
    hide SetCommitIndex, CommitReadOk;
  }

  /**
   In every run an acknowledged append request counts as entries that the follower has, and the
   commit index becomes the greatest index of the leader's own term that is then known to be on a
   majority, if that is greater.
   */
  lemma AcknowledgedCommits(run: seq<Cluster>, actions: seq<Action>, p: nat, m: Message)
    requires IsRun(run, actions) && p < |run| && m in run[p].net && m.AppendResponse? && m.ar.success && m.aa.leaderId < |run[p].nodes|
    requires var s := run[p].nodes[m.aa.leaderId]; s.role == Leader && s.currentTerm == m.aa.term
    ensures var s := run[p].nodes[m.aa.leaderId];
      && AppendReplyOk(s, m.from, m.aa, m.ar)
      && var s' := ProcessAppendReply(s, m.from, m.aa, m.ar);
      && KnowsOf(s, m.from, m.aa.prevLogIndex + |m.aa.entries|, s')
      && s' == s.(matchIndex := s'.matchIndex, nextIndex := s'.nextIndex, commitIndex := s'.commitIndex) && s'.commitIndex >= s.commitIndex
      && (s'.commitIndex > s.commitIndex ==> HasTerm(s.log, s'.commitIndex, s.currentTerm) && OnMajority(s', s'.commitIndex))
      && (forall k: nat :: k > s'.commitIndex && HasTerm(s.log, k, s.currentTerm) ==> !OnMajority(s', k))
  {
    hide *;
    var (c, i) := (run[p], m.aa.leaderId);
    var s := c.nodes[i];
    RunInv(run, actions, p);
    InvSize(c);
    InvOdd(c);
    InvParts(c, i);
    PeerElim(c.hist, i, s, c.services[i]);
    BasedIsWindow(c.hist, s.log);
    ResponseEnabled(c, m);
    AppendResponseSafe(c, m);
    ShapeSize(|c.hist.term|, i, s);
    HistoryParts(c.hist);
    LeaderTermsRise(c.hist, i, s);
    ReplyIndices(s, m.from, m.aa, m.ar);
    AcknowledgedExact(s, m.from, m.aa, m.ar);
  }

  lemma AcknowledgedExact(s: Node, j: nat, a: AppendArgs, r: AppendReply)
    requires AppendReplyOk(s, j, a, r) && s.role == Leader && s.currentTerm == a.term && r.success
    requires TermsRise(s) && |s.matchIndex| % 2 == 1 && j < |s.matchIndex| == |s.nextIndex|
    ensures var s' := ProcessAppendReply(s, j, a, r);
      && KnowsOf(s, j, a.prevLogIndex + |a.entries|, s')
      && s' == s.(matchIndex := s'.matchIndex, nextIndex := s'.nextIndex, commitIndex := s'.commitIndex) && s'.commitIndex >= s.commitIndex
      && (s'.commitIndex > s.commitIndex ==> HasTerm(s.log, s'.commitIndex, s.currentTerm) && OnMajority(s', s'.commitIndex))
      && (forall k: nat :: k > s'.commitIndex && HasTerm(s.log, k, s.currentTerm) ==> !OnMajority(s', k))
  {
    hide AppendReplyOk, ProcessAppendReply, UpdateMatchAndNext, SetCommitIndex, TermsRise, KnowsOf, OnMajority, HasTerm, CommitCandidate;
    AcknowledgedParts(s, j, a, r);
    var s1 := UpdateMatchAndNext(s, j, a.prevLogIndex + |a.entries|);
    RisesStill(s, s1);
    KnowsSize(s, j, a.prevLogIndex + |a.entries|, s1);
    CommitRule(s1);
    SameMatches(s, j, a.prevLogIndex + |a.entries|, s1, SetCommitIndex(s1));
  }

  lemma ReplyIndices(s: Node, j: nat, a: AppendArgs, r: AppendReply)
    requires AppendReplyOk(s, j, a, r)
    ensures j < |s.matchIndex| == |s.nextIndex|
  {
  }

  lemma BasedIsWindow(h: History, log: seq<LogEntry>)
    requires Based(h, log)
    ensures Window(log)
  {
  }

  lemma ResponseEnabled(c: Cluster, m: Message)
    requires m in c.net && m.AppendResponse? && m.aa.leaderId < |c.nodes|
    ensures Enabled(c, HandleAppendResponse(m))
  {
  }

  lemma RisesStill(s: Node, s': Node)
    requires TermsRise(s) && s'.log == s.log && s'.currentTerm == s.currentTerm
    ensures TermsRise(s')
  {
  }

  lemma KnowsSize(s: Node, j: nat, k: nat, s': Node)
    requires j < |s.matchIndex| == |s.nextIndex| && KnowsOf(s, j, k, s')
    ensures |s'.matchIndex| == |s.matchIndex|
  {
  }

  lemma SameMatches(s: Node, j: nat, k: nat, s1: Node, s2: Node)
    requires j < |s.matchIndex| == |s.nextIndex| && KnowsOf(s, j, k, s1) && s2.matchIndex == s1.matchIndex && s2.nextIndex == s1.nextIndex
    ensures KnowsOf(s, j, k, s2) && forall x: nat :: OnMajority(s2, x) <==> OnMajority(s1, x)
  {
  }
}
