/**
 How a leader of labs/src/raft/raft.go finds out where a follower's log agrees with its own: what
 a refused append request tells it, and why it gets there after a bounded number of refusals.
 */
module RaftBackup {
  import opened RaftNode
  import opened RaftHistory
  import opened RaftCluster
  import opened RaftInvariant
  import opened RaftElection
  import opened RaftReplication
  import opened RaftLeading
  import opened RaftSafety
  import opened RaftRules

  /** Both logs retain the index, with the same term. */
  predicate Agree(l: seq<LogEntry>, f: seq<LogEntry>, k: int) {
    && Window(l) && Window(f) && FirstIndex(l) <= k <= LastLog(l).index && FirstIndex(f) <= k <= LastLog(f).index
    && GetLog(l, k).term == GetLog(f, k).term
  }

  // ---------------------------------------------------------------- the two searches

  lemma {:induction false} RunOfTerm(log: seq<LogEntry>, term: nat, index: int)
    requires Window(log) && index <= LastLog(log).index
    ensures forall k :: ConflictStart(log, term, index) <= k <= index && k > FirstIndex(log) ==> GetLog(log, k).term == term
    decreases index
  {
    if index > FirstIndex(log) && GetLog(log, index).term == term {
      RunOfTerm(log, term, index - 1);
    }
  }

  lemma {:induction false} NoneOfTerm(log: seq<LogEntry>, term: int, index: int, minIndex: int)
    requires Window(log) && FirstIndex(log) < minIndex && index <= LastLog(log).index
    ensures var r := SearchBack(log, term, index, minIndex);
      && (forall k :: r <= k <= index && k >= minIndex ==> GetLog(log, k).term != term)
      && (r >= minIndex - 1 || r == index)
    decreases index - minIndex
  {
    if index >= minIndex && GetLog(log, index).term != term {
      NoneOfTerm(log, term, index - 1, minIndex);
    }
  }

  // ---------------------------------------------------------------- one refusal

  /** The leader's copy of the entry before the request's is still the one it named. */
  predicate Names(s: Node, a: AppendArgs) {
    && s.role == Leader && s.currentTerm == a.term && Window(s.log) && |s.nextIndex| == |s.matchIndex|
    && Follows(a.entries, a.prevLogIndex) && a.prevLogIndex <= LastLog(s.log).index
    && (FirstIndex(s.log) <= a.prevLogIndex ==> HasTerm(s.log, a.prevLogIndex, a.prevLogTerm))
  }

  /** The follower does not have the entry before the request's, and is not ahead in terms. */
  predicate Lacks(w: Node, a: AppendArgs) {
    w.currentTerm <= a.term && Window(w.log) && !HasTerm(w.log, a.prevLogIndex, a.prevLogTerm)
  }

  lemma RefusalIs(w: Node, a: AppendArgs)
    requires Lacks(w, a) && Follows(a.entries, a.prevLogIndex)
    ensures var (w', r) := AppendEntries(w, a);
      && !r.success && r.term == a.term == w'.currentTerm && w'.log == w.log
      && (LastLog(w.log).index < a.prevLogIndex ==> r.conflictTerm == NA && r.conflictFirstIndex == LastLog(w.log).index + 1)
      && (FirstIndex(w.log) > a.prevLogIndex ==> r.conflictTerm == NA && r.conflictFirstIndex == FirstIndex(w.log) + 1)
      && (FirstIndex(w.log) <= a.prevLogIndex <= LastLog(w.log).index ==>
            && r.conflictTerm == GetLog(w.log, a.prevLogIndex).term && r.conflictFirstIndex <= a.prevLogIndex
            && forall k :: r.conflictFirstIndex <= k <= a.prevLogIndex && k > FirstIndex(w.log) ==>
                 GetLog(w.log, k).term == r.conflictTerm)
  {
    hide MergeLog, FirstConflict;
    var (f, prev) := (w.log, a.prevLogIndex);
    if FirstIndex(f) <= prev <= LastLog(f).index {
      RunOfTerm(f, GetLog(f, prev).term, prev - 1);
    }
  }

  /** What the leader makes of it. */
  lemma BacksUp(s: Node, j: nat, a: AppendArgs, r: AppendReply)
    requires Names(s, a) && j < |s.nextIndex| && !r.success && r.term <= a.term
    ensures AppendReplyOk(s, j, a, r)
    ensures var s' := ProcessAppendReply(s, j, a, r);
      && s' == s.(nextIndex := s.nextIndex[j := s'.nextIndex[j]])
      && (r.conflictTerm == NA ==> s'.nextIndex[j] == r.conflictFirstIndex)
      && (r.conflictTerm != NA && r.conflictFirstIndex <= a.prevLogIndex ==> s'.nextIndex[j] <= a.prevLogIndex)
      && (NA != r.conflictTerm <= s.currentTerm ==>
            forall k :: s'.nextIndex[j] < k < a.prevLogIndex ==>
              k >= r.conflictFirstIndex && k > FirstIndex(s.log) && GetLog(s.log, k).term != r.conflictTerm)
  {
    if r.conflictTerm != NA && r.conflictTerm <= s.currentTerm {
      NoneOfTerm(s.log, r.conflictTerm, a.prevLogIndex - 1, Max(r.conflictFirstIndex, FirstIndex(s.log) + 1));
    }
  }

  /**
   A refused request of the leader's term.  If the follower's log ends before the entry that should
   precede, or has been trimmed beyond it, the next request asks about the follower's last entry or
   its base.  Otherwise the next request asks about an earlier entry, and passes over no index
   above the follower's base at which the two logs agree, but for the new nextIndex itself.
   */
  lemma RefusalGuides(s: Node, w: Node, j: nat, a: AppendArgs)
    requires Names(s, a) && Lacks(w, a) && j < |s.nextIndex|
    requires forall k :: FirstIndex(w.log) <= k <= LastLog(w.log).index ==> GetLog(w.log, k).term <= a.term
    ensures var r := AppendEntries(w, a).1;
      && !r.success && AppendReplyOk(s, j, a, r)
      && var s' := ProcessAppendReply(s, j, a, r);
      && s' == s.(nextIndex := s.nextIndex[j := s'.nextIndex[j]])
      && (a.prevLogIndex > LastLog(w.log).index ==> s'.nextIndex[j] - 1 == LastLog(w.log).index)
      && (a.prevLogIndex < FirstIndex(w.log) ==> s'.nextIndex[j] - 1 == FirstIndex(w.log))
      && (a.prevLogIndex >= FirstIndex(w.log) ==> s'.nextIndex[j] <= a.prevLogIndex)
      && (forall k :: s'.nextIndex[j] < k <= a.prevLogIndex && k > FirstIndex(w.log) ==> !Agree(s.log, w.log, k))
  {
    hide AppendEntries, ProcessAppendReply, AppendReplyOk;
    RefusalIs(w, a);
    var r := AppendEntries(w, a).1;
    BacksUp(s, j, a, r);
    var next := ProcessAppendReply(s, j, a, r).nextIndex[j];
    forall k | next < k <= a.prevLogIndex && k > FirstIndex(w.log) ensures !Agree(s.log, w.log, k) {
      if k == a.prevLogIndex && FirstIndex(s.log) <= k {
        assert HasTerm(s.log, k, a.prevLogTerm);
      }
    }
  }

  // ---------------------------------------------------------------- the index that may be passed over

  /** From k up to the refused index the follower's entries are all of the refused entry's term. */
  predicate InRun(f: seq<LogEntry>, k: int, prev: nat) {
    && Window(f) && FirstIndex(f) < k <= prev <= LastLog(f).index
    && forall x :: k <= x <= prev ==> GetLog(f, x).term == GetLog(f, prev).term
  }

  lemma {:induction false} RunStarts(log: seq<LogEntry>, term: nat, index: int, k: int)
    requires Window(log) && index <= LastLog(log).index && FirstIndex(log) < k <= index + 1
    requires forall x :: k <= x <= index ==> GetLog(log, x).term == term
    ensures ConflictStart(log, term, index) <= k
    decreases index
  {
    if index > FirstIndex(log) && GetLog(log, index).term == term && k <= index {
      RunStarts(log, term, index - 1, k);
    }
  }

  lemma {:induction false} FoundOrNone(log: seq<LogEntry>, term: int, index: int, minIndex: int)
    requires Window(log) && FirstIndex(log) < minIndex && index <= LastLog(log).index
    ensures var r := SearchBack(log, term, index, minIndex);
      || (minIndex < r <= index + 1 && GetLog(log, r - 1).term == term)
      || (r <= index && forall k :: minIndex <= k <= index ==> GetLog(log, k).term != term)
    decreases index - minIndex
  {
    if index >= minIndex && GetLog(log, index).term != term {
      FoundOrNone(log, term, index - 1, minIndex);
    }
  }

  /**
   The two logs can agree at the new nextIndex itself, above the follower's base, only if the leader
   has no entry of the refused entry's term anywhere in the follower's run of that term.
   */
  lemma PassedOverOnlyIf(s: Node, w: Node, j: nat, a: AppendArgs, k: int)
    requires Names(s, a) && Lacks(w, a) && j < |s.nextIndex| && FirstIndex(w.log) <= a.prevLogIndex <= LastLog(w.log).index
    requires GetLog(w.log, a.prevLogIndex).term <= s.currentTerm
    ensures AppendReplyOk(s, j, a, AppendEntries(w, a).1)
    ensures var next := ProcessAppendReply(s, j, a, AppendEntries(w, a).1).nextIndex[j];
      Agree(s.log, w.log, next) && next > FirstIndex(w.log) && k > FirstIndex(s.log) && InRun(w.log, k, a.prevLogIndex) && k < a.prevLogIndex ==>
      GetLog(s.log, k).term != GetLog(w.log, a.prevLogIndex).term
  {
    hide AppendEntries;
    RefusalIs(w, a);
    RefusedStart(w, a);
    var prev: int := a.prevLogIndex;
    var (f, r) := (w.log, AppendEntries(w, a).1);
    var (term, least) := (GetLog(f, prev).term, Max(r.conflictFirstIndex, FirstIndex(s.log) + 1));
    FoundOrNone(s.log, term, prev - 1, least);
    NoneOfTerm(s.log, term, prev - 1, least);
    if InRun(f, k, a.prevLogIndex) && k < prev {
      RunStarts(f, term, prev - 1, k);
    }
  }

  lemma RefusedStart(w: Node, a: AppendArgs)
    requires Lacks(w, a) && Follows(a.entries, a.prevLogIndex) && FirstIndex(w.log) <= a.prevLogIndex <= LastLog(w.log).index
    ensures AppendEntries(w, a).1.conflictFirstIndex == ConflictStart(w.log, GetLog(w.log, a.prevLogIndex).term, a.prevLogIndex - 1)
  {
    hide MergeLog, FirstConflict, ConflictStart;
  }

  /** And then it can: the leader asks about entry 0 next, although the logs agree at entry 1. */
  lemma PassesOver(x: Command, y: Command, z: Command, s: Node, w: Node, j: nat)
    requires s.role == Leader && s.currentTerm == 3 && j < |s.nextIndex| == |s.matchIndex| && w.currentTerm <= 3
    requires s.log == [LogEntry(Nil, 0, 0), LogEntry(x, 1, 1), LogEntry(y, 2, 3)]
    requires w.log == [LogEntry(Nil, 0, 0), LogEntry(x, 1, 1), LogEntry(z, 2, 2)]
    ensures var a := AppendArgs(3, s.me, 2, 3, [], 0);
      && Names(s, a) && Lacks(w, a) && AppendReplyOk(s, j, a, AppendEntries(w, a).1)
      && ProcessAppendReply(s, j, a, AppendEntries(w, a).1).nextIndex[j] == 1 && Agree(s.log, w.log, 1)
  {
    var a := AppendArgs(3, s.me, 2, 3, [], 0);
    assert ConflictStart(w.log, 2, 1) == 2;
    RefusalIs(w, a);
    RefusedStart(w, a);
    hide AppendEntries;
  }

  // ---------------------------------------------------------------- how many refusals

  /** The follower's base is an entry of the leader's log, unless the leader has trimmed it too. */
  predicate BaseAgrees(l: seq<LogEntry>, f: seq<LogEntry>) {
    && Window(l) && Window(f) && FirstIndex(f) <= LastLog(l).index
    && (FirstIndex(l) <= FirstIndex(f) ==> Agree(l, f, FirstIndex(f)))
  }

  /** A leader and a follower that is not ahead of it in terms. */
  predicate Pair(s: Node, w: Node, j: nat) {
    && s.role == Leader && Window(s.log) && j < |s.nextIndex| == |s.matchIndex| && s.nextIndex[j] <= LastLog(s.log).index + 1
    && w.currentTerm <= s.currentTerm && BaseAgrees(s.log, w.log)
    && forall k :: FirstIndex(w.log) <= k <= LastLog(w.log).index ==> GetLog(w.log, k).term <= s.currentTerm
  }

  /** The leader's next message to the follower is a snapshot. */
  predicate Installs(s: Node, j: nat)
    requires Window(s.log) && j < |s.nextIndex|
  {
    s.nextIndex[j] <= FirstIndex(s.log)
  }

  /**
   Sending, refusing and hearing back, over and over, with a follower that does nothing else: after
   at most n requests one is accepted, or the leader turns to a snapshot.
   */
  ghost predicate AcceptedWithin(s: Node, w: Node, j: nat, n: nat)
    requires Pair(s, w, j)
    decreases n
  {
    Installs(s, j) ||
    (n > 0 && (
      var a := MakeAppendArgs(s, j);
      RequestMade(s, j);
      var (w', r) := AppendEntries(w, a);
      r.success || (AppendReplyOk(s, j, a, r) && Pair(ProcessAppendReply(s, j, a, r), w', j)
                    && AcceptedWithin(ProcessAppendReply(s, j, a, r), w', j, n - 1))))
  }

  /** One exchange: accepted exactly where the logs agree, and otherwise the pair goes on. */
  lemma Exchange(s: Node, w: Node, j: nat)
    requires Pair(s, w, j) && !Installs(s, j)
    ensures var a := MakeAppendArgs(s, j);
      && Follows(a.entries, a.prevLogIndex) && a.prevLogIndex == s.nextIndex[j] - 1
      && var (w', r) := AppendEntries(w, a);
      && (r.success <==> Agree(s.log, w.log, s.nextIndex[j] - 1))
      && (!r.success ==>
            && AppendReplyOk(s, j, a, r)
            && var s' := ProcessAppendReply(s, j, a, r);
            && Pair(s', w', j) && s'.log == s.log && w'.log == w.log
            && (if s.nextIndex[j] - 1 < FirstIndex(w.log) then s'.nextIndex[j] - 1 == FirstIndex(w.log)
                else s'.nextIndex[j] < s.nextIndex[j]))
  {
    hide AppendEntries, ProcessAppendReply, AppendReplyOk, MakeAppendArgs;
    RequestMade(s, j);
    var a := MakeAppendArgs(s, j);
    AppendIff(w, a);
    if !AppendEntries(w, a).1.success {
      RefusalIs(w, a);
      RefusalGuides(s, w, j, a);
    }
  }

  ghost function Rank(s: Node, w: Node, j: nat): nat
    requires Pair(s, w, j)
  {
    if s.nextIndex[j] - 1 < FirstIndex(w.log) then 2 else s.nextIndex[j] - FirstIndex(w.log) + 2
  }

  lemma AtTheBase(s: Node, w: Node, j: nat)
    requires Pair(s, w, j) && !Installs(s, j)
    ensures Window(w.log) && (s.nextIndex[j] - 1 == FirstIndex(w.log) ==> Agree(s.log, w.log, s.nextIndex[j] - 1))
  {
  }

  lemma {:induction false} RefusalsEnd(s: Node, w: Node, j: nat, n: nat)
    requires Pair(s, w, j)
    requires n >= Rank(s, w, j) || (n >= 1 && s.nextIndex[j] - 1 == FirstIndex(w.log))
    ensures AcceptedWithin(s, w, j, n)
    decreases n
  {
    hide AppendEntries, ProcessAppendReply, AppendReplyOk, MakeAppendArgs, Agree, BaseAgrees;
    if !Installs(s, j) {
      AtTheBase(s, w, j);
      Exchange(s, w, j);
      var a := MakeAppendArgs(s, j);
      var (w', r) := AppendEntries(w, a);
      if !r.success {
        RefusalsEnd(ProcessAppendReply(s, j, a, r), w', j, n - 1);
      }
    }
  }

  // ---------------------------------------------------------------- over runs

  lemma BaseInLeader(h: History, i: nat, s: Node, j: nat, w: Node)
    requires TermsInv(h) && CompleteInv(h) && StorageInv(h, i, s) && StorageInv(h, j, w) && Window(s.log) && Window(w.log)
    requires Based(h, s.log) && LeaderInv(h, i, s) && s.role == Leader && w.currentTerm <= s.currentTerm
    ensures BaseAgrees(s.log, w.log)
  {
    hide TermsInv, CompleteInv, StorageInv, Committed, LogOk, Holds, Full, Based;
    StorageElim(h, i, s);
    StorageElim(h, j, w);
    LeaderLog(h, i, s);
    var (f, g, k) := (Full(h, s.log), Full(h, w.log), FirstIndex(w.log));
    CommittedInLeader(h, w.currentTerm, g[..k], s.currentTerm);
    if FirstIndex(s.log) <= k {
      WindowRead(h, s.log, k);
      WindowRead(h, w.log, k);
      assert k > 0 ==> g[..k][k - 1] == f[k - 1];
    }
  }

  lemma LeaderLog(h: History, i: nat, s: Node)
    requires Based(h, s.log) && LeaderInv(h, i, s) && s.role == Leader
    ensures s.currentTerm in h.termLog && h.termLog[s.currentTerm] == Full(h, s.log)
    ensures |Full(h, s.log)| == LastLog(s.log).index
    ensures |s.nextIndex| == |s.matchIndex| && forall j :: 0 <= j < |s.nextIndex| ==> s.nextIndex[j] <= LastLog(s.log).index + 1
  {
  }

  /**
   In every run, from every moment, a leader that talks to a follower of no later term has a
   request accepted or turns to a snapshot after at most as many requests as it has entries, and
   three more.
   */
  lemma FollowerIsFound(run: seq<Cluster>, actions: seq<Action>, p: nat, i: nat, j: nat)
    requires IsRun(run, actions) && p < |run| && i < |run[p].nodes| && j < |run[p].nodes|
    requires run[p].nodes[i].role == Leader && run[p].nodes[j].currentTerm <= run[p].nodes[i].currentTerm
    ensures Pair(run[p].nodes[i], run[p].nodes[j], j)
    ensures AcceptedWithin(run[p].nodes[i], run[p].nodes[j], j, LastLog(run[p].nodes[i].log).index + 3)
  {
    hide *;
    var c := run[p];
    var (s, w, h) := (c.nodes[i], c.nodes[j], c.hist);
    RunInv(run, actions, p);
    InvSize(c);
    InvParts(c, i);
    InvParts(c, j);
    PeerElim(h, i, s, c.services[i]);
    PeerElim(h, j, w, c.services[j]);
    HistoryParts(h);
    BasedIsWindow(h, s.log);
    BasedIsWindow(h, w.log);
    BaseInLeader(h, i, s, j, w);
    LeaderLog(h, i, s);
    ShapeSize(|h.term|, i, s);
    LeaderTermsRise(h, j, w);
    IsPair(s, w, j);
    RankBound(s, w, j);
    RefusalsEnd(s, w, j, LastLog(s.log).index + 3);
  }

  lemma IsPair(s: Node, w: Node, j: nat)
    requires s.role == Leader && Window(s.log) && j < |s.nextIndex| == |s.matchIndex| && s.nextIndex[j] <= LastLog(s.log).index + 1
    requires w.currentTerm <= s.currentTerm && BaseAgrees(s.log, w.log) && TermsRise(w)
    ensures Pair(s, w, j)
  {
  }

  lemma RankBound(s: Node, w: Node, j: nat)
    requires Pair(s, w, j)
    ensures |s.log| > 0 && Rank(s, w, j) <= LastLog(s.log).index + 3
  {
  }
}
