/** What a leader does: proposing, sending, hearing back and committing keep the invariant. */
module RaftLeading {
  import opened RaftNode
  import opened RaftHistory
  import opened RaftCluster
  import opened RaftInvariant
  import opened RaftElection
  import opened RaftVoting
  import opened RaftReplication
  import opened Sorting

  // ---------------------------------------------------------------- the commit index rule

  function CountAtLeast(s: seq<nat>, x: nat): nat {
    if s == [] then 0 else (if s[0] >= x then 1 else 0) + CountAtLeast(s[1..], x)
  }

  lemma {:induction false} InsertCount(x: nat, s: seq<nat>, y: nat)
    ensures CountAtLeast(Insert(x, s), y) == (if x >= y then 1 else 0) + CountAtLeast(s, y)
  {
    if s == [] || x <= s[0] {
      assert ([x] + s)[1..] == s;
    } else {
      InsertCount(x, s[1..], y);
      assert ([s[0]] + Insert(x, s[1..]))[1..] == Insert(x, s[1..]);
    }
  }

  lemma {:induction false} SortIntsCount(s: seq<nat>, y: nat)
    ensures CountAtLeast(SortInts(s), y) == CountAtLeast(s, y)
  {
    if s != [] {
      SortIntsCount(s[1..], y);
      InsertCount(s[0], SortInts(s[1..]), y);
    }
  }

  lemma AllAtLeast(s: seq<nat>, x: nat)
    requires forall i :: 0 <= i < |s| ==> s[i] >= x
    ensures CountAtLeast(s, x) == |s|
  {
  }

  lemma CountTail(s: seq<nat>, x: nat, k: nat)
    requires k <= |s|
    ensures CountAtLeast(s, x) >= CountAtLeast(s[k..], x)
  {
    if k > 0 {
      CountTail(s[1..], x, k - 1);
      assert s[1..][k - 1..] == s[k..];
    }
  }

  /** At least |s| - k of the numbers reach the k-th smallest. */
  lemma {:induction false} SortedPosition(s: seq<nat>, k: nat)
    requires k < |s|
    ensures CountAtLeast(s, SortInts(s)[k]) >= |s| - k
  {
    SortIntsSorted(s);
    SortIntsCount(s, SortInts(s)[k]);
    var r := SortInts(s);
    CountTail(r, r[k], k);
    AllAtLeast(r[k..], r[k]);
  }

  /** The positions below n whose number reaches x. */
  function Reaching(s: seq<nat>, x: nat, n: nat): (r: set<nat>)
    requires n <= |s|
    ensures forall j: nat :: j in r <==> j < n && s[j] >= x
  {
    if n == 0 then {} else Reaching(s, x, n - 1) + if s[n - 1] >= x then {n - 1} else {}
  }

  lemma {:induction false} ReachingSize(s: seq<nat>, x: nat, n: nat)
    requires n <= |s|
    ensures |Reaching(s, x, n)| == CountAtLeast(s[..n], x)
  {
    if n > 0 {
      ReachingSize(s, x, n - 1);
      CountSnoc(s[..n - 1], s[n - 1], x);
      assert s[..n] == s[..n - 1] + [s[n - 1]];
    }
  }

  lemma CountSnoc(s: seq<nat>, e: nat, x: nat)
    ensures CountAtLeast(s + [e], x) == CountAtLeast(s, x) + (if e >= x then 1 else 0)
  {
    if s != [] {
      assert (s + [e])[1..] == s[1..] + [e];
      CountSnoc(s[1..], e, x);
    } else {
      assert s + [e] == [e];
    }
  }

  /**
   For odd n, the entry at position n/2+1 of the sorted match indices is reached by at least
   n/2 followers; the leader's own slot is zero, so with the leader they are a majority.
   */
  lemma CommitQuorum(s: Node, i: nat, q: set<nat>)
    requires |s.matchIndex| >= 3 && |s.matchIndex| % 2 == 1 && i < |s.matchIndex| && s.matchIndex[i] == 0
    requires CommitCandidate(s) > 0
    requires q == Reaching(s.matchIndex, CommitCandidate(s), |s.matchIndex|)
    ensures i !in q && IsQuorum(q + {i}, |s.matchIndex|) && q <= Peers(|s.matchIndex|)
  {
    var n := |s.matchIndex|;
    SortedPosition(s.matchIndex, n / 2 + 1);
    ReachingSize(s.matchIndex, CommitCandidate(s), n);
    assert s.matchIndex[..n] == s.matchIndex;
    assert |q| >= n - (n / 2 + 1);
    assert |q + {i}| == |q| + 1;
  }

  /** The candidate is one of the match indices. */
  lemma CandidateIsMatch(s: Node) returns (j: nat)
    requires |s.matchIndex| >= 3
    ensures j < |s.matchIndex| && s.matchIndex[j] == CommitCandidate(s)
  {
    SortIntsSorted(s.matchIndex);
    var r := SortInts(s.matchIndex);
    assert r[|s.matchIndex| / 2 + 1] in multiset(r);
    assert CommitCandidate(s) in multiset(s.matchIndex);
    j :| 0 <= j < |s.matchIndex| && s.matchIndex[j] == CommitCandidate(s);
  }

  /** Reading the candidate's entry never leaves the retained window. */
  lemma CommitReadInWindow(h: History, i: nat, s: Node)
    requires Shape(|h.term|, i, s) && |h.term| >= 3 && Based(h, s.log) && LeaderInv(h, i, s) && s.role == Leader
    ensures CommitReadOk(s)
  {
    var j := CandidateIsMatch(s);
    assert Matched(h, j, s.currentTerm, s.matchIndex[j]);
  }

  lemma QuorumChooses(h: History, t: nat, k: nat, q: set<nat>)
    requires Own(h, t, k) && q <= Peers(|h.term|) && IsQuorum(q, |h.term|)
    requires forall v :: v in q ==> Acked(h, v, t) >= k
    ensures Committed(h, t, h.termLog[t][..k])
  {
    IdLists.SubsetSize(q, Ackers(h, t, k));
    assert Chosen(h, t, k);
    assert h.termLog[t][..k] <= h.termLog[t][..k];
  }

  lemma MatchCommits(h: History, v: nat, t: nat, m: nat, k: nat)
    requires Matched(h, v, t, m) && Acked(h, v, t) < k <= m
    ensures k <= |h.termLog[t]| && Committed(h, t, h.termLog[t][..k])
  {
    CommittedPrefix(h, t, h.termLog[t][..m], h.termLog[t][..k], t);
  }

  lemma OwnCandidate(h: History, i: nat, s: Node)
    requires Shape(|h.term|, i, s) && Based(h, s.log) && LeaderInv(h, i, s) && s.role == Leader && CommitReadOk(s)
    requires CommitCandidate(s) > s.commitIndex && GetLog(s.log, CommitCandidate(s)).term == s.currentTerm
    ensures s.currentTerm in h.termLog && h.termLog[s.currentTerm] == Full(h, s.log)
    ensures Own(h, s.currentTerm, CommitCandidate(s)) && Acked(h, i, s.currentTerm) >= CommitCandidate(s)
    ensures |s.matchIndex| == |h.term| && s.matchIndex[i] == 0
    ensures forall j :: 0 <= j < |s.matchIndex| ==> Matched(h, j, s.currentTerm, s.matchIndex[j])
  {
    var k := CommitCandidate(s);
    WindowRead(h, s.log, k);
    assert Own(h, s.currentTerm, k);
  }

  /** What the commit rule accepts is committed. */
  lemma CommitRuleSound(h: History, i: nat, s: Node)
    requires Shape(|h.term|, i, s) && |h.term| >= 3 && |h.term| % 2 == 1 && i < |h.term|
    requires Based(h, s.log) && LeaderInv(h, i, s) && s.role == Leader && CommitReadOk(s)
    requires CommitCandidate(s) > s.commitIndex && GetLog(s.log, CommitCandidate(s)).term == s.currentTerm
    ensures CommitCandidate(s) <= |Full(h, s.log)|
    ensures Committed(h, s.currentTerm, Full(h, s.log)[..CommitCandidate(s)])
  {
    hide Shape, Based, LeaderInv, CommitReadOk, CommitCandidate, Committed, Matched, IsQuorum;
    OwnCandidate(h, i, s);
    var n, k, t := |h.term|, CommitCandidate(s), s.currentTerm;
    var q := Reaching(s.matchIndex, k, n);
    CommitQuorum(s, i, q);
    if j :| j in q && Acked(h, j, t) < k {
      MatchCommits(h, j, t, s.matchIndex[j], k);
    } else {
      QuorumChooses(h, t, k, q + {i});
    }
  }

  // ---------------------------------------------------------------- hearing back

  lemma MatchFacts(h: History, i: nat, s: Node, j: nat, k: nat)
    requires Shape(|h.term|, i, s) && BallotInv(h, i, s) && Based(h, s.log) && LeaderInv(h, i, s) && s.role == Leader
    requires j < |h.term| && j != i && Matched(h, j, s.currentTerm, k) && k >= h.openBase[s.currentTerm]
    ensures var s' := UpdateMatchAndNext(s, j, k);
      && Shape(|h.term|, i, s') && BallotInv(h, i, s') && CandidateInv(h, i, s') && LeaderInv(h, i, s')
  {
  }

  lemma LeaderTouch(h: History, i: nat, s: Node, s': Node, svc: Service)
    requires PeerInv(h, i, s, svc)
    requires s'.currentTerm == s.currentTerm && s'.log == s.log && s'.snapshot == s.snapshot && s'.disk == s.disk
    requires s'.commitIndex == s.commitIndex && s'.lastApplied == s.lastApplied
    requires Shape(|h.term|, i, s') && BallotInv(h, i, s')
    requires Based(h, s'.log) && CandidateInv(h, i, s') && LeaderInv(h, i, s')
    ensures PeerInv(h, i, s', svc)
  {
    hide *;
    PeerElim(h, i, s, svc);
    StorageSame(h, i, s, s');
    ProgressLater(h, s, s', svc);
    PeerIntro(h, i, s', svc);
  }

  lemma MatchPeer(h: History, i: nat, s: Node, svc: Service, j: nat, k: nat)
    requires PeerInv(h, i, s, svc) && s.role == Leader && s.currentTerm in h.openBase
    requires j < |h.term| && j != i && Matched(h, j, s.currentTerm, k) && k >= h.openBase[s.currentTerm]
    ensures j < |s.matchIndex| == |s.nextIndex|
    ensures PeerInv(h, i, UpdateMatchAndNext(s, j, k), svc) && UpdateMatchAndNext(s, j, k).role == Leader
  {
    hide PeerInv, StorageInv, ProgressInv, BallotInv, CandidateInv, LeaderInv, Based, Matched;
    PeerElim(h, i, s, svc);
    MatchFacts(h, i, s, j, k);
    LeaderTouch(h, i, s, UpdateMatchAndNext(s, j, k), svc);
  }

  lemma CommitPeer(h: History, i: nat, s: Node, svc: Service)
    requires PeerInv(h, i, s, svc) && s.role == Leader && |h.term| >= 3 && |h.term| % 2 == 1
    ensures CommitReadOk(s) && PeerInv(h, i, SetCommitIndex(s), svc)
  {
    hide PeerInv, StorageInv, ProgressInv, BallotInv, CandidateInv, LeaderInv, Based, Committed, CommitCandidate;
    PeerElim(h, i, s, svc);
    CommitReadInWindow(h, i, s);
    var k := CommitCandidate(s);
    if k > s.commitIndex && GetLog(s.log, k).term == s.currentTerm {
      CommitRuleSound(h, i, s);
      var s' := s.(commitIndex := k);
      RaisedCommit(h, i, s, svc, k);
      StorageSame(h, i, s, s');
      PeerIntro(h, i, s', svc);
    }
  }

  lemma RaisedCommit(h: History, i: nat, s: Node, svc: Service, k: nat)
    requires Shape(|h.term|, i, s) && BallotInv(h, i, s) && Based(h, s.log) && s.role == Leader
    requires CandidateInv(h, i, s) && LeaderInv(h, i, s) && ProgressInv(h, s, svc)
    requires s.commitIndex <= k <= |Full(h, s.log)| && Committed(h, s.currentTerm, Full(h, s.log)[..k])
    ensures var s' := s.(commitIndex := k);
      && Shape(|h.term|, i, s') && BallotInv(h, i, s') && CandidateInv(h, i, s') && LeaderInv(h, i, s')
      && ProgressInv(h, s', svc)
  {
  }

  /** A step that changes only peer i, and neither its term nor its storage. */
  lemma TouchInv(c: Cluster, i: nat, s: Node)
    requires Inv(c) && i < |c.nodes| == |c.services| && PeerInv(c.hist, i, s, c.services[i])
    ensures |c.nodes| == |c.hist.term| && Inv(Move(c, i, s, c.hist, {}, {}))
  {
    hide *;
    InvSize(c);
    InvParts(c, i);
    PeerElim(c.hist, i, s, c.services[i]);
    SameHistory(c.hist, i);
    NoMessage(c.net);
    AssembleMove(c, i, s, c.hist, {}, {});
  }

  lemma NoMessage(net: set<Message>)
    ensures net - {} + {} == net
  {
  }

  lemma BackFacts(h: History, i: nat, s: Node, j: nat, next: int)
    requires Shape(|h.term|, i, s) && BallotInv(h, i, s) && Based(h, s.log) && LeaderInv(h, i, s) && s.role == Leader
    requires j < |h.term| && next <= LastLog(s.log).index + 1
    ensures var s' := s.(nextIndex := s.nextIndex[j := next]);
      && Shape(|h.term|, i, s') && BallotInv(h, i, s') && CandidateInv(h, i, s') && LeaderInv(h, i, s')
  {
  }

  lemma LeaderArgs(h: History, i: nat, s: Node, term: nat)
    requires Based(h, s.log) && LeaderInv(h, i, s) && s.role == Leader && s.currentTerm == term
    ensures term in h.openBase && term in h.termLog && |h.termLog[term]| == LastLog(s.log).index
    ensures |s.matchIndex| == |s.nextIndex|
  {
  }

  lemma ResponseParts(h: History, m: Message)
    requires m.AppendResponse? && MessageInv(h, m)
    ensures m.from < |h.term| && m.from != m.aa.leaderId && m.aa.term in h.openBase && m.aa.term in h.termLog
    ensures h.openBase[m.aa.term] <= m.aa.prevLogIndex
    ensures m.aa.prevLogIndex + |m.aa.entries| <= |h.termLog[m.aa.term]|
    ensures m.ar.success ==> Matched(h, m.from, m.aa.term, m.aa.prevLogIndex + |m.aa.entries|)
    ensures !m.ar.success && m.ar.term <= m.aa.term ==> m.ar.conflictFirstIndex <= |h.termLog[m.aa.term]| + 1
  {
  }

  /** The leader always finds what it reads while handling a reply. */
  lemma AppendResponseSafe(c: Cluster, m: Message)
    requires Inv(c) && Enabled(c, HandleAppendResponse(m))
    ensures AppendReplyOk(c.nodes[m.aa.leaderId], m.from, m.aa, m.ar)
  {
    hide Inv, HistoryInv, PeerInv, StorageInv, ProgressInv, BallotInv, CandidateInv, LeaderInv, Based, Matched, MessageInv,
         CommitCandidate;
    var i, h := m.aa.leaderId, c.hist;
    var s, k := c.nodes[i], m.aa.prevLogIndex + |m.aa.entries|;
    InvSize(c);
    InvOdd(c);
    InvParts(c, i);
    InvMessage(c, m);
    PeerElim(h, i, s, c.services[i]);
    ResponseParts(h, m);
    if s.currentTerm == m.aa.term && s.role == Leader {
      LeaderArgs(h, i, s, m.aa.term);
      if m.ar.success {
        MatchPeer(h, i, s, c.services[i], m.from, k);
        CommitPeer(h, i, UpdateMatchAndNext(s, m.from, k), c.services[i]);
      }
    }
  }

  lemma InvOdd(c: Cluster)
    requires Inv(c)
    ensures |c.hist.term| >= 3 && |c.hist.term| % 2 == 1
  {
  }

  lemma AppendResponseInv(c: Cluster, m: Message)
    requires Inv(c) && WellFormed(c) && Enabled(c, HandleAppendResponse(m)) && NoPanic(c, HandleAppendResponse(m))
    ensures Inv(Step(c, HandleAppendResponse(m)))
  {
    hide Inv, WellFormed, HistoryInv, PeerInv, StorageInv, ProgressInv, BallotInv, CandidateInv, LeaderInv, Based, Matched,
         MessageInv, CommitCandidate, SetCommitIndex, UpdateMatchAndNext, SearchBack, Move;
    var i, h := m.aa.leaderId, c.hist;
    var s, k := c.nodes[i], m.aa.prevLogIndex + |m.aa.entries|;
    InvSize(c);
    InvOdd(c);
    InvParts(c, i);
    InvMessage(c, m);
    PeerElim(h, i, s, c.services[i]);
    ResponseParts(h, m);
    if s.currentTerm == m.aa.term && s.role == Leader {
      LeaderArgs(h, i, s, m.aa.term);
      if m.ar.success {
        MatchPeer(h, i, s, c.services[i], m.from, k);
        CommitPeer(h, i, UpdateMatchAndNext(s, m.from, k), c.services[i]);
        TouchInv(c, i, SetCommitIndex(UpdateMatchAndNext(s, m.from, k)));
      } else if m.ar.term > s.currentTerm {
        BecomeFollowerInv(c, i, m.ar.term);
      } else {
        var next := NextAfterConflict(s, m.aa, m.ar);
        BackFacts(h, i, s, m.from, next);
        LeaderTouch(h, i, s, s.(nextIndex := s.nextIndex[m.from := next]), c.services[i]);
        TouchInv(c, i, s.(nextIndex := s.nextIndex[m.from := next]));
      }
    } else {
      TouchInv(c, i, s);
    }
  }
}
