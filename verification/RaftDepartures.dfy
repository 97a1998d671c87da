/** Where labs/src/raft/raft.go departs from the textbook, and exactly how far. */
module RaftDepartures {
  import opened RaftNode
  import opened RaftHistory
  import opened RaftLeading
  import opened Sorting

  /**
   One vote per term does not hold: a candidate that meets the leader of its own term
   forgets the vote it gave itself and grants the next up-to-date request of that term.
   */
  lemma CandidateVotesAgain(s: Node, a: AppendArgs, v: VoteArgs)
    requires Window(s.log) && Follows(a.entries, a.prevLogIndex)
    requires s.role == Candidate && s.votedFor == s.me && a.term == s.currentTerm == v.term && v.candidateId != s.me
    ensures var s1 := AppendEntries(s, a).0;
      && Window(s1.log) && s1.currentTerm == s.currentTerm
      && (UpToDate(s1.log, v.lastLogIndex, v.lastLogTerm) ==>
            RequestVote(s1, v).1.voteGranted && RequestVote(s1, v).0.votedFor == v.candidateId)
  {
  }

  /** An installed snapshot is acknowledged but not durable: a crash rolls back to the log before it. */
  lemma InstalledSnapshotIsVolatile(s: Node, a: InstallArgs)
    requires Window(s.log) && |s.disk.log| > 0
    ensures |InstallSnapshot(s, a).0.disk.log| > 0 && |StepDown(s, a.term).disk.log| > 0
    ensures Restart(InstallSnapshot(s, a).0) == Restart(StepDown(s, a.term))
  {
  }

  // ---------------------------------------------------------------- even clusters

  lemma {:induction false} SortIntsOfSorted(s: seq<nat>)
    requires Sorted(s)
    ensures SortInts(s) == s
  {
    if s != [] {
      SortIntsOfSorted(s[1..]);
    }
  }

  /** The commit rule's candidate for a list of match indices. */
  function CommitIndexOf(m: seq<nat>): nat
    requires |m| >= 3
  {
    SortInts(m)[|m| / 2 + 1]
  }

  /** Every index the rule may commit is held by a majority, the leader (whose slot is 0) included. */
  ghost predicate RuleIsSound(n: nat)
    requires n >= 3
  {
    forall m: seq<nat> :: |m| == n && m[0] == 0 && CommitIndexOf(m) > 0 ==>
      IsQuorum(Reaching(m, CommitIndexOf(m), n) + {0}, n)
  }

  function HalfMatched(n: nat): seq<nat> {
    seq(n, i => if i < n / 2 + 1 then 0 else 1)
  }

  lemma OddIsMajority(m: seq<nat>, n: nat)
    requires |m| == n >= 3 && n % 2 == 1 && m[0] == 0 && CommitIndexOf(m) > 0
    ensures IsQuorum(Reaching(m, CommitIndexOf(m), n) + {0}, n)
  {
    hide SortInts;
    SortedPosition(m, n / 2 + 1);
    ReachingSize(m, CommitIndexOf(m), n);
    assert m[..n] == m;
    assert 0 !in Reaching(m, CommitIndexOf(m), n);
  }

  lemma EvenIsNot(n: nat)
    requires n >= 3 && n % 2 == 0
    ensures var m := HalfMatched(n);
      |m| == n && m[0] == 0 && CommitIndexOf(m) > 0 && !IsQuorum(Reaching(m, CommitIndexOf(m), n) + {0}, n)
  {
    var m := HalfMatched(n);
    SortIntsOfSorted(m);
    UpperHalf(n, n);
    hide Reaching, SortInts;
    assert CommitIndexOf(m) == 1;
    AddOne(Reaching(m, 1, n), 0);
  }

  lemma AddOne(q: set<nat>, x: nat)
    ensures |q + {x}| <= |q| + 1
  {
    if x in q {
      assert q + {x} == q;
    }
  }

  /** The rule is sound exactly for odd clusters. */
  lemma RuleIsSoundIffOdd(n: nat)
    requires n >= 3
    ensures RuleIsSound(n) <==> n % 2 == 1
  {
    hide CommitIndexOf, IsQuorum;
    if n % 2 == 1 {
      forall m: seq<nat> | |m| == n && m[0] == 0 && CommitIndexOf(m) > 0
        ensures IsQuorum(Reaching(m, CommitIndexOf(m), n) + {0}, n)
      {
        OddIsMajority(m, n);
      }
    } else {
      EvenIsNot(n);
    }
  }

  lemma {:induction false} UpperHalf(n: nat, k: nat)
    requires k <= n
    ensures |Reaching(HalfMatched(n), 1, k)| == if k < n / 2 + 1 then 0 else k - (n / 2 + 1)
  {
    if k > 0 {
      UpperHalf(n, k - 1);
    }
  }
}
