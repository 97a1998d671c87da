/**
 A Raft peer as the object it is in labs/src/raft/raft.go: every locked region is a method
 that updates the fields in place, and is proved to do exactly what the function of the
 same region in RaftNode says.
 */
module RaftPeer {
  import opened RaftNode
  import opened Sorting

  class Peer {
    const me: nat
    var currentTerm: nat
    var votedFor: int
    var log: seq<LogEntry>
    var snapshot: Snapshot
    var commitIndex: nat
    var lastApplied: nat
    const nextIndex: array<int>
    const matchIndex: array<nat>
    var role: Role
    var applySnapshot: bool
    var votes: nat
    var disk: Persisted

    ghost predicate Valid()
      reads this
    {
      nextIndex.Length == matchIndex.Length && Window(log)
    }

    ghost function State(): Node
      reads this, nextIndex, matchIndex
    {
      Node(me, currentTerm, votedFor, log, snapshot, commitIndex, lastApplied, nextIndex[..], matchIndex[..],
           role, applySnapshot, votes, disk)
    }

    /** `initL` and `readPersist`: a fresh persister holds the state of `Boot`. */
    constructor (me: nat, n: nat, saved: Persisted)
      requires Window(saved.log)
      ensures Valid() && nextIndex.Length == n && fresh(nextIndex) && fresh(matchIndex)
      ensures State() == Restart(Boot(me, n).(disk := saved))
    {
      this.me := me;
      currentTerm, votedFor, log := saved.currentTerm, saved.votedFor, saved.log;
      snapshot := Snapshot(saved.log[0].index, saved.log[0].term, saved.data);
      commitIndex, lastApplied := saved.log[0].index, saved.log[0].index;
      nextIndex := new int[n](_ => 0);
      matchIndex := new nat[n](_ => 0);
      role, applySnapshot, votes, disk := Follower, false, 0, saved;
    }

    method PersistState()
      modifies this`disk
      ensures State() == Persist(old(State()))
    {
      disk := Persisted(currentTerm, votedFor, log, snapshot.data);
    }

    method BecomeFollowerL(term: nat)
      modifies this`role, this`votedFor, this`currentTerm, this`disk
      ensures State() == BecomeFollower(old(State()), term)
    {
      role := Follower;
      votedFor := NA;
      currentTerm := term;
      PersistState();
    }

    method BecomeCandidateL() returns (args: VoteArgs)
      requires Valid()
      modifies this`role, this`votedFor, this`currentTerm, this`disk, this`votes
      ensures Valid() && State() == BecomeCandidate(old(State())) && args == RequestArgs(State())
    {
      role := Candidate;
      currentTerm := currentTerm + 1;
      votedFor := me;
      PersistState();
      args := VoteArgs(currentTerm, me, LastLog(log).index, LastLog(log).term);
      votes := 1;
    }

    method BecomeLeaderL()
      requires Valid()
      modifies this`role, nextIndex, matchIndex
      ensures Valid() && State() == BecomeLeader(old(State()))
    {
      var i := 0;
      while i < nextIndex.Length
        invariant 0 <= i <= nextIndex.Length
        invariant forall k :: 0 <= k < i ==> nextIndex[k] == LastLog(log).index + 1 && matchIndex[k] == 0
      {
        nextIndex[i] := LastLog(log).index + 1;
        matchIndex[i] := 0;
        i := i + 1;
      }
      role := Leader;
      var next := LastLog(log).index + 1;
      assert nextIndex[..] == seq(nextIndex.Length, _ => next);
      assert matchIndex[..] == seq(matchIndex.Length, _ => 0);
    }

    method HandleRequestVote(a: VoteArgs) returns (reply: VoteReply)
      requires Valid()
      modifies this
      ensures Valid() && (State(), reply) == RequestVote(old(State()), a)
    {
      if a.term > currentTerm {
        BecomeFollowerL(a.term);
      }
      var last := LastLog(log);
      var upToDate := a.lastLogTerm > last.term || (a.lastLogTerm == last.term && a.lastLogIndex >= last.index);
      reply := VoteReply(currentTerm, false);
      if a.term < currentTerm {
        return;
      }
      if (votedFor == NA || votedFor == a.candidateId) && upToDate {
        reply := VoteReply(currentTerm, true);
        votedFor := a.candidateId;
        PersistState();
      }
    }

    method ProcessRequestReplyL(a: VoteArgs, r: VoteReply)
      requires Valid()
      modifies this, nextIndex, matchIndex
      ensures Valid() && State() == ProcessVoteReply(old(State()), a, r)
    {
      if currentTerm == a.term && role == Candidate {
        if r.voteGranted {
          votes := votes + 1;
          if votes > matchIndex.Length / 2 {
            BecomeLeaderL();
          }
        } else if r.term > currentTerm {
          BecomeFollowerL(r.term);
        }
      }
    }

    /** The reply's fields are the out-parameters. */
    method PrevLogConflictL(a: AppendArgs) returns (conflict: bool, term: int, first: int)
      requires Valid()
      ensures (conflict, term, first) == PrevLogConflict(log, a.prevLogIndex, a.prevLogTerm)
    {
      if LastLog(log).index < a.prevLogIndex {
        return true, NA, LastLog(log).index + 1;
      } else if FirstIndex(log) > a.prevLogIndex {
        return true, NA, FirstIndex(log) + 1;
      } else if GetLog(log, a.prevLogIndex).term != a.prevLogTerm {
        term := GetLog(log, a.prevLogIndex).term;
        var index := a.prevLogIndex - 1;
        while index > FirstIndex(log)
          invariant index <= LastLog(log).index
          invariant ConflictStart(log, term, index) == ConflictStart(log, term, a.prevLogIndex - 1)
        {
          if GetLog(log, index).term != term {
            index := index + 1;
            return true, term, index;
          }
          index := index - 1;
        }
        return true, term, index;
      }
      return false, 0, 0;
    }

    /** The loop over the request's entries. */
    method MergeEntriesL(a: AppendArgs)
      requires Valid() && Follows(a.entries, a.prevLogIndex)
      requires FirstIndex(log) <= a.prevLogIndex <= LastLog(log).index
      modifies this`log, this`disk
      ensures Valid() && log == MergeLog(old(log), a.prevLogIndex, a.entries)
      ensures disk == if FirstConflict(old(log), a.prevLogIndex, a.entries, 0) < |a.entries|
                      then Persist(State()).disk else old(disk)
    {
      var i := 0;
      while i < |a.entries|
        invariant 0 <= i <= |a.entries| && log == old(log) && disk == old(disk)
        invariant a.prevLogIndex + i <= LastLog(log).index
        invariant FirstConflict(log, a.prevLogIndex, a.entries, i) == FirstConflict(log, a.prevLogIndex, a.entries, 0)
      {
        var index := a.prevLogIndex + 1 + i;
        if LastLog(log).index < index || a.entries[i].term != GetLog(log, index).term {
          log := log[..index - FirstIndex(log)] + a.entries[i..];
          PersistState();
          return;
        }
        i := i + 1;
      }
    }

    /** Everything after the term checks. */
    method ProcessAppendEntriesL(a: AppendArgs) returns (reply: AppendReply)
      requires Valid() && Follows(a.entries, a.prevLogIndex)
      requires currentTerm >= a.term && (currentTerm == a.term ==> role != Candidate)
      modifies this`log, this`disk, this`commitIndex
      ensures Valid() && (State(), reply) == AppendEntries(old(State()), a)
    {
      if a.term < currentTerm {
        return AppendReply(currentTerm, false, 0, 0);
      }
      var conflict, term, first := PrevLogConflictL(a);
      if conflict {
        return AppendReply(currentTerm, false, term, first);
      }
      MergeEntriesL(a);
      if a.leaderCommit > commitIndex {
        commitIndex := Min(a.leaderCommit, LastLog(log).index);
      }
      assert State() == AcceptEntries(old(State()), a);
      reply := AppendReply(currentTerm, true, 0, 0);
    }

    method HandleAppendEntries(a: AppendArgs) returns (reply: AppendReply)
      requires Valid() && Follows(a.entries, a.prevLogIndex)
      modifies this
      ensures Valid() && (State(), reply) == AppendEntries(old(State()), a)
    {
      if a.term > currentTerm {
        BecomeFollowerL(a.term);
      }
      if role == Candidate && a.term >= currentTerm {
        BecomeFollowerL(a.term);
      }
      assert State() == AppendEntriesTerm(old(State()), a) == AppendEntriesTerm(State(), a);
      reply := ProcessAppendEntriesL(a);
    }

    method MakeAppendArgsL(server: nat) returns (args: AppendArgs)
      requires Valid() && server < nextIndex.Length
      requires FirstIndex(log) < nextIndex[server] <= LastLog(log).index + 1
      ensures args == MakeAppendArgs(State(), server)
    {
      var next := nextIndex[server];
      var entries := [];
      if LastLog(log).index >= next {
        entries := entries + log[next - FirstIndex(log)..];
      }
      args := AppendArgs(currentTerm, me, next - 1, GetLog(log, next - 1).term, entries, commitIndex);
    }

    method UpdateMatchAndNextL(server: nat, newMatch: nat)
      requires Valid() && server < nextIndex.Length
      modifies nextIndex, matchIndex
      ensures Valid() && State() == UpdateMatchAndNext(old(State()), server, newMatch)
    {
      if newMatch > matchIndex[server] {
        matchIndex[server] := newMatch;
      }
      if newMatch >= nextIndex[server] {
        nextIndex[server] := newMatch + 1;
      }
    }

    method SetCommitIndexL() returns (ok: bool)
      requires Valid() && CommitReadOk(State())
      modifies this`commitIndex
      ensures Valid() && State() == SetCommitIndex(old(State())) && ok == (commitIndex != old(commitIndex))
    {
      var matches := SortInts(matchIndex[..]);
      var n := matches[matchIndex.Length / 2 + 1];
      if n > commitIndex && GetLog(log, n).term == currentTerm {
        commitIndex := n;
        return true;
      }
      return false;
    }

    method ProcessPrevLogConflictL(server: nat, a: AppendArgs, r: AppendReply)
      requires Valid() && server < nextIndex.Length && a.prevLogIndex <= LastLog(log).index
      modifies nextIndex
      ensures Valid()
      ensures nextIndex[..] == old(nextIndex[..])[server := NextAfterConflict(old(State()), a, r)]
    {
      if r.conflictTerm == NA || r.conflictTerm > currentTerm {
        nextIndex[server] := r.conflictFirstIndex;
      } else {
        var index := a.prevLogIndex - 1;
        var minIndex := Max(r.conflictFirstIndex, FirstIndex(log) + 1);
        while index >= minIndex
          invariant index <= a.prevLogIndex - 1
          invariant SearchBack(log, r.conflictTerm, index, minIndex) ==
                    SearchBack(log, r.conflictTerm, a.prevLogIndex - 1, minIndex)
        {
          if GetLog(log, index).term == r.conflictTerm {
            nextIndex[server] := index + 1;
            return;
          }
          index := index - 1;
        }
        nextIndex[server] := index;
      }
    }

    method ProcessAppendReplyL(server: nat, a: AppendArgs, r: AppendReply)
      requires Valid() && AppendReplyOk(State(), server, a, r)
      modifies this, nextIndex, matchIndex
      ensures Valid() && State() == ProcessAppendReply(old(State()), server, a, r)
    {
      if currentTerm == a.term && role == Leader {
        if r.success {
          UpdateMatchAndNextL(server, a.prevLogIndex + |a.entries|);
          var signal := SetCommitIndexL();
        } else if r.term > currentTerm {
          BecomeFollowerL(r.term);
        } else {
          ProcessPrevLogConflictL(server, a, r);
        }
      }
    }

    method HandleInstallSnapshot(a: InstallArgs) returns (reply: InstallReply)
      requires Valid()
      modifies this
      ensures Valid() && (State(), reply) == InstallSnapshot(old(State()), a)
    {
      if a.term > currentTerm {
        BecomeFollowerL(a.term);
      }
      reply := InstallReply(currentTerm);
      if a.term < currentTerm {
        return;
      }
      if FirstIndex(log) >= a.snapshot.lastIncludedIndex {
        return;
      }
      snapshot := a.snapshot;
      if LastLog(log).index >= a.snapshot.lastIncludedIndex
         && GetLog(log, a.snapshot.lastIncludedIndex).term == a.snapshot.lastIncludedTerm {
        log := TrimLog(log, a.snapshot.lastIncludedIndex);
      } else {
        log := [LogEntry(Nil, a.snapshot.lastIncludedIndex, a.snapshot.lastIncludedTerm)];
      }
      applySnapshot := true;
    }

    method ProcessInstallReplyL(server: nat, a: InstallArgs, r: InstallReply)
      requires Valid() && server < nextIndex.Length
      modifies this, nextIndex, matchIndex
      ensures Valid() && State() == ProcessInstallReply(old(State()), server, a, r)
    {
      if currentTerm == a.term && role == Leader {
        if r.term > currentTerm {
          BecomeFollowerL(r.term);
          return;
        }
        UpdateMatchAndNextL(server, a.snapshot.lastIncludedIndex);
      }
    }

    method StartCommand(command: Command) returns (index: int, term: int, isLeader: bool)
      requires Valid()
      modifies this`log, this`disk
      ensures Valid() && isLeader == (role == Leader)
      ensures !isLeader ==> State() == old(State()) && index == term == NA
      ensures isLeader ==> State() == Start(old(State()), command) && index == LastLog(log).index && term == currentTerm
    {
      if role != Leader {
        return NA, NA, false;
      }
      index, term, isLeader := LastLog(log).index + 1, currentTerm, true;
      log := log + [LogEntry(command, index, term)];
      PersistState();
    }

    method SnapshotL(index: nat, data: seq<Command>)
      requires Valid() && index <= LastLog(log).index
      modifies this`log, this`snapshot, this`disk
      ensures Valid() && State() == TakeSnapshot(old(State()), index, data)
    {
      if index > FirstIndex(log) {
        log := TrimLog(log, index);
        snapshot := Snapshot(log[0].index, log[0].term, data);
        PersistState();
      }
    }

    /** One pass of the applier loop over a pending snapshot. */
    method ApplySnapshotL() returns (d: Delivery)
      requires Valid()
      modifies this`applySnapshot, this`commitIndex, this`lastApplied
      ensures Valid() && (State(), d) == ApplySnapshot(old(State()))
    {
      applySnapshot := false;
      d := Nothing;
      if snapshot.lastIncludedIndex > lastApplied {
        commitIndex := snapshot.lastIncludedIndex;
        lastApplied := snapshot.lastIncludedIndex;
        d := DeliverSnapshot(snapshot.lastIncludedIndex, snapshot.data);
      }
    }

    /** One pass of the applier loop over the next committed entry. */
    method ApplyCommandL() returns (d: Delivery)
      requires Valid() && lastApplied < commitIndex <= LastLog(log).index
      modifies this`lastApplied
      ensures Valid() && (State(), d) == ApplyCommand(old(State()))
    {
      lastApplied := lastApplied + 1;
      if lastApplied <= FirstIndex(log) {
        return Stop;
      }
      d := DeliverCommand(lastApplied, GetLog(log, lastApplied).command);
    }
  }
}
