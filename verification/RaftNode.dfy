/**
 One Raft peer as a value, and every locked region of labs/src/raft/raft.go as a
 function from the peer's state to its next state.  The class in RaftPeer.dfy is the
 same code in imperative form and is proved equal to these functions; the cluster in
 RaftCluster.dfy runs them.

 The `requires` clauses are the conditions under which the Go code does not panic on a
 slice index.  RaftSafety proves that they hold in every reachable state.
 */
module RaftNode {
  import opened Sorting

  /** The null peer id, and the "no such term" mark of a conflict reply. */
  const NA: int := -1

  /** An opaque client command (`interface{}`); `Nil` is the command of a bare sentinel. */
  datatype Command = Nil | Cmd(payload: string)

  datatype LogEntry = LogEntry(command: Command, index: nat, term: nat)

  /** `data` stands for a service state: the commands whose application produced it. */
  datatype Snapshot = Snapshot(lastIncludedIndex: nat, lastIncludedTerm: nat, data: seq<Command>)

  datatype Role = Follower | Candidate | Leader

  /** What the persister holds: the encoded Raft state and the service snapshot. */
  datatype Persisted = Persisted(currentTerm: nat, votedFor: int, log: seq<LogEntry>, data: seq<Command>)

  /**
   The fields of `Raft`.  `votes` is the counter shared by the goroutines of the peer's
   latest election; `disk` is the persister.
   */
  datatype Node = Node(
    me: nat,
    currentTerm: nat, votedFor: int, log: seq<LogEntry>, snapshot: Snapshot,
    commitIndex: nat, lastApplied: nat,
    nextIndex: seq<int>, matchIndex: seq<nat>,
    role: Role, applySnapshot: bool, votes: nat,
    disk: Persisted)

  datatype VoteArgs = VoteArgs(term: nat, candidateId: nat, lastLogIndex: nat, lastLogTerm: nat)
  datatype VoteReply = VoteReply(term: nat, voteGranted: bool)
  datatype AppendArgs = AppendArgs(term: nat, leaderId: nat, prevLogIndex: nat, prevLogTerm: nat,
                                   entries: seq<LogEntry>, leaderCommit: nat)
  datatype AppendReply = AppendReply(term: nat, success: bool, conflictTerm: int, conflictFirstIndex: int)
  datatype InstallArgs = InstallArgs(term: nat, leaderId: nat, snapshot: Snapshot)
  datatype InstallReply = InstallReply(term: nat)

  // ---------------------------------------------------------------- log window

  /** The slice `rf.log` is never empty and carries consecutive indices. */
  predicate Window(log: seq<LogEntry>) {
    && |log| > 0
    && forall i :: 0 <= i < |log| ==> log[i].index == log[0].index + i
  }

  /** Entries that may follow index `prev`. */
  predicate Follows(entries: seq<LogEntry>, prev: nat) {
    forall i :: 0 <= i < |entries| ==> entries[i].index == prev + 1 + i
  }

  function FirstIndex(log: seq<LogEntry>): nat requires |log| > 0 { log[0].index }

  function LastLog(log: seq<LogEntry>): LogEntry requires |log| > 0 { log[|log| - 1] }

  /** `getLogL`: in range exactly on the retained window. */
  function GetLog(log: seq<LogEntry>, index: int): LogEntry
    requires Window(log) && FirstIndex(log) <= index <= LastLog(log).index
  {
    log[index - FirstIndex(log)]
  }

  /** `trimLogL`: the entry at `index` becomes the new first entry. */
  function TrimLog(log: seq<LogEntry>, index: nat): (r: seq<LogEntry>)
    requires Window(log) && FirstIndex(log) <= index <= LastLog(log).index
    ensures Window(r) && FirstIndex(r) == index && LastLog(r) == LastLog(log)
    ensures forall k :: index <= k <= LastLog(log).index ==> GetLog(r, k) == GetLog(log, k)
  {
    log[index - FirstIndex(log)..]
  }

  function Min(a: nat, b: nat): nat { if a < b then a else b }

  function Max(a: int, b: int): int { if a > b then a else b }

  // ---------------------------------------------------------------- persistence and roles

  function Persist(s: Node): Node {
    s.(disk := Persisted(s.currentTerm, s.votedFor, s.log, s.snapshot.data))
  }

  function BecomeFollower(s: Node, term: nat): Node {
    Persist(s.(role := Follower, votedFor := NA, currentTerm := term))
  }

  /** Any RPC that carries a newer term demotes the receiver. */
  function StepDown(s: Node, term: nat): Node {
    if term > s.currentTerm then BecomeFollower(s, term) else s
  }

  /** `initL` on an empty persister, in a cluster of n peers. */
  function Boot(me: nat, n: nat): Node {
    var log := [LogEntry(Nil, 0, 0)];
    Node(me, 0, NA, log, Snapshot(0, 0, []), 0, 0, seq(n, _ => 0), seq(n, _ => 0),
         Follower, false, 0, Persisted(0, NA, log, []))
  }

  /** `initL` after a crash: everything volatile is rebuilt from the persister. */
  function Restart(s: Node): Node
    requires |s.disk.log| > 0
  {
    var d := s.disk;
    Node(s.me, d.currentTerm, d.votedFor, d.log, Snapshot(d.log[0].index, d.log[0].term, d.data),
         d.log[0].index, d.log[0].index, seq(|s.nextIndex|, _ => 0), seq(|s.matchIndex|, _ => 0),
         Follower, false, 0, d)
  }

  function BecomeCandidate(s: Node): Node {
    Persist(s.(role := Candidate, currentTerm := s.currentTerm + 1, votedFor := s.me, votes := 1))
  }

  function RequestArgs(s: Node): VoteArgs
    requires |s.log| > 0
  {
    VoteArgs(s.currentTerm, s.me, LastLog(s.log).index, LastLog(s.log).term)
  }

  function BecomeLeader(s: Node): Node
    requires |s.log| > 0
  {
    s.(role := Leader,
       nextIndex := seq(|s.nextIndex|, _ => LastLog(s.log).index + 1),
       matchIndex := seq(|s.matchIndex|, _ => 0))
  }

  // ---------------------------------------------------------------- RequestVote

  predicate UpToDate(log: seq<LogEntry>, lastIndex: nat, lastTerm: nat)
    requires |log| > 0
  {
    || lastTerm > LastLog(log).term
    || (lastTerm == LastLog(log).term && lastIndex >= LastLog(log).index)
  }

  function RequestVote(s: Node, a: VoteArgs): (Node, VoteReply)
    requires |s.log| > 0
  {
    var s1 := StepDown(s, a.term);
    if a.term < s1.currentTerm then
      (s1, VoteReply(s1.currentTerm, false))
    else if (s1.votedFor == NA || s1.votedFor == a.candidateId) && UpToDate(s1.log, a.lastLogIndex, a.lastLogTerm) then
      (Persist(s1.(votedFor := a.candidateId)), VoteReply(s1.currentTerm, true))
    else
      (s1, VoteReply(s1.currentTerm, false))
  }

  function ProcessVoteReply(s: Node, a: VoteArgs, r: VoteReply): Node
    requires |s.log| > 0
  {
    if !(s.currentTerm == a.term && s.role == Candidate) then s
    else if r.voteGranted then
      var s1 := s.(votes := s.votes + 1);
      if s1.votes > |s.matchIndex| / 2 then BecomeLeader(s1) else s1
    else StepDown(s, r.term)
  }

  // ---------------------------------------------------------------- AppendEntries

  /** First entry of the request that is missing from, or has another term in, the log. */
  function FirstConflict(log: seq<LogEntry>, prev: nat, entries: seq<LogEntry>, i: nat): (r: nat)
    requires Window(log) && FirstIndex(log) <= prev <= LastLog(log).index
    requires i <= |entries| && prev + i <= LastLog(log).index
    ensures i <= r <= |entries| && prev + r <= LastLog(log).index
    ensures forall k :: i <= k < r ==> GetLog(log, prev + 1 + k).term == entries[k].term
    ensures r < |entries| ==>
              LastLog(log).index < prev + 1 + r || entries[r].term != GetLog(log, prev + 1 + r).term
    decreases |entries| - i
  {
    if i == |entries| || LastLog(log).index < prev + 1 + i || entries[i].term != GetLog(log, prev + 1 + i).term
    then i
    else FirstConflict(log, prev, entries, i + 1)
  }

  /** Steps 3 and 4 of the receiver: keep the log up to the first conflict, then the request's tail. */
  function MergeLog(log: seq<LogEntry>, prev: nat, entries: seq<LogEntry>): (r: seq<LogEntry>)
    requires Window(log) && FirstIndex(log) <= prev <= LastLog(log).index && Follows(entries, prev)
    ensures Window(r) && FirstIndex(r) == FirstIndex(log)
  {
    var i := FirstConflict(log, prev, entries, 0);
    if i == |entries| then log
    else log[..prev + 1 + i - FirstIndex(log)] + entries[i..]
  }

  /** The follower's search for the first index of the conflicting term. */
  function ConflictStart(log: seq<LogEntry>, term: nat, index: int): (r: int)
    requires Window(log) && index <= LastLog(log).index
    ensures r <= index + 1
    decreases index
  {
    if index <= FirstIndex(log) then index
    else if GetLog(log, index).term != term then index + 1
    else ConflictStart(log, term, index - 1)
  }

  /** `_prevLogConflictL`: none, or the term and index hint for the leader. */
  function PrevLogConflict(log: seq<LogEntry>, prev: nat, prevTerm: nat): (r: (bool, int, int))
    requires Window(log)
    ensures !r.0 ==> FirstIndex(log) <= prev <= LastLog(log).index && GetLog(log, prev).term == prevTerm
  {
    if LastLog(log).index < prev then (true, NA, LastLog(log).index + 1)
    else if FirstIndex(log) > prev then (true, NA, FirstIndex(log) + 1)
    else if GetLog(log, prev).term != prevTerm then
      (true, GetLog(log, prev).term, ConflictStart(log, GetLog(log, prev).term, prev - 1))
    else (false, 0, 0)
  }

  /** The state in which the log of an accepted request is examined. */
  function AppendEntriesTerm(s: Node, a: AppendArgs): Node {
    var s1 := StepDown(s, a.term);
    if s1.role == Candidate && a.term >= s1.currentTerm then BecomeFollower(s1, a.term) else s1
  }

  /** Steps 3 to 5 of the receiver, once the previous entry is known to match. */
  function AcceptEntries(s: Node, a: AppendArgs): Node
    requires Window(s.log) && Follows(a.entries, a.prevLogIndex)
    requires FirstIndex(s.log) <= a.prevLogIndex <= LastLog(s.log).index
  {
    var conflict := FirstConflict(s.log, a.prevLogIndex, a.entries, 0) < |a.entries|;
    var s1 := s.(log := MergeLog(s.log, a.prevLogIndex, a.entries));
    var s2 := if conflict then Persist(s1) else s1;
    if a.leaderCommit > s2.commitIndex then
      s2.(commitIndex := Min(a.leaderCommit, LastLog(s2.log).index))
    else s2
  }

  function AppendEntries(s: Node, a: AppendArgs): (Node, AppendReply)
    requires Window(s.log) && Follows(a.entries, a.prevLogIndex)
  {
    var s1 := AppendEntriesTerm(s, a);
    if a.term < s1.currentTerm then (s1, AppendReply(s1.currentTerm, false, 0, 0))
    else
      var c := PrevLogConflict(s1.log, a.prevLogIndex, a.prevLogTerm);
      if c.0 then (s1, AppendReply(s1.currentTerm, false, c.1, c.2))
      else (AcceptEntries(s1, a), AppendReply(s1.currentTerm, true, 0, 0))
  }

  /** `_makeAppendArgsL`: always the leader's whole tail. */
  function MakeAppendArgs(s: Node, server: nat): AppendArgs
    requires Window(s.log) && server < |s.nextIndex|
    requires FirstIndex(s.log) < s.nextIndex[server] <= LastLog(s.log).index + 1
  {
    var next := s.nextIndex[server];
    AppendArgs(s.currentTerm, s.me, next - 1, GetLog(s.log, next - 1).term,
               s.log[next - FirstIndex(s.log)..], s.commitIndex)
  }

  // ---------------------------------------------------------------- replies to the leader

  function UpdateMatchAndNext(s: Node, server: nat, newMatch: nat): Node
    requires server < |s.matchIndex| == |s.nextIndex|
  {
    s.(matchIndex := if newMatch > s.matchIndex[server] then s.matchIndex[server := newMatch] else s.matchIndex,
       nextIndex := if newMatch >= s.nextIndex[server] then s.nextIndex[server := newMatch + 1] else s.nextIndex)
  }

  /** The leader's backward search for an entry of the follower's conflicting term. */
  function SearchBack(log: seq<LogEntry>, term: int, index: int, minIndex: int): (r: int)
    requires Window(log) && FirstIndex(log) < minIndex && index <= LastLog(log).index
    ensures r <= index + 1
    decreases index - minIndex
  {
    if index < minIndex then index
    else if GetLog(log, index).term == term then index + 1
    else SearchBack(log, term, index - 1, minIndex)
  }

  function NextAfterConflict(s: Node, a: AppendArgs, r: AppendReply): int
    requires Window(s.log) && a.prevLogIndex <= LastLog(s.log).index
  {
    if r.conflictTerm == NA || r.conflictTerm > s.currentTerm then r.conflictFirstIndex
    else SearchBack(s.log, r.conflictTerm, a.prevLogIndex - 1, Max(r.conflictFirstIndex, FirstIndex(s.log) + 1))
  }

  /** The index that `setCommitIndexL` tries to commit. */
  function CommitCandidate(s: Node): nat
    requires |s.matchIndex| >= 3
  {
    SortInts(s.matchIndex)[|s.matchIndex| / 2 + 1]
  }

  function SetCommitIndex(s: Node): Node
    requires Window(s.log) && |s.matchIndex| >= 3
    requires CommitCandidate(s) > s.commitIndex ==>
               FirstIndex(s.log) <= CommitCandidate(s) <= LastLog(s.log).index
  {
    var n := CommitCandidate(s);
    if n > s.commitIndex && GetLog(s.log, n).term == s.currentTerm then s.(commitIndex := n) else s
  }

  /** Reading the commit candidate from the log stays inside the retained window. */
  predicate CommitReadOk(s: Node) {
    && Window(s.log) && |s.matchIndex| >= 3
    && (CommitCandidate(s) > s.commitIndex ==>
          FirstIndex(s.log) <= CommitCandidate(s) <= LastLog(s.log).index)
  }

  predicate AppendReplyOk(s: Node, server: nat, a: AppendArgs, r: AppendReply) {
    && Window(s.log) && server < |s.matchIndex| == |s.nextIndex|
    && (s.currentTerm == a.term && s.role == Leader ==>
          if r.success then CommitReadOk(UpdateMatchAndNext(s, server, a.prevLogIndex + |a.entries|))
          else a.prevLogIndex <= LastLog(s.log).index)
  }

  function ProcessAppendReply(s: Node, server: nat, a: AppendArgs, r: AppendReply): Node
    requires AppendReplyOk(s, server, a, r)
  {
    if !(s.currentTerm == a.term && s.role == Leader) then s
    else if r.success then SetCommitIndex(UpdateMatchAndNext(s, server, a.prevLogIndex + |a.entries|))
    else if r.term > s.currentTerm then BecomeFollower(s, r.term)
    else s.(nextIndex := s.nextIndex[server := NextAfterConflict(s, a, r)])
  }

  // ---------------------------------------------------------------- InstallSnapshot

  function InstallSnapshot(s: Node, a: InstallArgs): (Node, InstallReply)
    requires Window(s.log)
  {
    var s1 := StepDown(s, a.term);
    var reply := InstallReply(s1.currentTerm);
    var index := a.snapshot.lastIncludedIndex;
    if a.term < s1.currentTerm || FirstIndex(s1.log) >= index then (s1, reply)
    else
      var log :=
        if LastLog(s1.log).index >= index && GetLog(s1.log, index).term == a.snapshot.lastIncludedTerm
        then TrimLog(s1.log, index)
        else [LogEntry(Nil, index, a.snapshot.lastIncludedTerm)];
      (s1.(snapshot := a.snapshot, log := log, applySnapshot := true), reply)
  }

  function ProcessInstallReply(s: Node, server: nat, a: InstallArgs, r: InstallReply): Node
    requires server < |s.matchIndex| == |s.nextIndex|
  {
    if !(s.currentTerm == a.term && s.role == Leader) then s
    else if r.term > s.currentTerm then BecomeFollower(s, r.term)
    else UpdateMatchAndNext(s, server, a.snapshot.lastIncludedIndex)
  }

  // ---------------------------------------------------------------- service interface

  /** `Start` on a leader. */
  function Start(s: Node, command: Command): Node
    requires |s.log| > 0
  {
    Persist(s.(log := s.log + [LogEntry(command, LastLog(s.log).index + 1, s.currentTerm)]))
  }

  /** `Snapshot`: the service has captured everything up to `index`. */
  function TakeSnapshot(s: Node, index: nat, data: seq<Command>): Node
    requires Window(s.log) && index <= LastLog(s.log).index
  {
    if index > FirstIndex(s.log) then
      var log := TrimLog(s.log, index);
      Persist(s.(log := log, snapshot := Snapshot(log[0].index, log[0].term, data)))
    else s
  }

  /** What one turn of the applier hands to the service. */
  datatype Delivery = Nothing | DeliverCommand(index: nat, command: Command)
                    | DeliverSnapshot(index: nat, data: seq<Command>) | Stop

  /** `applySnapshotL`. */
  function ApplySnapshot(s: Node): (Node, Delivery) {
    var s1 := s.(applySnapshot := false);
    if s.snapshot.lastIncludedIndex > s.lastApplied then
      (s1.(commitIndex := s.snapshot.lastIncludedIndex, lastApplied := s.snapshot.lastIncludedIndex),
       DeliverSnapshot(s.snapshot.lastIncludedIndex, s.snapshot.data))
    else (s1, Nothing)
  }

  /** One command turn of `apply`; the applier returns for good if the entry was trimmed away. */
  function ApplyCommand(s: Node): (Node, Delivery)
    requires Window(s.log) && s.lastApplied < s.commitIndex <= LastLog(s.log).index
  {
    var s1 := s.(lastApplied := s.lastApplied + 1);
    if s1.lastApplied <= FirstIndex(s.log) then (s1, Stop)
    else (s1, DeliverCommand(s1.lastApplied, GetLog(s.log, s1.lastApplied).command))
  }
}
