/**
 The safety theorems of Raft over whole runs: elections, lost, delayed and reordered
 messages, snapshots, crashes and restarts, in any order, for any odd number of peers.
 */
module RaftSafety {
  import opened RaftNode
  import opened RaftHistory
  import opened RaftCluster
  import opened RaftInvariant
  import opened RaftElection
  import opened RaftVoting
  import opened RaftReplication
  import opened RaftAppend
  import opened RaftInstall
  import opened RaftLeading
  import opened RaftProposing
  import opened RaftDelivery

  // ---------------------------------------------------------------- the invariant is inductive

  lemma InitialHistory(n: nat)
    requires n >= 3
    ensures HistoryInv(History(map[0 := []], map[], map[], {}, {}, map[], map[], seq(n, _ => 0)))
  {
  }

  lemma InitialPeer(h: History, n: nat, i: nat)
    requires h == History(map[0 := []], map[], map[], {}, {}, map[], map[], seq(n, _ => 0)) && i < n
    ensures PeerInv(h, i, Boot(i, n), Service([], true))
  {
    var s := Boot(i, n);
    assert Full(h, s.log) == [];
    assert Full(h, s.disk.log) == [];
    assert forall t: nat :: Acked(h, i, t) == 0;
  }

  lemma InitialInv(c: Cluster)
    requires Initial(c)
    ensures Inv(c)
  {
    hide HistoryInv, PeerInv, Boot;
    var n := |c.nodes|;
    InitialHistory(n);
    forall i | 0 <= i < n ensures PeerInv(c.hist, i, c.nodes[i], c.services[i]) {
      InitialPeer(c.hist, n, i);
    }
    assert Committed(c.hist, 0, []) && Commands([]) == [];
    assert ViewInv(c.hist, []);
  }

  lemma InvWellFormed(c: Cluster)
    requires Inv(c)
    ensures WellFormed(c)
  {
    hide Inv, HistoryInv, PeerInv, Based, StorageInv, ProgressInv, BallotInv, CandidateInv, LeaderInv;
    InvSize(c);
    InvOdd(c);
    forall i | 0 <= i < |c.nodes|
      ensures Based(c.hist, c.nodes[i].log) && Based(c.hist, c.nodes[i].disk.log)
      ensures |c.nodes[i].nextIndex| == |c.nodes[i].matchIndex| == |c.nodes|
    {
      InvParts(c, i);
      PeerElim(c.hist, i, c.nodes[i], c.services[i]);
      StorageBased(c.hist, i, c.nodes[i]);
    }
  }

  /** No enabled step ever reads or cuts a log outside its retained window. */
  lemma EveryStepIsSafe(c: Cluster, a: Action)
    requires Inv(c) && Enabled(c, a)
    ensures WellFormed(c) && NoPanic(c, a)
  {
    hide Inv, WellFormed, HistoryInv, PeerInv, MessageInv, AppendReplyOk, Follows, Based, ProgressInv;
    InvWellFormed(c);
    InvSize(c);
    match a
    case Send(i, j) => SendSafe(c, i, j);
    case HandleAppendRequest(m) => RequestParts(c, m);
    case HandleAppendResponse(m) => AppendResponseSafe(c, m);
    case HandleInstallResponse(m) =>
      InvMessage(c, m);
      InstallResponseParts(c.hist, m);
    case Compact(i, index) =>
      InvParts(c, i);
      PeerElim(c.hist, i, c.nodes[i], c.services[i]);
      ProgressBounds(c.hist, c.nodes[i], c.services[i]);
    case ApplyCommandTurn(i) =>
      InvParts(c, i);
      PeerElim(c.hist, i, c.nodes[i], c.services[i]);
      ProgressBounds(c.hist, c.nodes[i], c.services[i]);
    case _ =>
  }

  lemma StepInv(c: Cluster, a: Action)
    requires Inv(c) && WellFormed(c) && Enabled(c, a) && NoPanic(c, a)
    ensures Inv(Step(c, a))
  {
    hide *;
    match a
    case Timeout(i) => TimeoutInv(c, i);
    case HandleVoteRequest(m) => VoteRequestInv(c, m);
    case HandleVoteResponse(m) => VoteResponseInv(c, m);
    case Send(i, j) => SendInv(c, i, j);
    case HandleAppendRequest(m) => AppendRequestInv(c, m);
    case HandleAppendResponse(m) => AppendResponseInv(c, m);
    case HandleInstallRequest(m) => InstallRequestInv(c, m);
    case HandleInstallResponse(m) => InstallResponseInv(c, m);
    case Propose(i, command) => ProposeInv(c, i, command);
    case Compact(i, index) => CompactInv(c, i, index);
    case ApplySnapshotTurn(i) => ApplySnapshotInv(c, i);
    case ApplyCommandTurn(i) => ApplyCommandInv(c, i);
    case Crash(i) => CrashInv(c, i);
    case Lose(m) => LoseInv(c, m);
  }

  // ---------------------------------------------------------------- runs

  /** A run: states joined by actions, starting from freshly booted peers. */
  ghost predicate IsRun(run: seq<Cluster>, actions: seq<Action>) {
    && |run| == |actions| + 1
    && Initial(run[0])
    && forall k :: 0 <= k < |actions| ==> Next(run[k], actions[k], run[k + 1])
  }

  lemma {:induction false} RunInv(run: seq<Cluster>, actions: seq<Action>, k: nat)
    requires IsRun(run, actions) && k < |run|
    ensures Inv(run[k])
  {
    hide Inv, WellFormed, Enabled, NoPanic, Step, Initial;
    if k == 0 {
      InitialInv(run[0]);
    } else {
      RunInv(run, actions, k - 1);
      assert Next(run[k - 1], actions[k - 1], run[k]);
      StepInv(run[k - 1], actions[k - 1]);
    }
  }

  /** Any enabled action can extend any run: the safety guard in `Next` excludes nothing. */
  lemma RunsNeverPanic(run: seq<Cluster>, actions: seq<Action>, a: Action)
    requires IsRun(run, actions) && Enabled(run[|actions|], a)
    ensures WellFormed(run[|actions|]) && NoPanic(run[|actions|], a)
    ensures IsRun(run + [Step(run[|actions|], a)], actions + [a])
  {
    hide Inv, WellFormed, Enabled, NoPanic, Step, Initial;
    RunInv(run, actions, |actions|);
    EveryStepIsSafe(run[|actions|], a);
  }

  // ---------------------------------------------------------------- what only grows

  ghost predicate Grows(h: History, h': History) {
    && |h'.term| == |h.term|
    && (forall t :: t in h.termLog ==> t in h'.termLog && h.termLog[t] <= h'.termLog[t])
    && (forall t :: t in h.leader ==> t in h'.leader && h'.leader[t] == h.leader[t])
    && (forall v: nat, t: nat :: Acked(h, v, t) <= Acked(h', v, t))
    && h.granted <= h'.granted && h.counted <= h'.counted
  }

  lemma CommittedStays(h: History, h': History, t: nat, p: seq<LogEntry>)
    requires Grows(h, h') && Committed(h, t, p)
    ensures Committed(h', t, p)
  {
    if p != [] {
      var u: nat, k: nat :| u <= t && Chosen(h, u, k) && p <= h.termLog[u][..k];
      IdLists.SubsetSize(Ackers(h, u, k), Ackers(h', u, k));
      assert Chosen(h', u, k);
      assert h'.termLog[u][..k] == h.termLog[u][..k];
    }
  }

  /** A term that has a leader is not won again. */
  lemma WinnerIsFirst(c: Cluster, m: Message)
    requires Inv(c) && Enabled(c, HandleVoteResponse(m))
    requires |c.nodes[m.va.candidateId].log| > 0
    requires c.nodes[m.va.candidateId].role == Candidate
    requires ProcessVoteReply(c.nodes[m.va.candidateId], m.va, m.vr).role == Leader
    ensures c.nodes[m.va.candidateId].currentTerm !in c.hist.leader
    ensures c.nodes[m.va.candidateId].currentTerm !in c.hist.termLog
  {
    hide Inv, HistoryInv, PeerInv, StorageInv, ProgressInv, BallotInv, CandidateInv, LeaderInv, Based, GrantsInv, VotesInv, FrozenInv,
         LeadersInv, AcksInv, TermsInv, CandidatesInv, CompleteInv, CoversInv, Shape, Move, BecomeLeader,
         IsQuorum;
    var i := m.va.candidateId;
    InvSize(c);
    InvParts(c, i);
    PeerElim(c.hist, i, c.nodes[i], c.services[i]);
    ShapeSize(|c.hist.term|, i, c.nodes[i]);
    CountInv(c, m);
    var s1 := c.nodes[i].(votes := c.nodes[i].votes + 1);
    var c1 := Move(c, i, s1, AfterCount(c.hist, m.from, i, m.va.term), {m}, {});
    MoveFacts(c, i, s1, AfterCount(c.hist, m.from, i, m.va.term), {m}, {});
    InvParts(c1, i);
    HistoryParts(c1.hist);
    PeerElim(c1.hist, i, s1, c.services[i]);
    InvSize(c1);
    QuorumCounted(c1.hist, i, s1);
    FirstWinner(c1.hist, i, s1);
    NewTerm(c1.hist, i, s1);
  }

  lemma NewTerm(h: History, i: nat, s: Node)
    requires TermsInv(h) && CandidatesInv(h) && Based(h, s.log) && CandidateInv(h, i, s) && s.role == Candidate
    requires s.currentTerm !in h.leader
    ensures s.currentTerm !in h.termLog
  {
  }

  lemma ShapeSize(n: nat, i: nat, s: Node)
    requires Shape(n, i, s)
    ensures |s.matchIndex| == n
  {
  }

  lemma GrowsSame(h: History, h': History)
    requires h'.termLog == h.termLog && h'.leader == h.leader && h'.acked == h.acked && |h'.term| == |h.term|
    requires h.granted <= h'.granted && h.counted <= h'.counted
    ensures Grows(h, h')
  {
  }

  lemma GrowsTerm(h: History, h': History, i: nat, t: nat)
    requires Grows(h, h') && i < |h'.term|
    ensures Grows(h, h'.(term := h'.term[i := t]))
  {
    GrowsSame(h', h'.(term := h'.term[i := t]));
    GrowsTrans(h, h', h'.(term := h'.term[i := t]));
  }

  lemma GrowsStored(h: History, v: nat, t: nat, k: nat)
    ensures Grows(h, Stored(h, v, t, k)) && |Stored(h, v, t, k).term| == |h.term|
  {
    StoredAcks(h, v, t, k);
    var h' := Stored(h, v, t, k);
    forall u: nat, x: nat ensures Acked(h, u, x) <= Acked(h', u, x) {
      if (u, x) != (v, t) {
        assert Acked(h', u, x) == Acked(h, u, x);
      }
    }
  }

  lemma GrowsAppended(h: History, v: nat, t: nat, e: LogEntry)
    ensures Grows(h, Appended(h, v, t, e)) && |Appended(h, v, t, e).term| == |h.term|
  {
    var l := (if t in h.termLog then h.termLog[t] else []) + [e];
    var h1 := h.(termLog := h.termLog[t := l]);
    GrowsStored(h1, v, t, |l|);
    assert forall u: nat, x: nat :: Acked(h1, u, x) == Acked(h, u, x);
    GrowsTrans(h, h1, Appended(h, v, t, e));
  }

  lemma GrowsWon(h: History, i: nat, t: nat, l: seq<LogEntry>, b: nat)
    requires t !in h.leader && t !in h.termLog
    ensures Grows(h, Won(h, i, t, l, b))
  {
    assert forall u: nat, x: nat :: Acked(Won(h, i, t, l, b), u, x) == Acked(h, u, x);
  }

  lemma VoteResponseGrows(c: Cluster, m: Message)
    requires Inv(c) && WellFormed(c) && Enabled(c, HandleVoteResponse(m))
    ensures Grows(c.hist, Step(c, HandleVoteResponse(m)).hist)
  {
    hide Inv, WellFormed, Based, Full, Window, BecomeLeader, Grows;
    var i := m.va.candidateId;
    WellFormedSize(c, i);
    var h, s := c.hist, c.nodes[i];
    var s' := ProcessVoteReply(s, m.va, m.vr);
    var counts := s.currentTerm == m.va.term && s.role == Candidate && m.vr.voteGranted;
    var h1 := if counts then h.(counted := h.counted + {Grant(m.from, i, m.va.term)}) else h;
    GrowsSame(h, h1);
    if s.role == Candidate && s'.role == Leader {
      WinnerIsFirst(c, m);
      var h2 := Won(h1, i, s.currentTerm, Full(h, s.log), FirstIndex(s.log));
      GrowsWon(h1, i, s.currentTerm, Full(h, s.log), FirstIndex(s.log));
      GrowsTrans(h, h1, h2);
      GrowsTerm(h, h2, i, s'.currentTerm);
    } else {
      GrowsTerm(h, h1, i, s'.currentTerm);
    }
  }

  lemma AppendRequestGrows(c: Cluster, m: Message)
    requires WellFormed(c) && Enabled(c, HandleAppendRequest(m)) && NoPanic(c, HandleAppendRequest(m))
    ensures Grows(c.hist, Step(c, HandleAppendRequest(m)).hist)
  {
    hide WellFormed, Based, Full, Window, AppendEntries, OnDisk, Grows, Stored, Follows;
    WellFormedSize(c, m.to);
    var (s, r) := AppendEntries(c.nodes[m.to], m.aa);
    var k := m.aa.prevLogIndex + |m.aa.entries|;
    var h1 := if r.success && OnDisk(c.hist, s, m.aa.term, k) then Stored(c.hist, m.to, m.aa.term, k) else c.hist;
    GrowsStored(c.hist, m.to, m.aa.term, k);
    GrowsSame(c.hist, c.hist);
    GrowsTerm(c.hist, h1, m.to, s.currentTerm);
  }

  lemma ProposeGrows(c: Cluster, i: nat, command: Command)
    requires WellFormed(c) && Enabled(c, Propose(i, command))
    ensures Grows(c.hist, Step(c, Propose(i, command)).hist)
  {
    hide WellFormed, Based, Full, Window, Grows, Appended, Start;
    WellFormedSize(c, i);
    var s := c.nodes[i];
    var e := LogEntry(command, LastLog(s.log).index + 1, s.currentTerm);
    GrowsAppended(c.hist, i, s.currentTerm, e);
    GrowsTerm(c.hist, Appended(c.hist, i, s.currentTerm, e), i, Start(s, command).currentTerm);
  }

  lemma StepViews(c: Cluster, a: Action)
    requires WellFormed(c) && Enabled(c, a) && NoPanic(c, a)
    ensures c.views <= Step(c, a).views
  {
    hide WellFormed, Based, Full, Window, AppendEntries, RequestVote, InstallSnapshot, ProcessAppendReply,
         ProcessInstallReply, TakeSnapshot, ApplySnapshot, ApplyCommand, BecomeCandidate, MakeAppendArgs, BecomeLeader,
         OnDisk, Stored, Appended, ProcessVoteReply, Restart, Start;
  }

  lemma StepGrows(c: Cluster, a: Action)
    requires Inv(c) && WellFormed(c) && Enabled(c, a) && NoPanic(c, a)
    ensures Grows(c.hist, Step(c, a).hist)
  {
    hide Inv, WellFormed, Based, Full, Window, AppendEntries, RequestVote, InstallSnapshot, ProcessAppendReply,
         ProcessInstallReply, TakeSnapshot, ApplySnapshot, ApplyCommand, BecomeCandidate, MakeAppendArgs, BecomeLeader,
         OnDisk, Grows, Stored, Appended, ProcessVoteReply, Restart, Start;
    match a
    case HandleVoteResponse(m) => VoteResponseGrows(c, m);
    case HandleAppendRequest(m) => AppendRequestGrows(c, m);
    case Propose(i, command) => ProposeGrows(c, i, command);
    case Timeout(i) => WellFormedSize(c, i); GrowsSame(c.hist, Step(c, a).hist);
    case HandleVoteRequest(m) => WellFormedSize(c, m.to); GrowsSame(c.hist, Step(c, a).hist);
    case Send(i, j) => WellFormedSize(c, i); GrowsSame(c.hist, Step(c, a).hist);
    case HandleAppendResponse(m) => WellFormedSize(c, m.aa.leaderId); GrowsSame(c.hist, Step(c, a).hist);
    case HandleInstallRequest(m) => WellFormedSize(c, m.to); GrowsSame(c.hist, Step(c, a).hist);
    case HandleInstallResponse(m) => WellFormedSize(c, m.ia.leaderId); GrowsSame(c.hist, Step(c, a).hist);
    case Compact(i, index) => WellFormedSize(c, i); GrowsSame(c.hist, Step(c, a).hist);
    case ApplySnapshotTurn(i) => WellFormedSize(c, i); GrowsSame(c.hist, Step(c, a).hist);
    case ApplyCommandTurn(i) => WellFormedSize(c, i); GrowsSame(c.hist, Step(c, a).hist);
    case Crash(i) => WellFormedSize(c, i); GrowsSame(c.hist, Step(c, a).hist);
    case Lose(m) => GrowsSame(c.hist, Step(c, a).hist);
  }

  lemma {:induction false} RunGrows(run: seq<Cluster>, actions: seq<Action>, p: nat, q: nat)
    requires IsRun(run, actions) && p <= q < |run|
    ensures Grows(run[p].hist, run[q].hist) && run[p].views <= run[q].views
    decreases q
  {
    hide Inv, WellFormed, Enabled, NoPanic, Step, Initial;
    if p < q {
      RunGrows(run, actions, p, q - 1);
      RunInv(run, actions, q - 1);
      assert Next(run[q - 1], actions[q - 1], run[q]);
      StepGrows(run[q - 1], actions[q - 1]);
      StepViews(run[q - 1], actions[q - 1]);
      GrowsTrans(run[p].hist, run[q - 1].hist, run[q].hist);
    }
  }

  lemma GrowsTrans(a: History, b: History, c: History)
    requires Grows(a, b) && Grows(b, c)
    ensures Grows(a, c)
  {
    forall v: nat, t: nat ensures Acked(a, v, t) <= Acked(c, v, t) {
      assert Acked(a, v, t) <= Acked(b, v, t) <= Acked(c, v, t);
    }
  }

  // ---------------------------------------------------------------- the theorems

  /** Everything a peer holds: its snapshot, then the commands of its retained log. */
  function Content(s: Node): seq<Command>
    requires |s.log| > 0
  {
    s.snapshot.data + Commands(s.log[1..])
  }

  lemma ContentIsFull(h: History, i: nat, s: Node)
    requires StorageInv(h, i, s)
    ensures |s.log| > 0 && Based(h, s.log) && Content(s) == Commands(Full(h, s.log))
  {
    hide StorageInv, Based, Full, Commands, Committed, LogOk, Holds;
    StorageElim(h, i, s);
    WindowTail(h, s.log);
    CommandsSplit(Full(h, s.log), FirstIndex(s.log));
  }

  lemma WindowTail(h: History, log: seq<LogEntry>)
    requires Based(h, log)
    ensures |log| > 0 && FirstIndex(log) <= |Full(h, log)| && Full(h, log)[FirstIndex(log)..] == log[1..]
  {
  }

  lemma CommandsSplit(f: seq<LogEntry>, b: nat)
    requires b <= |f|
    ensures Commands(f) == Commands(f[..b]) + Commands(f[b..])
  {
  }

  /** Any two service states ever reached lie on one history. */
  lemma ViewsComparable(h: History, v: seq<Command>, w: seq<Command>)
    requires CompleteInv(h) && ViewInv(h, v) && ViewInv(h, w)
    ensures v <= w || w <= v
  {
    var t: nat, p :| Committed(h, t, p) && v == Commands(p);
    var u: nat, q :| Committed(h, u, q) && w == Commands(q);
    CommittedComparable(h, t, p, u, q);
  }

  ghost predicate Seen(c: Cluster) {
    forall i :: 0 <= i < |c.services| ==> c.services[i].applied in c.views
  }

  lemma StepSeen(c: Cluster, a: Action)
    requires WellFormed(c) && Enabled(c, a) && NoPanic(c, a) && Seen(c)
    ensures Seen(Step(c, a))
  {
    hide WellFormed, Based, Full, Window, AppendEntries, RequestVote, InstallSnapshot, ProcessAppendReply,
         ProcessInstallReply, TakeSnapshot, BecomeCandidate, MakeAppendArgs, BecomeLeader,
         OnDisk, Stored, Appended, ProcessVoteReply, Start;
    match a
    case ApplySnapshotTurn(i) => WellFormedSize(c, i);
    case ApplyCommandTurn(i) => WellFormedSize(c, i);
    case Crash(i) => WellFormedSize(c, i);
    case _ => assert Step(c, a).services == c.services && Step(c, a).views == c.views;
  }

  lemma {:induction false} RunSeen(run: seq<Cluster>, actions: seq<Action>, k: nat)
    requires IsRun(run, actions) && k < |run|
    ensures Seen(run[k])
  {
    if k > 0 {
      hide WellFormed, Enabled, NoPanic, Step, Initial, Seen;
      RunSeen(run, actions, k - 1);
      assert Next(run[k - 1], actions[k - 1], run[k]);
      StepSeen(run[k - 1], actions[k - 1]);
    }
  }

  /**
   State Machine Safety: whatever any two peers have handed to their services, at any two
   moments of a run, is the same command at every index both have reached.
   */
  lemma StateMachineSafety(run: seq<Cluster>, actions: seq<Action>, p: nat, i: nat, q: nat, j: nat)
    requires IsRun(run, actions) && p < |run| && q < |run|
    requires i < |run[p].services| && j < |run[q].services|
    ensures var a, b := run[p].services[i].applied, run[q].services[j].applied;
      a <= b || b <= a
  {
    var last := |run| - 1;
    RunSeen(run, actions, p);
    RunSeen(run, actions, q);
    RunGrows(run, actions, p, last);
    RunGrows(run, actions, q, last);
    RunInv(run, actions, last);
    hide PeerInv, MessageInv, IsRun, Grows, ViewInv, TermsInv, CompleteInv, CoversInv;
    var a, b := run[p].services[i].applied, run[q].services[j].applied;
    assert a in run[last].views && b in run[last].views;
    ViewsComparable(run[last].hist, a, b);
  }

  lemma LeaderHasCommitted(h: History, h': History, i: nat, s: Node, svc: Service, j: nat, s': Node, svc': Service)
    requires Grows(h, h') && HistoryInv(h') && PeerInv(h, i, s, svc) && PeerInv(h', j, s', svc')
    requires s'.role == Leader && s'.currentTerm >= s.currentTerm
    ensures |s.log| > 0 && |s'.log| > 0 && s.commitIndex <= |Content(s)|
    ensures Content(s)[..s.commitIndex] <= Content(s')
  {
    hide *;
    HistoryParts(h');
    PeerElim(h, i, s, svc);
    PeerElim(h', j, s', svc');
    ContentIsFull(h, i, s);
    ContentIsFull(h', j, s');
    CommittedPart(h, s, svc);
    LeaderLog(h', j, s');
    var p := Full(h, s.log)[..s.commitIndex];
    CommittedStays(h, h', s.currentTerm, p);
    CommittedInLeader(h', s.currentTerm, p, s'.currentTerm);
    CommandsPrefix(p, Full(h, s.log), s.commitIndex, Full(h', s'.log));
  }

  lemma CommittedPart(h: History, s: Node, svc: Service)
    requires Based(h, s.log) && ProgressInv(h, s, svc)
    ensures s.commitIndex <= |Full(h, s.log)| && Committed(h, s.currentTerm, Full(h, s.log)[..s.commitIndex])
  {
  }

  lemma CommandsPrefix(p: seq<LogEntry>, f: seq<LogEntry>, k: nat, g: seq<LogEntry>)
    requires k <= |f| && p == f[..k] && p <= g
    ensures k <= |Commands(f)| && Commands(f)[..k] <= Commands(g)
  {
  }

  /**
   Leader Completeness: what a peer regards as committed at some moment is held, in its log
   or under its snapshot, by every leader of that or a later term at any later moment.
   */
  lemma LeaderCompleteness(run: seq<Cluster>, actions: seq<Action>, p: nat, i: nat, q: nat, j: nat)
    requires IsRun(run, actions) && p <= q < |run| && i < |run[p].nodes| && j < |run[q].nodes|
    requires run[q].nodes[j].role == Leader && run[q].nodes[j].currentTerm >= run[p].nodes[i].currentTerm
    ensures |run[p].nodes[i].log| > 0 && |run[q].nodes[j].log| > 0
    ensures run[p].nodes[i].commitIndex <= |Content(run[p].nodes[i])|
    ensures Content(run[p].nodes[i])[..run[p].nodes[i].commitIndex] <= Content(run[q].nodes[j])
  {
    hide *;
    RunInv(run, actions, p);
    RunInv(run, actions, q);
    RunGrows(run, actions, p, q);
    InvSize(run[p]);
    InvSize(run[q]);
    InvParts(run[p], i);
    InvParts(run[q], j);
    LeaderHasCommitted(run[p].hist, run[q].hist, i, run[p].nodes[i], run[p].services[i],
                       j, run[q].nodes[j], run[q].services[j]);
  }

  lemma LeaderRecorded(c: Cluster, i: nat)
    requires Inv(c) && i < |c.nodes| && c.nodes[i].role == Leader
    ensures c.nodes[i].currentTerm in c.hist.leader && c.hist.leader[c.nodes[i].currentTerm] == i
  {
    hide Inv, HistoryInv, PeerInv, Based;
    InvSize(c);
    InvParts(c, i);
    PeerElim(c.hist, i, c.nodes[i], c.services[i]);
  }

  /** Election Safety: two leaders of one term, at any two moments of a run, are the same peer. */
  lemma ElectionSafety(run: seq<Cluster>, actions: seq<Action>, p: nat, i: nat, q: nat, j: nat)
    requires IsRun(run, actions) && p < |run| && q < |run| && i < |run[p].nodes| && j < |run[q].nodes|
    requires run[p].nodes[i].role == Leader && run[q].nodes[j].role == Leader
    requires run[p].nodes[i].currentTerm == run[q].nodes[j].currentTerm
    ensures i == j
  {
    hide IsRun, Inv;
    RunInv(run, actions, p);
    RunInv(run, actions, q);
    RunGrows(run, actions, p, |run| - 1) by { hide *; RunSize(run, actions); }
    RunGrows(run, actions, q, |run| - 1) by { hide *; RunSize(run, actions); }
    LeaderRecorded(run[p], i);
    LeaderRecorded(run[q], j);
  }

  lemma RunSize(run: seq<Cluster>, actions: seq<Action>)
    requires IsRun(run, actions)
    ensures |run| > 0
  {
  }

  lemma AgreeBelow(h: History, a: Node, b: Node, i: nat, j: nat, k: nat)
    requires StorageInv(h, i, a) && StorageInv(h, j, b) && Window(a.log) && Window(b.log)
    requires FirstIndex(a.log) <= k <= LastLog(a.log).index && FirstIndex(b.log) <= k <= LastLog(b.log).index
    requires GetLog(a.log, k).term == GetLog(b.log, k).term
    ensures forall x :: FirstIndex(a.log) < x <= k && FirstIndex(b.log) < x ==> GetLog(a.log, x) == GetLog(b.log, x)
    ensures k <= |Content(a)| && k <= |Content(b)| && Content(a)[..k] == Content(b)[..k]
  {
    hide StorageInv, Content, Based, Full, LogOk, GetLog, Commands, Window;
    StorageElim(h, i, a);
    StorageElim(h, j, b);
    var f, g := Full(h, a.log), Full(h, b.log);
    WindowRead(h, a.log, k);
    WindowRead(h, b.log, k);
    LogMatching(h, f, g, k);
    forall x | FirstIndex(a.log) < x <= k && FirstIndex(b.log) < x ensures GetLog(a.log, x) == GetLog(b.log, x) {
      WindowRead(h, a.log, x);
      WindowRead(h, b.log, x);
      assert f[..k][x - 1] == g[..k][x - 1];
    }
    ContentIsFull(h, i, a);
    ContentIsFull(h, j, b);
    CommandsCut(f, k);
    CommandsCut(g, k);
  }

  lemma CommandsCut(f: seq<LogEntry>, k: nat)
    requires k <= |f|
    ensures k <= |Commands(f)| && Commands(f)[..k] == Commands(f[..k])
  {
  }

  /**
   Log Matching with trimming: two peers that retain an index with the same term agree on
   every entry above both bases up to it, and on everything their snapshots hide.
   */
  lemma LogMatchingTheorem(run: seq<Cluster>, actions: seq<Action>, p: nat, i: nat, j: nat, k: nat)
    requires IsRun(run, actions) && p < |run| && i < |run[p].nodes| && j < |run[p].nodes|
    requires Window(run[p].nodes[i].log) && Window(run[p].nodes[j].log)
    requires FirstIndex(run[p].nodes[i].log) <= k <= LastLog(run[p].nodes[i].log).index
    requires FirstIndex(run[p].nodes[j].log) <= k <= LastLog(run[p].nodes[j].log).index
    requires GetLog(run[p].nodes[i].log, k).term == GetLog(run[p].nodes[j].log, k).term
    ensures var a, b := run[p].nodes[i], run[p].nodes[j];
      && (forall x :: FirstIndex(a.log) < x <= k && FirstIndex(b.log) < x ==> GetLog(a.log, x) == GetLog(b.log, x))
      && k <= |Content(a)| && k <= |Content(b)| && Content(a)[..k] == Content(b)[..k]
  {
    hide IsRun, Inv, HistoryInv, PeerInv, StorageInv, Content;
    RunInv(run, actions, p);
    InvSize(run[p]);
    InvParts(run[p], i);
    InvParts(run[p], j);
    PeerElim(run[p].hist, i, run[p].nodes[i], run[p].services[i]);
    PeerElim(run[p].hist, j, run[p].nodes[j], run[p].services[j]);
    AgreeBelow(run[p].hist, run[p].nodes[i], run[p].nodes[j], i, j, k);
  }

  lemma SnapshotAhead(h: History, i: nat, s: Node, svc: Service)
    requires Shape(|h.term|, i, s) && StorageInv(h, i, s) && Based(h, s.log) && ProgressInv(h, s, svc)
    requires s.snapshot.lastIncludedIndex > s.lastApplied
    ensures svc.applied <= s.snapshot.data
  {
  }

  lemma VotesKeepApplied(s: Node, a: VoteArgs, r: VoteReply)
    requires |s.log| > 0
    ensures BecomeCandidate(s).lastApplied == RequestVote(s, a).0.lastApplied == s.lastApplied
    ensures ProcessVoteReply(s, a, r).lastApplied == s.lastApplied
  {
  }

  lemma AppendKeepsApplied(s: Node, a: AppendArgs)
    requires Window(s.log) && Follows(a.entries, a.prevLogIndex)
    ensures AppendEntries(s, a).0.lastApplied == s.lastApplied
  {
  }

  lemma RepliesKeepApplied(s: Node, j: nat, a: AppendArgs, r: AppendReply)
    requires AppendReplyOk(s, j, a, r)
    ensures ProcessAppendReply(s, j, a, r).lastApplied == s.lastApplied
  {
  }

  lemma SnapshotsKeepApplied(s: Node, a: InstallArgs, k: nat, data: seq<Command>)
    requires Window(s.log)
    ensures InstallSnapshot(s, a).0.lastApplied == s.lastApplied
    ensures k <= LastLog(s.log).index ==> TakeSnapshot(s, k, data).lastApplied == s.lastApplied
  {
  }

  lemma OtherStepsKeepServices(c: Cluster, a: Action, i: nat)
    requires WellFormed(c) && Enabled(c, a) && NoPanic(c, a) && i < |c.nodes| == |c.services|
    requires !a.ApplySnapshotTurn? && !a.ApplyCommandTurn? && !a.Crash?
    ensures var c' := Step(c, a);
      c'.services == c.services && |c'.nodes| == |c.nodes| && c'.nodes[i].lastApplied == c.nodes[i].lastApplied
  {
    hide WellFormed, Based, Full, Window, OnDisk, Stored, Appended, AppendEntries, RequestVote, InstallSnapshot,
         ProcessAppendReply, TakeSnapshot, BecomeCandidate, MakeAppendArgs, ProcessVoteReply, AppendReplyOk, Follows;
    match a
    case Timeout(j) =>
      WellFormedSize(c, j);
      VotesKeepApplied(c.nodes[j], VoteArgs(0, 0, 0, 0), VoteReply(0, false));
    case HandleVoteRequest(m) =>
      WellFormedSize(c, m.to);
      VotesKeepApplied(c.nodes[m.to], m.va, VoteReply(0, false));
    case HandleVoteResponse(m) =>
      WellFormedSize(c, m.va.candidateId);
      VotesKeepApplied(c.nodes[m.va.candidateId], m.va, m.vr);
    case HandleAppendRequest(m) =>
      WellFormedSize(c, m.to);
      BasedWindow(c.hist, c.nodes[m.to].log);
      AppendKeepsApplied(c.nodes[m.to], m.aa);
    case HandleAppendResponse(m) =>
      RepliesKeepApplied(c.nodes[m.aa.leaderId], m.from, m.aa, m.ar);
    case HandleInstallRequest(m) =>
      WellFormedSize(c, m.to);
      BasedWindow(c.hist, c.nodes[m.to].log);
      SnapshotsKeepApplied(c.nodes[m.to], m.ia, 0, []);
    case Compact(j, index) =>
      WellFormedSize(c, j);
      BasedWindow(c.hist, c.nodes[j].log);
      SnapshotsKeepApplied(c.nodes[j], InstallArgs(0, 0, Snapshot(0, 0, [])), index, c.services[j].applied[..index]);
    case _ =>
  }

  lemma StepMovesForward(c: Cluster, a: Action, i: nat)
    requires Inv(c) && WellFormed(c) && Enabled(c, a) && NoPanic(c, a) && i < |c.nodes|
    requires a != Crash(i)
    ensures var c' := Step(c, a);
      && |c'.nodes| == |c'.services| == |c.nodes| == |c.services|
      && c.nodes[i].lastApplied <= c'.nodes[i].lastApplied
      && c.services[i].applied <= c'.services[i].applied
  {
    hide Inv, WellFormed, HistoryInv, PeerInv, Based, Full, Window, Committed, StorageInv, ProgressInv, BallotInv,
         CandidateInv, LeaderInv, Shape;
    InvSize(c);
    match a
    case ApplySnapshotTurn(j) =>
      InvParts(c, j);
      PeerElim(c.hist, j, c.nodes[j], c.services[j]);
      if c.nodes[j].snapshot.lastIncludedIndex > c.nodes[j].lastApplied {
        SnapshotAhead(c.hist, j, c.nodes[j], c.services[j]);
      }
    case ApplyCommandTurn(j) => WellFormedSize(c, j);
    case Crash(j) => WellFormedSize(c, j);
    case _ => hide Step; OtherStepsKeepServices(c, a, i);
  }

  /** Between two crashes of a peer its service only moves forward, along one history; so does lastApplied. */
  lemma {:induction false} DeliveryMovesForward(run: seq<Cluster>, actions: seq<Action>, p: nat, q: nat, i: nat)
    requires IsRun(run, actions) && p <= q < |run| && i < |run[p].nodes|
    requires forall k :: p <= k < q ==> actions[k] != Crash(i)
    ensures |run[q].nodes| == |run[q].services| == |run[p].nodes| == |run[p].services|
    ensures run[p].nodes[i].lastApplied <= run[q].nodes[i].lastApplied
    ensures run[p].services[i].applied <= run[q].services[i].applied
    decreases q
  {
    hide Inv, WellFormed, Enabled, NoPanic, Step, Initial;
    if p == q {
      RunInv(run, actions, p);
      InvSize(run[p]);
    } else {
      DeliveryMovesForward(run, actions, p, q - 1, i);
      RunInv(run, actions, q - 1);
      assert Next(run[q - 1], actions[q - 1], run[q]);
      StepMovesForward(run[q - 1], actions[q - 1], i);
    }
  }

  lemma ServiceOfPeer(h: History, i: nat, s: Node, svc: Service)
    requires Shape(|h.term|, i, s) && StorageInv(h, i, s) && Based(h, s.log) && ProgressInv(h, s, svc)
    ensures |svc.applied| <= s.lastApplied <= s.commitIndex <= |Content(s)|
    ensures svc.applied == Content(s)[..|svc.applied|]
    ensures s.snapshot.lastIncludedIndex == s.log[0].index == |s.snapshot.data|
    ensures s.snapshot.lastIncludedTerm == s.log[0].term
    ensures |s.disk.log| > 0 && s.disk.log[0].index == |s.disk.data|
    ensures s.snapshot.data <= Content(s)
  {
    ContentIsFull(h, i, s);
    CommandsCut(Full(h, s.log), |svc.applied|);
  }

  /**
   A service that restores a snapshot and replays the rest has absorbed exactly the peer's
   content; log and snapshot stay in step in memory and on disk.
   */
  lemma ServiceFollowsLog(run: seq<Cluster>, actions: seq<Action>, p: nat, i: nat)
    requires IsRun(run, actions) && p < |run| && i < |run[p].nodes|
    ensures |run[p].services| == |run[p].nodes| && |run[p].nodes[i].log| > 0
    ensures var s, svc := run[p].nodes[i], run[p].services[i];
      && |svc.applied| <= s.lastApplied <= s.commitIndex <= |Content(s)|
      && svc.applied == Content(s)[..|svc.applied|]
      && s.snapshot.lastIncludedIndex == s.log[0].index == |s.snapshot.data|
      && s.snapshot.lastIncludedTerm == s.log[0].term
      && |s.disk.log| > 0 && s.disk.log[0].index == |s.disk.data|
      && s.snapshot.data <= Content(s)
  {
    hide *;
    RunInv(run, actions, p);
    InvSize(run[p]);
    InvParts(run[p], i);
    PeerElim(run[p].hist, i, run[p].nodes[i], run[p].services[i]);
    BasedLast(run[p].hist, run[p].nodes[i].log);
    ServiceOfPeer(run[p].hist, i, run[p].nodes[i], run[p].services[i]);
  }

  lemma NextCommand(h: History, i: nat, s: Node, svc: Service)
    requires StorageInv(h, i, s) && Based(h, s.log) && ProgressInv(h, s, svc) && svc.running
    requires Window(s.log) && s.lastApplied < s.commitIndex <= LastLog(s.log).index
    ensures var d := ApplyCommand(s).1;
      && (d.DeliverCommand? || d.Stop?)
      && (d.DeliverCommand? ==> |s.log| > 0 && d.index == |svc.applied| + 1 <= |Content(s)| && d.command == Content(s)[d.index - 1])
  {
    ContentIsFull(h, i, s);
    hide StorageInv, Based, Full, Committed, Content, Window, Commands;
    ProgressCounts(h, s, svc);
    var k := s.lastApplied + 1;
    if k > FirstIndex(s.log) {
      WindowRead(h, s.log, k);
      CommandAt(Full(h, s.log), k);
    }
  }

  lemma ProgressCounts(h: History, s: Node, svc: Service)
    requires Based(h, s.log) && ProgressInv(h, s, svc) && svc.running
    ensures |svc.applied| == s.lastApplied
  {
  }

  lemma CommandAt(f: seq<LogEntry>, k: nat)
    requires 0 < k <= |f|
    ensures k <= |Commands(f)| && Commands(f)[k - 1] == f[k - 1].command
  {
  }

  /**
   What a turn of the applier delivers: the command right after those already applied, the one
   the peer's log holds there, or a snapshot that goes beyond them; else nothing.
   */
  lemma NothingIsSkipped(run: seq<Cluster>, actions: seq<Action>, i: nat)
    requires |run| == |actions| + 1 && IsRun(run, actions) && i < |run[|actions|].nodes| == |run[|actions|].services|
    ensures var (s, svc) := (run[|actions|].nodes[i], run[|actions|].services[i]);
      && |s.log| > 0
      && (Enabled(run[|actions|], ApplyCommandTurn(i)) ==>
            && Window(s.log) && s.commitIndex <= LastLog(s.log).index
            && var d := ApplyCommand(s).1;
            && (d.DeliverCommand? || d.Stop?)
            && (d.DeliverCommand? ==> d.index == |svc.applied| + 1 <= |Content(s)| && d.command == Content(s)[d.index - 1]))
      && (var d := ApplySnapshot(s).1;
          && (d.DeliverSnapshot? || d.Nothing?)
          && (d.DeliverSnapshot? ==> d.index == |d.data| > |svc.applied| && svc.applied <= d.data))
  {
    hide *;
    var c := run[|actions|];
    RunInv(run, actions, |actions|);
    InvSize(c);
    InvParts(c, i);
    PeerElim(c.hist, i, c.nodes[i], c.services[i]);
    BasedLast(c.hist, c.nodes[i].log);
    ServiceOfPeer(c.hist, i, c.nodes[i], c.services[i]);
    SnapshotBeyond(c.nodes[i], c.services[i]);
    if Enabled(c, ApplyCommandTurn(i)) {
      EveryStepIsSafe(c, ApplyCommandTurn(i));
      TurnFacts(c, i);
      BasedWindow(c.hist, c.nodes[i].log);
      NextCommand(c.hist, i, c.nodes[i], c.services[i]);
    }
  }

  lemma TurnFacts(c: Cluster, i: nat)
    requires WellFormed(c) && Enabled(c, ApplyCommandTurn(i)) && NoPanic(c, ApplyCommandTurn(i))
    ensures |c.nodes[i].log| > 0 && c.services[i].running && c.nodes[i].lastApplied < c.nodes[i].commitIndex <= LastLog(c.nodes[i].log).index
  {
  }

  lemma SnapshotBeyond(s: Node, svc: Service)
    requires |s.log| > 0 && |svc.applied| <= s.lastApplied <= |Content(s)| && svc.applied == Content(s)[..|svc.applied|]
    requires s.snapshot.lastIncludedIndex == |s.snapshot.data| && s.snapshot.data <= Content(s)
    ensures var d := ApplySnapshot(s).1;
      && (d.DeliverSnapshot? || d.Nothing?)
      && (d.DeliverSnapshot? ==> d.index == |d.data| > |svc.applied| && svc.applied <= d.data)
  {
    hide Content;
  }

  /** The vote counter of a candidate equals the number of distinct peers that granted it a vote in its term. */
  lemma VotesAreDistinct(run: seq<Cluster>, actions: seq<Action>, p: nat, i: nat)
    requires IsRun(run, actions) && p < |run| && i < |run[p].nodes| && run[p].nodes[i].role == Candidate
    ensures var s, h := run[p].nodes[i], run[p].hist;
      && s.votes == |Tally(h, i, s.currentTerm)| && Tally(h, i, s.currentTerm) <= Voters(h, i, s.currentTerm)
      && i in Tally(h, i, s.currentTerm)
  {
    hide IsRun, Inv, PeerInv, Based, CompleteInv, CoversInv;
    RunInv(run, actions, p);
    InvSize(run[p]);
    InvParts(run[p], i);
    PeerElim(run[p].hist, i, run[p].nodes[i], run[p].services[i]);
  }
}
