/**
 A cluster of Raft peers, their services and the network, as a transition system.

 Every action is one locked region of labs/src/raft/raft.go on one peer.  A message may be
 lost (`Lose`), delayed or overtaken.  Vote requests and replies are handed over at most
 once, as labs/src/labrpc does; append and install traffic may even be handed over again.
 */
module RaftCluster {
  import opened RaftNode
  import opened RaftHistory

  datatype Message =
    | VoteRequest(to: nat, va: VoteArgs)
    | VoteResponse(from: nat, va: VoteArgs, vr: VoteReply)
    | AppendRequest(to: nat, aa: AppendArgs)
    | AppendResponse(from: nat, aa: AppendArgs, ar: AppendReply)
    | InstallRequest(to: nat, ia: InstallArgs)
    | InstallResponse(from: nat, ia: InstallArgs, ir: InstallReply)

  /** The service above a peer: the commands it has absorbed, and whether the applier still runs. */
  datatype Service = Service(applied: seq<Command>, running: bool)

  /** `views` collects every service state that any peer ever had. */
  datatype Cluster = Cluster(nodes: seq<Node>, services: seq<Service>, net: set<Message>,
                             hist: History, views: set<seq<Command>>)

  datatype Action =
    | Timeout(i: nat)                      // tick -> becomeCandidateL
    | HandleVoteRequest(m: Message)        // RequestVote
    | HandleVoteResponse(m: Message)       // processRequestReplyL
    | Send(i: nat, j: nat)                 // append / installL
    | HandleAppendRequest(m: Message)      // AppendEntries
    | HandleAppendResponse(m: Message)     // processAppendReplyL
    | HandleInstallRequest(m: Message)     // InstallSnapshot
    | HandleInstallResponse(m: Message)    // processInstallReplyL
    | Propose(i: nat, command: Command)    // Start
    | Compact(i: nat, index: nat)          // Snapshot
    | ApplySnapshotTurn(i: nat)            // apply -> applySnapshotL
    | ApplyCommandTurn(i: nat)             // apply
    | Crash(i: nat)                        // crash, then Make
    | Lose(m: Message)

  ghost predicate Initial(c: Cluster) {
    && |c.nodes| >= 3 && |c.nodes| % 2 == 1
    && |c.services| == |c.nodes|
    && (forall i :: 0 <= i < |c.nodes| ==> c.nodes[i] == Boot(i, |c.nodes|) && c.services[i] == Service([], true))
    && c.net == {}
    && c.hist == History(map[0 := []], map[], map[], {}, {}, map[], map[], seq(|c.nodes|, _ => 0))
    && c.views == {[]}
  }

  /** When the scheduler, the network or the service may take the action. */
  ghost predicate Enabled(c: Cluster, a: Action) {
    var n := |c.nodes|;
    match a
    case Timeout(i) => i < n && c.nodes[i].role != Leader
    case HandleVoteRequest(m) => m in c.net && m.VoteRequest? && m.to < n
    case HandleVoteResponse(m) => m in c.net && m.VoteResponse? && m.va.candidateId < n
    case Send(i, j) => i < n && j < n && i != j && c.nodes[i].role == Leader
    case HandleAppendRequest(m) => m in c.net && m.AppendRequest? && m.to < n
    case HandleAppendResponse(m) => m in c.net && m.AppendResponse? && m.aa.leaderId < n
    case HandleInstallRequest(m) => m in c.net && m.InstallRequest? && m.to < n
    case HandleInstallResponse(m) => m in c.net && m.InstallResponse? && m.ia.leaderId < n
    case Propose(i, command) => i < n && c.nodes[i].role == Leader
    case Compact(i, index) => i < n == |c.services| && index <= |c.services[i].applied|
    case ApplySnapshotTurn(i) => i < n == |c.services| && c.services[i].running && c.nodes[i].applySnapshot
    case ApplyCommandTurn(i) =>
      i < n == |c.services| && c.services[i].running && c.nodes[i].lastApplied < c.nodes[i].commitIndex
    case Crash(i) => i < n
    case Lose(m) => m in c.net
  }

  /** The parts the history needs in order to name full logs. */
  ghost predicate WellFormed(c: Cluster) {
    && |c.services| == |c.nodes| == |c.hist.term| >= 3
    && (forall i :: 0 <= i < |c.nodes| ==>
          && Based(c.hist, c.nodes[i].log) && Based(c.hist, c.nodes[i].disk.log)
          && |c.nodes[i].nextIndex| == |c.nodes[i].matchIndex| == |c.nodes|)
  }

  /** The action's region runs without an out-of-range slice access. */
  ghost predicate NoPanic(c: Cluster, a: Action)
    requires WellFormed(c) && Enabled(c, a)
  {
    match a
    case Send(i, j) => c.nodes[i].nextIndex[j] <= LastLog(c.nodes[i].log).index + 1
    case HandleAppendRequest(m) => Follows(m.aa.entries, m.aa.prevLogIndex)
    case HandleAppendResponse(m) => AppendReplyOk(c.nodes[m.aa.leaderId], m.from, m.aa, m.ar)
    case HandleInstallResponse(m) => m.from < |c.nodes|
    case Compact(i, index) => index <= LastLog(c.nodes[i].log).index
    case ApplyCommandTurn(i) => c.nodes[i].commitIndex <= LastLog(c.nodes[i].log).index
    case _ => true
  }

  /** Peer i moves to s; `gone` leaves the network, `sent` joins it. */
  function Move(c: Cluster, i: nat, s: Node, h: History, gone: set<Message>, sent: set<Message>): Cluster
    requires i < |c.nodes| == |h.term|
  {
    c.(nodes := c.nodes[i := s], hist := h.(term := h.term[i := s.currentTerm]), net := c.net - gone + sent)
  }

  /** The service of peer i absorbs a delivery. */
  function Absorb(c: Cluster, i: nat, d: Delivery): Cluster
    requires i < |c.services|
  {
    match d
    case Nothing => c
    case Stop => c.(services := c.services[i := c.services[i].(running := false)])
    case DeliverCommand(_, command) =>
      var applied := c.services[i].applied + [command];
      c.(services := c.services[i := c.services[i].(applied := applied)], views := c.views + {applied})
    case DeliverSnapshot(_, data) =>
      c.(services := c.services[i := c.services[i].(applied := data)], views := c.views + {data})
  }

  function VoteRequests(n: nat, a: VoteArgs): set<Message> {
    set j | j in Peers(n) && j != a.candidateId :: VoteRequest(j, a)
  }

  // ---------------------------------------------------------------- history updates

  function StoodFor(h: History, c: nat, t: nat, l: seq<LogEntry>): History {
    h.(granted := h.granted + {Grant(c, c, t)}, counted := h.counted + {Grant(c, c, t)},
       candLog := h.candLog[(c, t) := l])
  }

  function Won(h: History, c: nat, t: nat, l: seq<LogEntry>, base: nat): History {
    h.(leader := h.leader[t := c], termLog := h.termLog[t := l], openBase := h.openBase[t := base])
  }

  function Stored(h: History, v: nat, t: nat, k: nat): History {
    if k > Acked(h, v, t) then h.(acked := h.acked[(v, t) := k]) else h
  }

  function Appended(h: History, v: nat, t: nat, e: LogEntry): History {
    var l := (if t in h.termLog then h.termLog[t] else []) + [e];
    Stored(h.(termLog := h.termLog[t := l]), v, t, |l|)
  }

  /** Peer v has the first k entries of leader t on disk. */
  ghost predicate OnDisk(h: History, s: Node, t: nat, k: nat) {
    && t in h.termLog && k <= |h.termLog[t]|
    && Based(h, s.disk.log) && h.termLog[t][..k] <= Full(h, s.disk.log)
  }

  // ---------------------------------------------------------------- the step

  ghost function Step(c: Cluster, a: Action): Cluster
    requires WellFormed(c) && Enabled(c, a) && NoPanic(c, a)
  {
    var h := c.hist;
    match a
    case Timeout(i) =>
      var s := BecomeCandidate(c.nodes[i]);
      Move(c, i, s, StoodFor(h, i, s.currentTerm, Full(h, s.log)), {},
           VoteRequests(|c.nodes|, RequestArgs(s)))
    case HandleVoteRequest(m) =>
      var (s, r) := RequestVote(c.nodes[m.to], m.va);
      var h1 := if r.voteGranted then h.(granted := h.granted + {Grant(m.to, m.va.candidateId, m.va.term)}) else h;
      Move(c, m.to, s, h1, {m}, {VoteResponse(m.to, m.va, r)})
    case HandleVoteResponse(m) =>
      var i := m.va.candidateId;
      var s := c.nodes[i];
      var s' := ProcessVoteReply(s, m.va, m.vr);
      var counts := s.currentTerm == m.va.term && s.role == Candidate && m.vr.voteGranted;
      var h1 := if counts then h.(counted := h.counted + {Grant(m.from, i, m.va.term)}) else h;
      var h2 := if s.role == Candidate && s'.role == Leader then Won(h1, i, s.currentTerm, Full(h, s.log), FirstIndex(s.log)) else h1;
      Move(c, i, s', h2, {m}, {})
    case Send(i, j) =>
      var s := c.nodes[i];
      if s.nextIndex[j] <= FirstIndex(s.log) then
        Move(c, i, s, h, {}, {InstallRequest(j, InstallArgs(s.currentTerm, i, s.snapshot))})
      else
        Move(c, i, s, h, {}, {AppendRequest(j, MakeAppendArgs(s, j))})
    case HandleAppendRequest(m) =>
      var (s, r) := AppendEntries(c.nodes[m.to], m.aa);
      var k := m.aa.prevLogIndex + |m.aa.entries|;
      var h1 := if r.success && OnDisk(h, s, m.aa.term, k) then Stored(h, m.to, m.aa.term, k) else h;
      Move(c, m.to, s, h1, {}, {AppendResponse(m.to, m.aa, r)})
    case HandleAppendResponse(m) =>
      var i := m.aa.leaderId;
      Move(c, i, ProcessAppendReply(c.nodes[i], m.from, m.aa, m.ar), h, {}, {})
    case HandleInstallRequest(m) =>
      var (s, r) := InstallSnapshot(c.nodes[m.to], m.ia);
      Move(c, m.to, s, h, {}, {InstallResponse(m.to, m.ia, r)})
    case HandleInstallResponse(m) =>
      var i := m.ia.leaderId;
      Move(c, i, ProcessInstallReply(c.nodes[i], m.from, m.ia, m.ir), h, {}, {})
    case Propose(i, command) =>
      var s := c.nodes[i];
      Move(c, i, Start(s, command),
           Appended(h, i, s.currentTerm, LogEntry(command, LastLog(s.log).index + 1, s.currentTerm)), {}, {})
    case Compact(i, index) =>
      Move(c, i, TakeSnapshot(c.nodes[i], index, c.services[i].applied[..index]), h, {}, {})
    case ApplySnapshotTurn(i) =>
      var (s, d) := ApplySnapshot(c.nodes[i]);
      Absorb(Move(c, i, s, h, {}, {}), i, d)
    case ApplyCommandTurn(i) =>
      var (s, d) := ApplyCommand(c.nodes[i]);
      Absorb(Move(c, i, s, h, {}, {}), i, d)
    case Crash(i) =>
      var s := Restart(c.nodes[i]);
      var c1 := Move(c, i, s, h, {}, {});
      c1.(services := c.services[i := Service(s.snapshot.data, true)], views := c.views + {s.snapshot.data})
    case Lose(m) => c.(net := c.net - {m})
  }

  ghost predicate Next(c: Cluster, a: Action, c': Cluster) {
    WellFormed(c) && Enabled(c, a) && NoPanic(c, a) && c' == Step(c, a)
  }
}
