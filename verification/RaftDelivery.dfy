/** Snapshots, the applier, crashes and losses keep the invariant. */
module RaftDelivery {
  import opened RaftNode
  import opened RaftHistory
  import opened RaftCluster
  import opened RaftInvariant
  import opened RaftElection
  import opened RaftVoting
  import opened RaftReplication
  import opened RaftAppend
  import opened RaftLeading

  // ---------------------------------------------------------------- taking a snapshot

  function Compacted(s: Node, index: nat, data: seq<Command>): Node
    requires Window(s.log) && FirstIndex(s.log) < index <= LastLog(s.log).index
  {
    TakeSnapshot(s, index, data)
  }

  lemma CompactedFields(s: Node, index: nat, data: seq<Command>)
    requires Window(s.log) && FirstIndex(s.log) < index <= LastLog(s.log).index
    ensures var s' := Compacted(s, index, data);
      && s'.log == TrimLog(s.log, index) && s'.snapshot.data == data && s'.currentTerm == s.currentTerm
      && s'.disk.log == s'.log && s'.disk.data == data && FirstIndex(s'.log) == index
      && s'.commitIndex == s.commitIndex && s'.lastApplied == s.lastApplied && s'.role == s.role
  {
  }

  lemma CompactStorage(h: History, i: nat, s: Node, svc: Service, index: nat)
    requires StorageInv(h, i, s) && Based(h, s.log) && ProgressInv(h, s, svc) && index <= |svc.applied|
    requires FirstIndex(s.log) < index <= LastLog(s.log).index
    ensures var s' := Compacted(s, index, svc.applied[..index]);
      && StorageInv(h, i, s') && Based(h, s'.log) && Full(h, s'.log) == Full(h, s.log)
  {
    hide *;
    BasedWindow(h, s.log);
    var s', f := Compacted(s, index, svc.applied[..index]), Full(h, s.log);
    StorageElim(h, i, s);
    CompactedFields(s, index, svc.applied[..index]);
    TrimFull(h, s.log, index);
    CompactedPrefix(h, s, svc, index);
    LogIntro(h, s.currentTerm, s'.log, svc.applied[..index], f);
    StorageIntro(h, i, s');
  }

  lemma CompactedPrefix(h: History, s: Node, svc: Service, index: nat)
    requires Based(h, s.log) && ProgressInv(h, s, svc) && index <= |svc.applied|
    ensures index <= |Full(h, s.log)|
    ensures Committed(h, s.currentTerm, Full(h, s.log)[..index])
    ensures svc.applied[..index] == Commands(Full(h, s.log)[..index])
  {
    var f := Full(h, s.log);
    CommittedPrefix(h, s.currentTerm, f[..s.commitIndex], f[..index], s.currentTerm);
  }

  lemma CompactFacts(h: History, i: nat, s: Node, svc: Service, index: nat)
    requires Shape(|h.term|, i, s) && BallotInv(h, i, s) && Based(h, s.log) && CandidateInv(h, i, s) && LeaderInv(h, i, s)
    requires ProgressInv(h, s, svc) && index <= |svc.applied| && FirstIndex(s.log) < index <= LastLog(s.log).index
    requires var s' := Compacted(s, index, svc.applied[..index]);
      Based(h, s'.log) && Full(h, s'.log) == Full(h, s.log)
    ensures var s' := Compacted(s, index, svc.applied[..index]);
      && Shape(|h.term|, i, s') && BallotInv(h, i, s') && CandidateInv(h, i, s') && LeaderInv(h, i, s')
      && ProgressInv(h, s', svc)
  {
  }

  lemma CompactPeer(h: History, i: nat, s: Node, svc: Service, index: nat)
    requires PeerInv(h, i, s, svc) && index <= |svc.applied| && Window(s.log)
    requires FirstIndex(s.log) < index <= LastLog(s.log).index
    ensures PeerInv(h, i, Compacted(s, index, svc.applied[..index]), svc)
  {
    hide *;
    PeerElim(h, i, s, svc);
    CompactStorage(h, i, s, svc, index);
    CompactFacts(h, i, s, svc, index);
    CompactedFields(s, index, svc.applied[..index]);
    PeerIntro(h, i, Compacted(s, index, svc.applied[..index]), svc);
  }

  lemma ProgressBounds(h: History, s: Node, svc: Service)
    requires Based(h, s.log) && ProgressInv(h, s, svc)
    ensures |svc.applied| <= s.lastApplied <= s.commitIndex <= LastLog(s.log).index
  {
  }

  lemma CompactInv(c: Cluster, i: nat, index: nat)
    requires Inv(c) && WellFormed(c) && Enabled(c, Compact(i, index)) && NoPanic(c, Compact(i, index))
    ensures Inv(Step(c, Compact(i, index)))
  {
    hide Inv, WellFormed, HistoryInv, PeerInv, Based, Move, TrimLog, Window;
    var s := c.nodes[i];
    WellFormedSize(c, i);
    InvParts(c, i);
    BasedWindow(c.hist, s.log);
    if index > FirstIndex(s.log) {
      CompactPeer(c.hist, i, s, c.services[i], index);
    }
    TouchInv(c, i, TakeSnapshot(s, index, c.services[i].applied[..index]));
  }

  // ---------------------------------------------------------------- the applier

  /** A step in which peer i moves to s and its service to svc, with no messages. */
  lemma DeliverInv(c: Cluster, i: nat, s: Node, svc: Service, c': Cluster)
    requires Inv(c) && i < |c.nodes| == |c.services| && PeerInv(c.hist, i, s, svc)
    requires c'.nodes == c.nodes[i := s] && c'.services == c.services[i := svc] && c'.hist == c.hist && c'.net == c.net
    requires c'.views == c.views + {svc.applied} || c'.views == c.views
    ensures Inv(c')
  {
    hide *;
    InvSize(c);
    InvParts(c, i);
    SameHistory(c.hist, i);
    assert c'.nodes[i] == s && c'.services[i] == svc;
    Assemble(c, c', i);
  }

  /** Turning the applier never moves storage, term or role. */
  lemma ApplierPeer(h: History, i: nat, s: Node, svc: Service, s': Node, svc': Service)
    requires PeerInv(h, i, s, svc) && Based(h, s'.log) && ProgressInv(h, s', svc')
    requires s' == s.(applySnapshot := s'.applySnapshot, commitIndex := s'.commitIndex, lastApplied := s'.lastApplied)
    requires s'.commitIndex >= s.commitIndex || s'.commitIndex >= s.snapshot.lastIncludedIndex
    ensures PeerInv(h, i, s', svc')
  {
    hide PeerInv, StorageInv, ProgressInv, Based;
    PeerElim(h, i, s, svc);
    ApplierFacts(h, i, s, s');
    StorageSame(h, i, s, s');
    PeerIntro(h, i, s', svc');
  }

  lemma ApplierFacts(h: History, i: nat, s: Node, s': Node)
    requires Shape(|h.term|, i, s) && BallotInv(h, i, s) && Based(h, s.log) && CandidateInv(h, i, s) && LeaderInv(h, i, s)
    requires s' == s.(applySnapshot := s'.applySnapshot, commitIndex := s'.commitIndex, lastApplied := s'.lastApplied)
    requires s'.commitIndex >= s.commitIndex || s'.commitIndex >= s.snapshot.lastIncludedIndex
    ensures Shape(|h.term|, i, s') && BallotInv(h, i, s') && CandidateInv(h, i, s') && LeaderInv(h, i, s')
  {
  }

  /** A snapshot is delivered only forward, and it stands for exactly the committed prefix it names. */
  lemma SnapshotProgress(h: History, i: nat, s: Node, svc: Service)
    requires Shape(|h.term|, i, s) && StorageInv(h, i, s) && Based(h, s.log) && ProgressInv(h, s, svc)
    requires s.snapshot.lastIncludedIndex > s.lastApplied
    ensures ProgressInv(h, ApplySnapshot(s).0, svc.(applied := s.snapshot.data))
  {
  }

  lemma ApplySnapshotInv(c: Cluster, i: nat)
    requires Inv(c) && WellFormed(c) && Enabled(c, ApplySnapshotTurn(i))
    ensures Inv(Step(c, ApplySnapshotTurn(i)))
  {
    hide Inv, WellFormed, HistoryInv, PeerInv, Based, StorageInv, ProgressInv, BallotInv, CandidateInv, LeaderInv;
    var s, svc := c.nodes[i], c.services[i];
    var (s', d) := ApplySnapshot(s);
    WellFormedSize(c, i);
    InvParts(c, i);
    PeerElim(c.hist, i, s, svc);
    var svc' := if d.DeliverSnapshot? then svc.(applied := d.data) else svc;
    if d.DeliverSnapshot? {
      SnapshotProgress(c.hist, i, s, svc);
    } else {
      ProgressLater(c.hist, s, s', svc);
    }
    ApplierPeer(c.hist, i, s, svc, s', svc');
    SameTerm(c.hist, i, s'.currentTerm);
    NoMessage(c.net);
    NoChange(c.services, i);
    DeliverInv(c, i, s', svc', Step(c, ApplySnapshotTurn(i)));
  }

  lemma NoChange<T>(s: seq<T>, i: nat)
    requires i < |s|
    ensures s[i := s[i]] == s
  {
  }

  /** The next command is the next entry of the committed log. */
  lemma CommandProgress(h: History, s: Node, svc: Service)
    requires Based(h, s.log) && ProgressInv(h, s, svc) && svc.running && s.lastApplied < s.commitIndex
    requires s.commitIndex <= LastLog(s.log).index
    ensures var (s', d) := ApplyCommand(s);
      && (d.DeliverCommand? ==> ProgressInv(h, s', svc.(applied := svc.applied + [d.command])))
      && (d.Stop? ==> ProgressInv(h, s', svc.(running := false)))
      && (d.DeliverCommand? || d.Stop?)
  {
    var f, k := Full(h, s.log), s.lastApplied + 1;
    if k > FirstIndex(s.log) {
      WindowRead(h, s.log, k);
      assert f[..k] == f[..k - 1] + [f[k - 1]];
      assert Commands(f[..k]) == Commands(f[..k - 1]) + [f[k - 1].command];
    }
  }

  lemma ApplyCommandInv(c: Cluster, i: nat)
    requires Inv(c) && WellFormed(c) && Enabled(c, ApplyCommandTurn(i)) && NoPanic(c, ApplyCommandTurn(i))
    ensures Inv(Step(c, ApplyCommandTurn(i)))
  {
    hide Inv, WellFormed, HistoryInv, PeerInv, Based, StorageInv, ProgressInv, BallotInv, CandidateInv, LeaderInv;
    var s, svc := c.nodes[i], c.services[i];
    WellFormedSize(c, i);
    BasedWindow(c.hist, s.log);
    var (s', d) := ApplyCommand(s);
    InvParts(c, i);
    PeerElim(c.hist, i, s, svc);
    CommandProgress(c.hist, s, svc);
    var svc' := if d.Stop? then svc.(running := false) else svc.(applied := svc.applied + [d.command]);
    ApplierPeer(c.hist, i, s, svc, s', svc');
    SameTerm(c.hist, i, s'.currentTerm);
    NoMessage(c.net);
    DeliverInv(c, i, s', svc', Step(c, ApplyCommandTurn(i)));
  }

  // ---------------------------------------------------------------- crash and loss

  /** Rolling back to the disk loses nothing that was acknowledged, although a snapshot may be lost. */
  lemma RestartPeer(h: History, i: nat, s: Node, svc: Service)
    requires PeerInv(h, i, s, svc)
    ensures |s.disk.log| > 0 && PeerInv(h, i, Restart(s), Service(s.disk.data, true))
  {
    hide LogOk, Holds, Committed, Bounded, Full, Matched, Own;
  }

  lemma CrashInv(c: Cluster, i: nat)
    requires Inv(c) && WellFormed(c) && Enabled(c, Crash(i))
    ensures Inv(Step(c, Crash(i)))
  {
    hide Inv, WellFormed, HistoryInv, PeerInv, Based, StorageInv, ProgressInv, BallotInv, CandidateInv, LeaderInv;
    WellFormedSize(c, i);
    InvParts(c, i);
    RestartPeer(c.hist, i, c.nodes[i], c.services[i]);
    var s := Restart(c.nodes[i]);
    PeerElim(c.hist, i, s, Service(s.disk.data, true));
    SameTerm(c.hist, i, s.currentTerm);
    NoMessage(c.net);
    DeliverInv(c, i, s, Service(s.disk.data, true), Step(c, Crash(i)));
  }

  lemma LoseInv(c: Cluster, m: Message)
    requires Inv(c) && WellFormed(c) && Enabled(c, Lose(m))
    ensures Inv(Step(c, Lose(m)))
  {
    hide HistoryInv, PeerInv, MessageInv, ViewInv;
  }
}
