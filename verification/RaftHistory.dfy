/**
 What the proof of labs/src/raft/raft.go remembers about a run: the log each leader built
 in its term, who voted for whom, and how far each peer has durably followed each leader.
 No handler reads any of it.
 */
module RaftHistory {
  import IdLists
  import opened RaftNode

  datatype Grant = Grant(voter: nat, candidate: nat, term: nat)

  datatype History = History(
    termLog: map<nat, seq<LogEntry>>,          // the full log of the leader of each term; term 0 is empty
    leader: map<nat, nat>,                     // who won each term
    openBase: map<nat, nat>,                   // the winner's snapshot index when it won
    granted: set<Grant>,                       // votes given, including a candidate's own
    counted: set<Grant>,                       // votes that reached their candidate
    candLog: map<(nat, nat), seq<LogEntry>>,   // the full log of (candidate, term) when it stood
    acked: map<(nat, nat), nat>,               // (peer, term): how much of termLog[term] it has stored durably
    term: seq<nat>)                            // every peer's current term

  // ---------------------------------------------------------------- quorums

  function Peers(n: nat): (r: set<nat>)
    ensures |r| == n
    ensures forall v: nat :: v in r <==> v < n
  {
    if n == 0 then {} else Peers(n - 1) + {n - 1}
  }

  predicate IsQuorum(q: set<nat>, n: nat) {
    2 * |q| > n
  }

  /** Two majorities of the same peers share a peer. */
  lemma QuorumsMeet(a: set<nat>, b: set<nat>, n: nat) returns (v: nat)
    requires a <= Peers(n) && b <= Peers(n)
    requires IsQuorum(a, n) && IsQuorum(b, n)
    ensures v in a && v in b
  {
    IdLists.SubsetSize(a + b, Peers(n));
    assert |a + b| == |a| + |b| - |a * b|;
    v :| v in a * b;
  }

  // ---------------------------------------------------------------- logs

  /** The log with its trimmed prefix restored from the leader whose entry is the sentinel. */
  ghost predicate Based(h: History, log: seq<LogEntry>) {
    && Window(log)
    && log[0].term in h.termLog
    && log[0].index <= |h.termLog[log[0].term]|
    && (log[0].index == 0 ==> log[0].term == 0)
    && (log[0].index > 0 ==> h.termLog[log[0].term][log[0].index - 1].term == log[0].term)
  }

  function Full(h: History, log: seq<LogEntry>): (r: seq<LogEntry>)
    requires Based(h, log)
    ensures |r| == log[0].index + |log| - 1 == LastLog(log).index
  {
    h.termLog[log[0].term][..log[0].index] + log[1..]
  }

  function TermAt(l: seq<LogEntry>, k: nat): nat
    requires k <= |l|
  {
    if k == 0 then 0 else l[k - 1].term
  }

  /** Entry k of l was created by the leader of its term, whose log agrees with l up to k. */
  ghost predicate EntryOk(h: History, l: seq<LogEntry>, k: nat)
    requires 0 < k <= |l|
  {
    && l[k - 1].index == k
    && l[k - 1].term > 0
    && l[k - 1].term in h.termLog
    && l[..k] <= h.termLog[l[k - 1].term]
  }

  ghost predicate LogOk(h: History, l: seq<LogEntry>) {
    forall k :: 0 < k <= |l| ==> EntryOk(h, l, k)
  }

  ghost predicate Bounded(l: seq<LogEntry>, term: nat) {
    forall i :: 0 <= i < |l| ==> l[i].term <= term
  }

  function Commands(l: seq<LogEntry>): (r: seq<Command>)
    ensures |r| == |l|
    ensures forall i :: 0 <= i < |l| ==> r[i] == l[i].command
  {
    seq(|l|, i requires 0 <= i < |l| => l[i].command)
  }

  /** What a follower's full log becomes when it follows a leader whose log starts with l. */
  function Adopt(f: seq<LogEntry>, l: seq<LogEntry>): seq<LogEntry> {
    if l <= f then f else l
  }

  /** Following a leader never loses what the leader also has. */
  lemma AdoptKeeps(f: seq<LogEntry>, l: seq<LogEntry>, leaderLog: seq<LogEntry>, p: seq<LogEntry>)
    requires p <= f && p <= leaderLog && l <= leaderLog
    ensures p <= Adopt(f, l)
  {
    if |l| <= |p| {
      assert l == p[..|l|];
    }
  }

  // ---------------------------------------------------------------- acknowledgement and choice

  function Acked(h: History, v: nat, t: nat): nat {
    if (v, t) in h.acked then h.acked[(v, t)] else 0
  }

  /** Entry k of the log of leader t was created by that leader. */
  ghost predicate Own(h: History, t: nat, k: nat) {
    t in h.termLog && 0 < k <= |h.termLog[t]| && h.termLog[t][k - 1].term == t
  }

  function Ackers(h: History, t: nat, k: nat): set<nat> {
    set v | v in Peers(|h.term|) && Acked(h, v, t) >= k
  }

  /** A majority has durably stored the log of leader t up to its own entry k. */
  ghost predicate Chosen(h: History, t: nat, k: nat) {
    Own(h, t, k) && IsQuorum(Ackers(h, t, k), |h.term|)
  }

  function Potential(h: History, t: nat, k: nat): set<nat> {
    set v | v in Peers(|h.term|) && (h.term[v] <= t || Acked(h, v, t) >= k)
  }

  /** Entry k of leader t may still come to be chosen. */
  ghost predicate Choosable(h: History, t: nat, k: nat) {
    IsQuorum(Potential(h, t, k), |h.term|)
  }

  lemma ChosenIsChoosable(h: History, t: nat, k: nat)
    requires Chosen(h, t, k)
    ensures Choosable(h, t, k)
  {
    IdLists.SubsetSize(Ackers(h, t, k), Potential(h, t, k));
  }

  /** p is a prefix of what some leader of a term up to t had chosen. */
  ghost predicate Committed(h: History, t: nat, p: seq<LogEntry>) {
    p == [] || exists u: nat, k: nat :: u <= t && Chosen(h, u, k) && p <= h.termLog[u][..k]
  }

  function Voters(h: History, candidate: nat, term: nat): set<nat> {
    set v | v in Peers(|h.term|) && Grant(v, candidate, term) in h.granted
  }

  function Tally(h: History, candidate: nat, term: nat): set<nat> {
    set v | v in Peers(|h.term|) && Grant(v, candidate, term) in h.counted
  }

  // ---------------------------------------------------------------- the invariant of the history

  ghost predicate TermsInv(h: History) {
    && 0 in h.termLog && h.termLog[0] == []
    && (forall t :: t in h.leader <==> t in h.termLog && t > 0)
    && (forall t :: t in h.openBase ==> t in h.leader)
    && (forall t :: t in h.termLog ==> LogOk(h, h.termLog[t]) && Bounded(h.termLog[t], t))
  }

  ghost predicate CandidatesInv(h: History) {
    forall c, t :: (c, t) in h.candLog ==>
      && c < |h.term| && 0 < t <= h.term[c]
      && LogOk(h, h.candLog[(c, t)])
      && Bounded(h.candLog[(c, t)], t - 1)
  }

  ghost predicate GrantsInv(h: History) {
    && h.counted <= h.granted
    && (forall g :: g in h.granted ==>
          g.voter < |h.term| && g.term <= h.term[g.voter] && (g.candidate, g.term) in h.candLog)
  }

  /** A peer votes twice in a term only if its first vote was for itself, and then it never led that term. */
  ghost predicate VotesInv(h: History) {
    && (forall v, c, d, t :: Grant(v, c, t) in h.granted && Grant(v, d, t) in h.granted ==> c == d || c == v || d == v)
    && (forall v, d, t :: Grant(v, d, t) in h.granted && Grant(v, v, t) in h.granted && d != v && t in h.leader ==>
          h.leader[t] != v)
  }

  /**
   A second vote needs a leader of the term, so the quorum that made the leader never votes for
   anyone else in that term.
   */
  ghost predicate FrozenInv(h: History) {
    && (forall v, c, t :: c != v && Grant(v, c, t) in h.granted && Grant(v, v, t) in h.granted ==> t in h.leader)
    && (forall t :: t in h.leader ==> IsQuorum(Tally(h, h.leader[t], t), |h.term|))
    && (forall v, d, t :: t in h.leader && Grant(v, h.leader[t], t) in h.counted && Grant(v, d, t) in h.granted ==>
          d == h.leader[t])
  }

  ghost predicate LeadersInv(h: History) {
    forall t :: t in h.leader ==>
      && h.leader[t] < |h.term| && t <= h.term[h.leader[t]]
      && IsQuorum(Voters(h, h.leader[t], t), |h.term|)
  }

  ghost predicate AcksInv(h: History) {
    forall v, t :: (v, t) in h.acked ==>
      && v < |h.term| && t <= h.term[v]
      && t in h.termLog && h.acked[(v, t)] <= |h.termLog[t]|
  }

  /** Leader Completeness: a later leader has every entry that may still be chosen. */
  ghost predicate CompleteInv(h: History) {
    forall t: nat, u: nat, k: nat :: t < u && u in h.termLog && Own(h, t, k) && Choosable(h, t, k) ==>
      h.termLog[t][..k] <= h.termLog[u]
  }

  /** A voter had checked that its candidate held whatever it had itself acknowledged. */
  ghost predicate CoversInv(h: History) {
    forall g, t: nat, k: nat ::
      (&& g in h.granted && (g.candidate, g.term) in h.candLog
       && t < g.term && Own(h, t, k) && Acked(h, g.voter, t) >= k && Choosable(h, t, k))
      ==> h.termLog[t][..k] <= h.candLog[(g.candidate, g.term)]
  }

  ghost predicate HistoryInv(h: History) {
    && TermsInv(h) && CandidatesInv(h) && GrantsInv(h) && VotesInv(h) && FrozenInv(h) && LeadersInv(h)
    && AcksInv(h) && CompleteInv(h) && CoversInv(h)
  }

  // ---------------------------------------------------------------- consequences

  /** Log Matching: equal terms at an index mean equal logs up to it. */
  lemma LogMatching(h: History, a: seq<LogEntry>, b: seq<LogEntry>, k: nat)
    requires LogOk(h, a) && LogOk(h, b)
    requires k <= |a| && k <= |b| && TermAt(a, k) == TermAt(b, k)
    ensures a[..k] == b[..k]
  {
    if k > 0 {
      assert EntryOk(h, a, k) && EntryOk(h, b, k);
    }
  }

  lemma PrefixOk(h: History, l: seq<LogEntry>, p: seq<LogEntry>)
    requires LogOk(h, l) && p <= l
    ensures LogOk(h, p)
  {
    forall k | 0 < k <= |p| ensures EntryOk(h, p, k) {
      assert EntryOk(h, l, k);
      assert p[..k] == l[..k];
    }
  }

  /** Terms never decrease along a log. */
  lemma TermsMonotone(h: History, l: seq<LogEntry>, i: nat, j: nat)
    requires TermsInv(h) && LogOk(h, l) && 0 < i <= j <= |l|
    ensures l[i - 1].term <= l[j - 1].term
  {
    assert EntryOk(h, l, j);
    var t := l[j - 1].term;
    assert l[..j][i - 1] == h.termLog[t][i - 1];
  }

  lemma TermsOrder(h: History, l: seq<LogEntry>, i: nat, j: nat)
    requires TermsInv(h) && LogOk(h, l) && 0 < i <= |l| && 0 < j <= |l| && l[i - 1].term < l[j - 1].term
    ensures i < j
  {
    if j <= i {
      TermsMonotone(h, l, j, i);
    }
  }

  /** A committed prefix is in the log of every leader from its term on. */
  lemma CommittedInLeader(h: History, t: nat, p: seq<LogEntry>, u: nat)
    requires CompleteInv(h) && Committed(h, t, p) && t <= u && u in h.termLog
    ensures p <= h.termLog[u]
  {
    if p != [] {
      var w: nat, k: nat :| w <= t && Chosen(h, w, k) && p <= h.termLog[w][..k];
      ChosenIsChoosable(h, w, k);
      if w < u {
        assert h.termLog[w][..k] <= h.termLog[u];
      }
    }
  }

  lemma CommittedPrefix(h: History, t: nat, p: seq<LogEntry>, q: seq<LogEntry>, u: nat)
    requires Committed(h, t, p) && q <= p && t <= u
    ensures Committed(h, u, q)
  {
    if q != [] {
      var w: nat, k: nat :| w <= t && Chosen(h, w, k) && p <= h.termLog[w][..k];
      assert q <= h.termLog[w][..k];
    }
  }

  /** Any two committed prefixes lie on one line. */
  lemma CommittedComparable(h: History, t: nat, p: seq<LogEntry>, u: nat, q: seq<LogEntry>)
    requires CompleteInv(h) && Committed(h, t, p) && Committed(h, u, q)
    ensures p <= q || q <= p
  {
    if p != [] && q != [] {
      var w: nat, k: nat :| w <= t && Chosen(h, w, k) && p <= h.termLog[w][..k];
      var x: nat, l: nat :| x <= u && Chosen(h, x, l) && q <= h.termLog[x][..l];
      var top := if w < x then x else w;
      assert Committed(h, w, p) && Committed(h, x, q);
      CommittedInLeader(h, w, p, top);
      CommittedInLeader(h, x, q, top);
    }
  }

  // ---------------------------------------------------------------- growth

  /** h' extends h by something only peer i did. */
  ghost predicate Extends(h: History, h': History, i: nat) {
    && |h'.term| == |h.term|
    && (forall v :: 0 <= v < |h.term| ==> h.term[v] <= h'.term[v] && (v != i ==> h'.term[v] == h.term[v]))
    && (forall t :: t in h.termLog ==> t in h'.termLog && h.termLog[t] <= h'.termLog[t])
    && (forall t :: t in h.leader ==> t in h'.leader && h'.leader[t] == h.leader[t])
    && (forall t :: t in h.leader && t in h.termLog && h.leader[t] != i ==> h'.termLog[t] == h.termLog[t])
    && (forall t :: t in h'.leader && t !in h.leader ==> h'.leader[t] == i)
    && (forall t :: t in h.openBase ==> t in h'.openBase && h'.openBase[t] == h.openBase[t])
    && (forall x :: x in h.candLog ==> x in h'.candLog && h'.candLog[x] == h.candLog[x])
    && h.granted <= h'.granted && h.counted <= h'.counted
    && (forall g :: g in h'.granted && g !in h.granted ==> g.voter == i)
    && (forall g :: g in h'.counted && g !in h.counted ==> g.candidate == i)
    && (forall v: nat, t: nat :: Acked(h, v, t) <= Acked(h', v, t))
    && (forall v: nat, t: nat :: v < |h.term| && Acked(h, v, t) < Acked(h', v, t) ==> v == i && h.term[v] <= t)
  }

  lemma FullGrows(h: History, h': History, i: nat, log: seq<LogEntry>)
    requires Extends(h, h', i) && Based(h, log)
    ensures Based(h', log) && Full(h', log) == Full(h, log)
  {
  }

  lemma LogOkGrows(h: History, h': History, i: nat, l: seq<LogEntry>)
    requires Extends(h, h', i) && LogOk(h, l)
    ensures LogOk(h', l)
  {
    forall k | 0 < k <= |l| ensures EntryOk(h', l, k) {
      assert EntryOk(h, l, k);
    }
  }

  lemma ChosenGrows(h: History, h': History, i: nat, t: nat, k: nat)
    requires Extends(h, h', i) && Chosen(h, t, k)
    ensures Chosen(h', t, k) && h'.termLog[t][..k] == h.termLog[t][..k]
  {
    IdLists.SubsetSize(Ackers(h, t, k), Ackers(h', t, k));
  }

  lemma CommittedGrows(h: History, h': History, i: nat, t: nat, p: seq<LogEntry>)
    requires Extends(h, h', i) && Committed(h, t, p)
    ensures Committed(h', t, p)
  {
    if p != [] {
      var u: nat, k: nat :| u <= t && Chosen(h, u, k) && p <= h.termLog[u][..k];
      ChosenGrows(h, h', i, u, k);
    }
  }

  /** The set of entries that may still be chosen only shrinks. */
  lemma ChoosableShrinks(h: History, h': History, i: nat, t: nat, k: nat)
    requires Extends(h, h', i) && Choosable(h', t, k)
    ensures Choosable(h, t, k)
  {
    IdLists.SubsetSize(Potential(h', t, k), Potential(h, t, k));
  }
}
