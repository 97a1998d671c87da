/**
 The shard controller of labs/src/shardctrler/server.go as a state machine over its log:
 the configurations made so far and the allocation that the next one is made from.
 */
module ShardCtrl {
  import opened IdLists
  import opened MapIteration
  import opened Shards
  import opened Rebalance

  datatype Config = Config(num: nat, shards: seq<int>, groups: map<int, seq<string>>)

  datatype Request =
    | Join(servers: map<int, seq<string>>)
    | Leave(gids: seq<int>)
    | Move(shard: nat, gid: int)
    | Query(num: int)

  datatype Op = Op(clientId: int, opId: int, request: Request)

  datatype LastOp = LastOp(opId: int, queryResult: Config)

  datatype Err = OK | ErrDuplicate

  datatype Result = Result(err: Err, config: Config)

  datatype Ctrl = Ctrl(configs: seq<Config>, gidShards: Alloc, lastOps: map<int, LastOp>)

  function Unassigned(): seq<int> {
    seq(NShards, _ => 0)
  }

  function NoConfig(): Config {
    Config(0, Unassigned(), map[])
  }

  function Initial(): Ctrl {
    Ctrl([NoConfig()], map[], map[])
  }

  function Latest(st: Ctrl): Config
    requires st.configs != []
  {
    st.configs[|st.configs| - 1]
  }

  // ---------------------------------------------------------------- making a configuration

  ghost function OwnerOr(a: Alloc, s: nat, otherwise: int): int {
    if Held(a, s) then var g :| Owns(a, g, s); g else otherwise
  }

  /** The allocation written over the previous assignment. */
  ghost function Assigned(a: Alloc, shards: seq<int>): seq<int>
    requires |shards| == NShards
  {
    seq(NShards, s requires 0 <= s < NShards => OwnerOr(a, s, shards[s]))
  }

  function AllShards(): (r: seq<nat>)
    ensures |r| == NShards && forall i :: 0 <= i < NShards ==> r[i] == i
  {
    seq(NShards, i => i)
  }

  ghost function WithNewGroups(a: Alloc, servers: map<int, seq<string>>): Alloc {
    a + map k | k in servers :: []
  }

  ghost function Joined(st: Ctrl, servers: map<int, seq<string>>): Alloc
    requires st.configs != []
  {
    var a := WithNewGroups(st.gidShards, servers);
    if Latest(st).groups == map[] then a[MinGid(a) := AllShards()] else a
  }

  /** `applyJoinL`. */
  ghost function JoinTo(st: Ctrl, servers: map<int, seq<string>>): Ctrl
    requires st.configs != [] && |Latest(st).shards| == NShards
  {
    var a := Rebalanced(Joined(st, servers));
    var c := Config(|st.configs|, Assigned(a, Latest(st).shards), Latest(st).groups + servers);
    st.(configs := st.configs + [c], gidShards := a)
  }

  function Listed(gids: seq<int>): set<int> {
    set g | g in gids
  }

  predicate ListedTwice(gids: seq<int>, g: int) {
    exists i, j :: 0 <= i < j < |gids| && gids[i] == g && gids[j] == g
  }

  /** The shards of the groups that leave; those of a group listed twice are forgotten. */
  ghost predicate Freed(a: Alloc, gids: seq<int>, s: nat) {
    exists g :: Owns(a, g, s) && g in gids && !ListedTwice(gids, g)
  }

  ghost function FreedSet(a: Alloc, gids: seq<int>): set<nat> {
    set s: nat | s < NShards && Freed(a, gids, s)
  }

  ghost predicate Ascending(r: seq<nat>) {
    forall i, j :: 0 <= i < j < |r| ==> r[i] < r[j]
  }

  /** The members of the set below n, in ascending order. */
  ghost function InOrder(members: set<nat>, n: nat): (r: seq<nat>)
    ensures Distinct(r) && Ascending(r) && Over(r, n) && forall x: nat :: x in r <==> x in members && x < n
  {
    if n == 0 then [] else InOrder(members, n - 1) + if n - 1 in members then [n - 1] else []
  }

  ghost function Remaining(a: Alloc, gids: seq<int>): Alloc {
    a - Listed(gids)
  }

  ghost function FreedShards(a: Alloc, gids: seq<int>): seq<nat> {
    InOrder(FreedSet(a, gids), NShards)
  }

  ghost function Left(st: Ctrl, gids: seq<int>): Alloc {
    var a := Remaining(st.gidShards, gids);
    var lo := MinGid(a);
    a[lo := (if lo in a then a[lo] else []) + FreedShards(st.gidShards, gids)]
  }

  /** `applyLeaveL`. */
  ghost function LeaveFrom(st: Ctrl, gids: seq<int>): Ctrl
    requires st.configs != [] && |Latest(st).shards| == NShards
  {
    var groups := Latest(st).groups - Listed(gids);
    var a := if groups == map[] then Remaining(st.gidShards, gids) else Rebalanced(Left(st, gids));
    var shards := if groups == map[] then Unassigned() else Assigned(a, Latest(st).shards);
    st.(configs := st.configs + [Config(|st.configs|, shards, groups)], gidShards := a)
  }

  function Without(list: seq<nat>, s: nat): seq<nat> {
    if list == [] then []
    else if list[0] == s then list[1..]
    else [list[0]] + Without(list[1..], s)
  }

  ghost function TakenOut(a: Alloc, s: nat): Alloc {
    if Held(a, s) then var g :| Owns(a, g, s); a[g := Without(a[g], s)] else a
  }

  ghost function Moved(a: Alloc, s: nat, gid: int): Alloc {
    var b := TakenOut(a, s);
    b[gid := (if gid in b then b[gid] else []) + [s]]
  }

  /** `applyMoveL`. */
  ghost function MoveTo(st: Ctrl, s: nat, gid: int): Ctrl
    requires st.configs != [] && |Latest(st).shards| == NShards && s < NShards
  {
    var c := Config(|st.configs|, Latest(st).shards[s := gid], Latest(st).groups);
    st.(configs := st.configs + [c], gidShards := Moved(st.gidShards, s, gid))
  }

  // ---------------------------------------------------------------- the invariant

  /** No shard is allocated twice, and the allocation has exactly the groups of the configuration. */
  ghost predicate Fitting(a: Alloc, c: Config) {
    Disjoint(a) && a.Keys == c.groups.Keys && |c.shards| == NShards
  }

  /** The allocation is an exact partition of the shards among the groups and agrees with the configuration. */
  ghost predicate Partitioned(a: Alloc, c: Config) {
    && Fitting(a, c)
    && (c.groups == map[] ==> c.shards == Unassigned())
    && (c.groups != map[] ==> forall s: nat :: s < NShards ==> Owns(a, c.shards[s], s))
  }

  /** What every state keeps in which the program still runs, although shards may have been lost. */
  ghost predicate Sane(st: Ctrl) {
    && st.configs != []
    && (forall i :: 0 <= i < |st.configs| ==> st.configs[i].num == i)
    && Fitting(st.gidShards, Latest(st))
  }

  ghost predicate Valid(st: Ctrl) {
    Sane(st) && Partitioned(st.gidShards, Latest(st))
  }

  lemma InitialValid()
    ensures Valid(Initial())
  {
  }

  /** What a caller must see to: no group with shards joins again, none with shards is listed twice, the target of a move exists. */
  ghost predicate Admissible(st: Ctrl, request: Request)
    requires st.configs != []
  {
    var groups := Latest(st).groups;
    match request
    case Join(servers) =>
      && (groups == map[] ==> servers != map[])
      && (forall k :: k in servers && k in st.gidShards ==> st.gidShards[k] == [])
    case Leave(gids) =>
      || groups - Listed(gids) == map[]
      || (forall g :: g in st.gidShards && ListedTwice(gids, g) ==> st.gidShards[g] == [])
    case Move(shard, gid) => gid in groups
    case Query(num) => true
  }

  /** A shard number or configuration number out of range stops the program. */
  predicate InRange(request: Request) {
    (request.Move? ==> request.shard < NShards) && (request.Query? ==> request.num >= -1)
  }

  ghost function Apply(st: Ctrl, request: Request): Ctrl
    requires st.configs != [] && |Latest(st).shards| == NShards && InRange(request)
  {
    match request
    case Join(servers) => JoinTo(st, servers)
    case Leave(gids) => LeaveFrom(st, gids)
    case Move(shard, gid) => MoveTo(st, shard, gid)
    case Query(num) => st
  }

  // ---------------------------------------------------------------- lemmas about allocations

  lemma AssignedOwns(a: Alloc, shards: seq<int>, s: nat)
    requires |shards| == NShards && s < NShards && Held(a, s)
    ensures Owns(a, Assigned(a, shards)[s], s)
  {
  }

  lemma OwnerUnique(a: Alloc, shards: seq<int>, g: int, s: nat)
    requires |shards| == NShards && s < NShards && Disjoint(a) && Owns(a, g, s)
    ensures Assigned(a, shards)[s] == g
  {
  }

  /** Rebalancing an allocation that covers the shards gives a partition. */
  lemma RebalancedPartition(a: Alloc, shards: seq<int>, c: Config)
    requires Disjoint(a) && a.Keys == c.groups.Keys && c.groups != map[] && |shards| == NShards
    requires c.shards == Assigned(Rebalanced(a), shards)
    ensures Partitioned(Rebalanced(a), c) <==> forall s: nat :: s < NShards ==> Held(a, s)
  {
    RebalancedKeeps(a);
    var b := Rebalanced(a);
    hide Disjoint, Rebalanced;
    if forall s: nat :: s < NShards ==> Held(a, s) {
      forall s: nat | s < NShards ensures Owns(b, c.shards[s], s) {
        assert Held(a, s) && Held(b, s);
        AssignedOwns(b, shards, s);
      }
    }
    if Partitioned(b, c) {
      forall s: nat | s < NShards ensures Held(a, s) {
        assert Owns(b, c.shards[s], s);
        assert Held(b, s);
      }
    }
  }

  // ---------------------------------------------------------------- Join

  lemma NewGroupsOwn(a: Alloc, servers: map<int, seq<string>>, g: int, s: nat)
    ensures Owns(WithNewGroups(a, servers), g, s) <==> Owns(a, g, s) && g !in servers
  {
  }

  lemma JoinedDisjoint(st: Ctrl, servers: map<int, seq<string>>)
    requires Sane(st)
    ensures Disjoint(Joined(st, servers))
    ensures (Latest(st).groups == map[] ==> servers != map[]) ==>
      Joined(st, servers).Keys == Latest(st).groups.Keys + servers.Keys
  {
    var a := WithNewGroups(st.gidShards, servers);
    forall g, s: nat ensures Owns(a, g, s) ==> Owns(st.gidShards, g, s) {
      NewGroupsOwn(st.gidShards, servers, g, s);
    }
    forall g | g in a ensures Distinct(a[g]) && Over(a[g], NShards) {
    }
    assert Disjoint(a);
    if Latest(st).groups == map[] {
      assert st.gidShards == map[];
      var b := a[MinGid(a) := AllShards()];
      assert forall g, s: nat :: Owns(b, g, s) ==> g == MinGid(a);
      assert servers != map[] ==> a != map[] by {
        if servers != map[] {
          assert AnyKey(servers) in a;
        }
      }
    }
  }

  lemma JoinedHolds(st: Ctrl, servers: map<int, seq<string>>, s: nat)
    requires Valid(st) && s < NShards
    ensures Held(Joined(st, servers), s) <==>
      Latest(st).groups == map[] || Latest(st).shards[s] !in servers
  {
    var a := WithNewGroups(st.gidShards, servers);
    if Latest(st).groups == map[] {
      assert s in AllShards() by { assert AllShards()[s] == s; }
      assert Owns(Joined(st, servers), MinGid(a), s);
    } else {
      var g := Latest(st).shards[s];
      assert Owns(st.gidShards, g, s);
      NewGroupsOwn(st.gidShards, servers, g, s);
      if h :| Owns(a, h, s) {
        NewGroupsOwn(st.gidShards, servers, h, s);
      }
    }
  }

  /** A join keeps the partition exactly when it is admissible. */
  lemma JoinValidIff(st: Ctrl, servers: map<int, seq<string>>)
    requires Valid(st)
    ensures Valid(JoinTo(st, servers)) <==> Admissible(st, Join(servers))
    ensures Balanced(JoinTo(st, servers).gidShards)
  {
    var st' := JoinTo(st, servers);
    var a := Joined(st, servers);
    JoinedDisjoint(st, servers);
    RebalancedKeeps(a);
    var c := Latest(st');
    if Latest(st).groups == map[] && servers == map[] {
      assert NA in a;
      assert NA in st'.gidShards && NA !in c.groups;
    } else {
      assert a.Keys == c.groups.Keys;
      assert c.groups != map[] by {
        assert a != map[] by { if servers != map[] { assert AnyKey(servers) in a; } else { assert AnyKey(Latest(st).groups) in a; } }
        assert AnyKey(a) in c.groups;
      }
      RebalancedPartition(a, Latest(st).shards, c);
      JoinCovers(st, servers);
    }
  }

  lemma JoinCovers(st: Ctrl, servers: map<int, seq<string>>)
    requires Valid(st)
    ensures (forall s: nat :: s < NShards ==> Held(Joined(st, servers), s)) <==>
      forall k :: k in servers && k in st.gidShards ==> st.gidShards[k] == []
  {
    hide Joined, Held;
    if forall k :: k in servers && k in st.gidShards ==> st.gidShards[k] == [] {
      forall s: nat | s < NShards ensures Held(Joined(st, servers), s) {
        JoinedHolds(st, servers, s);
        assert Latest(st).groups != map[] ==> Owns(st.gidShards, Latest(st).shards[s], s);
      }
    }
    if forall s: nat :: s < NShards ==> Held(Joined(st, servers), s) {
      forall k | k in servers && k in st.gidShards ensures st.gidShards[k] == [] {
        if st.gidShards[k] != [] {
          JoinLoses(st, servers, k);
        }
      }
    }
  }

  /** A group that joins again loses the shards it had. */
  lemma JoinLoses(st: Ctrl, servers: map<int, seq<string>>, k: int)
    requires Valid(st) && k in servers && k in st.gidShards && st.gidShards[k] != []
    ensures exists s: nat :: s < NShards && !Held(Joined(st, servers), s)
  {
    hide Joined, Held;
    var s := st.gidShards[k][0];
    assert Owns(st.gidShards, k, s);
    assert k in Latest(st).groups;
    assert Owns(st.gidShards, Latest(st).shards[s], s);
    JoinedHolds(st, servers, s);
  }

  // ---------------------------------------------------------------- Leave

  lemma LeftOwns(st: Ctrl, gids: seq<int>, g: int, s: nat)
    requires Sane(st) && Remaining(st.gidShards, gids) != map[]
    ensures var a := Remaining(st.gidShards, gids);
      Owns(Left(st, gids), g, s) <==>
      (Owns(st.gidShards, g, s) && g !in gids) || (g == MinGid(a) && s < NShards && Freed(st.gidShards, gids, s))
  {
    var a := Remaining(st.gidShards, gids);
    var lo := MinGid(a);
    var freed := FreedShards(st.gidShards, gids);
    assert s in freed <==> s < NShards && Freed(st.gidShards, gids, s);
    assert g in a ==> a[g] == st.gidShards[g];
    assert g == lo ==> (s in a[lo] + freed <==> s in a[lo] || s in freed);
  }

  lemma LeftDisjoint(st: Ctrl, gids: seq<int>)
    requires Sane(st) && Remaining(st.gidShards, gids) != map[]
    ensures Disjoint(Left(st, gids)) && Left(st, gids).Keys == Remaining(st.gidShards, gids).Keys
  {
    var a, b := Remaining(st.gidShards, gids), Left(st, gids);
    var lo, freed := MinGid(a), FreedShards(st.gidShards, gids);
    forall g, h, s: nat | Owns(b, g, s) && Owns(b, h, s) ensures g == h {
      LeftOwns(st, gids, g, s);
      LeftOwns(st, gids, h, s);
    }
    forall g | g in b ensures Distinct(b[g]) && Over(b[g], NShards) {
      if g == lo {
        forall s | s in a[lo] ensures s !in freed {
          assert Owns(st.gidShards, lo, s);
        }
        AppendDistinct(a[lo], freed);
      }
    }
  }

  lemma AppendDistinct(p: seq<nat>, q: seq<nat>)
    requires Distinct(p) && Distinct(q) && forall s :: s in p ==> s !in q
    ensures Distinct(p + q)
  {
    assert forall i :: 0 <= i < |p| ==> p[i] in p;
    assert forall i :: 0 <= i < |q| ==> q[i] in q;
  }

  lemma LeftHolds(st: Ctrl, gids: seq<int>, s: nat)
    requires Valid(st) && Remaining(st.gidShards, gids) != map[] && s < NShards
    ensures Latest(st).groups != map[]
    ensures Held(Left(st, gids), s) <==> !ListedTwice(gids, Latest(st).shards[s])
  {
    var a, b := Remaining(st.gidShards, gids), Left(st, gids);
    assert AnyKey(a) in Latest(st).groups;
    var g := Latest(st).shards[s];
    assert Owns(st.gidShards, g, s);
    assert g !in gids ==> !ListedTwice(gids, g);
    LeftOwns(st, gids, g, s);
    LeftOwns(st, gids, MinGid(a), s);
    if h :| Owns(b, h, s) {
      LeftOwns(st, gids, h, s);
    }
  }

  lemma LeaveCovers(st: Ctrl, gids: seq<int>)
    requires Valid(st) && Remaining(st.gidShards, gids) != map[]
    ensures (forall s: nat :: s < NShards ==> Held(Left(st, gids), s)) <==>
      forall g :: g in st.gidShards && ListedTwice(gids, g) ==> st.gidShards[g] == []
  {
    hide Left, Held, ListedTwice;
    if forall g :: g in st.gidShards && ListedTwice(gids, g) ==> st.gidShards[g] == [] {
      forall s: nat | s < NShards ensures Held(Left(st, gids), s) {
        LeftHolds(st, gids, s);
        assert Owns(st.gidShards, Latest(st).shards[s], s);
      }
    }
    if forall s: nat :: s < NShards ==> Held(Left(st, gids), s) {
      forall g | g in st.gidShards && ListedTwice(gids, g) ensures st.gidShards[g] == [] {
        if st.gidShards[g] != [] {
          LeaveLoses(st, gids, g);
        }
      }
    }
  }

  /** A group that is listed twice takes its shards with it. */
  lemma LeaveLoses(st: Ctrl, gids: seq<int>, g: int)
    requires Valid(st) && Remaining(st.gidShards, gids) != map[]
    requires g in st.gidShards && ListedTwice(gids, g) && st.gidShards[g] != []
    ensures exists s: nat :: s < NShards && !Held(Left(st, gids), s)
  {
    hide Left, Held, ListedTwice;
    var s := st.gidShards[g][0];
    assert Owns(st.gidShards, g, s);
    LeftHolds(st, gids, s);
    assert Owns(st.gidShards, Latest(st).shards[s], s);
  }

  /** A leave keeps the partition exactly when it is admissible. */
  lemma LeaveValidIff(st: Ctrl, gids: seq<int>)
    requires Valid(st)
    ensures Valid(LeaveFrom(st, gids)) <==> Admissible(st, Leave(gids))
    ensures Balanced(LeaveFrom(st, gids).gidShards)
  {
    var st' := LeaveFrom(st, gids);
    var c := Latest(st');
    assert c.groups.Keys == Remaining(st.gidShards, gids).Keys;
    if c.groups == map[] {
      assert Remaining(st.gidShards, gids) == map[];
    } else {
      assert AnyKey(c.groups) in Remaining(st.gidShards, gids);
      LeftDisjoint(st, gids);
      RebalancedKeeps(Left(st, gids));
      RebalancedPartition(Left(st, gids), Latest(st).shards, c);
      LeaveCovers(st, gids);
    }
  }

  // ---------------------------------------------------------------- Move

  lemma {:induction false} WithoutIs(list: seq<nat>, s: nat)
    requires Distinct(list)
    ensures Distinct(Without(list, s))
    ensures forall x :: x in Without(list, s) <==> x in list && x != s
  {
    if list != [] {
      var rest := list[1..];
      assert list == [list[0]] + rest && list[0] !in rest;
      WithoutIs(rest, s);
      var w := Without(rest, s);
      AppendDistinct([list[0]], w);
    }
  }

  lemma TakenOutOwns(a: Alloc, s: nat, g: int, x: nat)
    requires Disjoint(a)
    ensures TakenOut(a, s).Keys == a.Keys
    ensures Owns(TakenOut(a, s), g, x) <==> Owns(a, g, x) && x != s
    ensures g in a ==> Distinct(TakenOut(a, s)[g])
  {
    if Held(a, s) {
      var h :| Owns(a, h, s) && TakenOut(a, s) == a[h := Without(a[h], s)];
      WithoutIs(a[h], s);
      assert Owns(a, g, s) ==> g == h;
    }
  }

  lemma MovedOwns(a: Alloc, s: nat, gid: int, g: int, x: nat)
    requires Disjoint(a)
    ensures Moved(a, s, gid).Keys == a.Keys + {gid}
    ensures Owns(Moved(a, s, gid), g, x) <==> if x == s then g == gid else Owns(a, g, x)
    ensures g in Moved(a, s, gid) ==> Distinct(Moved(a, s, gid)[g])
  {
    TakenOutOwns(a, s, g, x);
    TakenOutOwns(a, s, gid, s);
    var b := TakenOut(a, s);
    hide TakenOut;
    var list := if gid in b then b[gid] else [];
    assert s !in list;
    AppendDistinct(list, [s]);
  }

  lemma MovedDisjoint(a: Alloc, s: nat, gid: int)
    requires Disjoint(a) && s < NShards
    ensures Disjoint(Moved(a, s, gid))
  {
    var b := Moved(a, s, gid);
    forall g, h, x: nat | Owns(b, g, x) && Owns(b, h, x) ensures g == h {
      MovedOwns(a, s, gid, g, x);
      MovedOwns(a, s, gid, h, x);
    }
    hide Moved;
    forall g | g in b ensures Distinct(b[g]) && Over(b[g], NShards) {
      MovedOwns(a, s, gid, g, s);
      forall i | 0 <= i < |b[g]| ensures b[g][i] < NShards {
        MovedOwns(a, s, gid, g, b[g][i]);
        assert Owns(b, g, b[g][i]);
        OwnsInRange(a, g, b[g][i]);
      }
    }
  }

  lemma OwnsInRange(a: Alloc, g: int, x: nat)
    requires Disjoint(a)
    ensures Owns(a, g, x) ==> x < NShards
  {
    if Owns(a, g, x) {
      var i :| 0 <= i < |a[g]| && a[g][i] == x;
    }
  }

  /** A move keeps the partition exactly when its target is a group. */
  lemma MoveValidIff(st: Ctrl, s: nat, gid: int)
    requires Valid(st) && s < NShards
    ensures Valid(MoveTo(st, s, gid)) <==> Admissible(st, Move(s, gid))
  {
    var st' := MoveTo(st, s, gid);
    MovedDisjoint(st.gidShards, s, gid);
    MovedOwns(st.gidShards, s, gid, gid, s);
    if gid in Latest(st).groups {
      forall x: nat | x < NShards ensures Owns(st'.gidShards, Latest(st').shards[x], x) {
        MovedOwns(st.gidShards, s, gid, Latest(st').shards[x], x);
        assert Owns(st.gidShards, Latest(st).shards[x], x);
      }
      assert st'.gidShards.Keys == st.gidShards.Keys;
    } else {
      assert gid in st'.gidShards && gid !in Latest(st').groups;
    }
  }

  // ---------------------------------------------------------------- minimal movement

  /** From a balanced configuration a join moves shards only to groups that join. */
  lemma JoinMovesToJoining(st: Ctrl, servers: map<int, seq<string>>, s: nat)
    requires Valid(st) && Balanced(st.gidShards) && Latest(st).groups != map[] && s < NShards
    requires forall k :: k in servers ==> k !in st.gidShards
    ensures var c := Latest(JoinTo(st, servers));
      c.shards[s] == Latest(st).shards[s] || c.shards[s] in servers
  {
    var (a, shards) := (Joined(st, servers), Latest(st).shards);
    var b := Rebalanced(a);
    JoinedDisjoint(st, servers);
    RebalancedKeeps(a);
    assert Owns(st.gidShards, shards[s], s);
    JoinedHolds(st, servers, s);
    AssignedOwns(b, shards, s);
    var g := Assigned(b, shards)[s];
    if g !in servers {
      var hi := |st.gidShards[MaxGid(st.gidShards)]|;
      assert SizesTo(a, hi);
      assert g in st.gidShards && a[g] == st.gidShards[g];
      NeverReceives(a, g, hi);
      assert s in b[g];
      assert Owns(st.gidShards, g, s);
    }
  }

  /** From a balanced configuration a leave takes no shard from a group that stays. */
  lemma LeaveTakesNothing(st: Ctrl, gids: seq<int>, s: nat)
    requires Valid(st) && Balanced(st.gidShards) && s < NShards
    requires Latest(st).groups != map[] && Latest(st).shards[s] !in gids
    ensures Latest(LeaveFrom(st, gids)).shards[s] == Latest(st).shards[s]
  {
    var (shards, g) := (Latest(st).shards, Latest(st).shards[s]);
    assert Owns(st.gidShards, g, s);
    var r := Remaining(st.gidShards, gids);
    assert g in r && r[g] == st.gidShards[g];
    assert g in Latest(st).groups - Listed(gids);
    var a := Left(st, gids);
    var b := Rebalanced(a);
    LeftDisjoint(st, gids);
    RebalancedKeeps(a);
    KeepsAll(st, gids, g);
    assert Owns(b, g, s);
    OwnerUnique(b, shards, g, s);
  }

  lemma KeepsAll(st: Ctrl, gids: seq<int>, g: int)
    requires Valid(st) && Balanced(st.gidShards) && g in Remaining(st.gidShards, gids)
    ensures g in Rebalanced(Left(st, gids)) && st.gidShards[g] <= Rebalanced(Left(st, gids))[g]
  {
    var (r, a) := (Remaining(st.gidShards, gids), Left(st, gids));
    var lo := MinGid(r);
    var least := |r[lo]|;
    assert SizesFrom(a, least);
    if g != lo {
      assert a[g] == st.gidShards[g];
      assert |a[g]| <= least + 1;
      NeverGives(a, g, least);
    } else {
      assert a[g] == st.gidShards[g] + FreedShards(st.gidShards, gids);
      SmallestGrows(a, least);
      OneWay(a, g);
    }
  }

  // ---------------------------------------------------------------- the log

  predicate IsDuplicate(st: Ctrl, op: Op) {
    op.clientId in st.lastOps && st.lastOps[op.clientId].opId == op.opId
  }

  /** The answer to a query: a past configuration if it exists, else the latest; nothing to other requests. */
  function Answer(st: Ctrl, request: Request): Config
    requires st.configs != [] && InRange(request)
  {
    match request
    case Query(num) => if num != -1 && num <= |st.configs| - 1 then st.configs[num] else Latest(st)
    case _ => NoConfig()
  }

  /** `applyOpL`. */
  ghost function ApplyOp(st: Ctrl, op: Op): (Ctrl, Result)
    requires st.configs != [] && |Latest(st).shards| == NShards && InRange(op.request)
  {
    if IsDuplicate(st, op) then (st, Result(ErrDuplicate, NoConfig()))
    else
      var st1 := Apply(st, op.request);
      var c := Answer(st1, op.request);
      (st1.(lastOps := st1.lastOps[op.clientId := LastOp(op.opId, c)]), Result(OK, c))
  }

  /** Every request that is not admissible breaks the invariant, and no other does. */
  lemma OpValidIff(st: Ctrl, op: Op)
    requires Valid(st) && InRange(op.request)
    ensures Valid(ApplyOp(st, op).0) <==> IsDuplicate(st, op) || Admissible(st, op.request)
  {
    hide Valid, JoinTo, LeaveFrom, MoveTo, Admissible;
    assert st.configs != [] && |Latest(st).shards| == NShards by { ValidSane(st); }
    match op.request {
      case Join(servers) => JoinValidIff(st, servers);
      case Leave(gids) => LeaveValidIff(st, gids);
      case Move(shard, gid) => MoveValidIff(st, shard, gid);
      case Query(num) => QueryAdmissible(st, num);
    }
    if !IsDuplicate(st, op) {
      LastOpsAside(Apply(st, op.request), ApplyOp(st, op).0);
    }
  }

  lemma ValidSane(st: Ctrl)
    requires Valid(st)
    ensures Sane(st) && st.configs != [] && |Latest(st).shards| == NShards
  {
  }

  lemma QueryAdmissible(st: Ctrl, num: int)
    requires st.configs != []
    ensures Admissible(st, Query(num))
  {
  }

  lemma LastOpsAside(st: Ctrl, st': Ctrl)
    requires st'.configs == st.configs && st'.gidShards == st.gidShards
    ensures (Valid(st') <==> Valid(st)) && (Sane(st') <==> Sane(st))
    ensures st.configs != [] ==> (Stops(st') <==> Stops(st))
  {
  }

  // ---------------------------------------------------------------- requests that callers should not make

  /** The program compares the numbers of groups and stops for good if they differ. */
  predicate Stops(st: Ctrl)
    requires st.configs != []
  {
    |Latest(st).groups| != |st.gidShards|
  }

  /** The requests after which the program goes on: the first join names a group, a move goes to one. */
  ghost predicate Survives(st: Ctrl, request: Request)
    requires st.configs != []
  {
    match request
    case Join(servers) => Latest(st).groups != map[] || servers != map[]
    case Leave(gids) => true
    case Move(shard, gid) => gid in Latest(st).groups
    case Query(num) => true
  }

  lemma SameKeysSameSize<V, W>(a: map<int, V>, b: map<int, W>)
    requires a.Keys == b.Keys
    ensures |a| == |b|
  {
    assert |a| == |a.Keys| && |b| == |b.Keys|;
  }

  lemma MoreKeys<V, W>(a: map<int, V>, b: map<int, W>, k: int)
    requires b.Keys == a.Keys + {k} && k !in a
    ensures |b| == |a| + 1
  {
    assert |a| == |a.Keys| && |b| == |b.Keys|;
  }

  lemma JoinSane(st: Ctrl, servers: map<int, seq<string>>)
    requires Sane(st)
    ensures var st' := JoinTo(st, servers);
      (Sane(st') <==> Survives(st, Join(servers))) && (Sane(st') <==> !Stops(st'))
  {
    hide *;
    SaneFits(st);
    var st', a := JoinTo(st, servers), Joined(st, servers);
    JoinParts(st, servers);
    SaneMore(st, st');
    JoinedDisjoint(st, servers);
    RebalancedKeeps(a);
    SurvivesJoin(st, servers);
    if Latest(st).groups == map[] && servers == map[] {
      JoinNobody(st);
      assert Latest(st').groups == map[];
      assert st'.gidShards.Keys == Latest(st').groups.Keys + {NA};
      MoreKeys(Latest(st').groups, st'.gidShards, NA);
    } else {
      SameKeysSameSize(Latest(st').groups, st'.gidShards);
    }
  }

  lemma SurvivesJoin(st: Ctrl, servers: map<int, seq<string>>)
    requires st.configs != []
    ensures Survives(st, Join(servers)) <==> Latest(st).groups != map[] || servers != map[]
  {
  }

  lemma JoinParts(st: Ctrl, servers: map<int, seq<string>>)
    requires st.configs != [] && |Latest(st).shards| == NShards
    ensures var st' := JoinTo(st, servers);
      && Follows(st, st') && Latest(st').groups == Latest(st).groups + servers && st'.gidShards == Rebalanced(Joined(st, servers))
  {
  }

  /** The state has one more configuration, under the next number. */
  ghost predicate Follows(st: Ctrl, st': Ctrl) {
    && |st'.configs| == |st.configs| + 1 && st.configs <= st'.configs
    && Latest(st').num == |st.configs| && |Latest(st').shards| == NShards
  }

  lemma SaneMore(st: Ctrl, st': Ctrl)
    requires Sane(st) && Follows(st, st')
    ensures st'.configs != []
    ensures Sane(st') <==> Disjoint(st'.gidShards) && st'.gidShards.Keys == Latest(st').groups.Keys
    ensures Stops(st') <==> |Latest(st').groups| != |st'.gidShards|
  {
    hide Disjoint;
  }

  lemma JoinNobody(st: Ctrl)
    requires Sane(st) && Latest(st).groups == map[]
    ensures Joined(st, map[]).Keys == {NA}
  {
    assert st.gidShards == map[];
    assert WithNewGroups(st.gidShards, map[]) == map[];
  }

  lemma LeaveSane(st: Ctrl, gids: seq<int>)
    requires Sane(st)
    ensures var st' := LeaveFrom(st, gids); Sane(st') && !Stops(st')
  {
    hide Disjoint, Rebalanced, Left, OwnerOr, MinGid, Held, Balanced;
    var st', r := LeaveFrom(st, gids), Remaining(st.gidShards, gids);
    assert Latest(st').groups.Keys == r.Keys;
    RemainingDisjoint(st.gidShards, gids);
    if Latest(st').groups != map[] {
      assert AnyKey(Latest(st').groups) in r;
      LeftDisjoint(st, gids);
      RebalancedKeeps(Left(st, gids));
    }
    SameKeysSameSize(Latest(st').groups, st'.gidShards);
  }

  lemma RemainingDisjoint(a: Alloc, gids: seq<int>)
    requires Disjoint(a)
    ensures Disjoint(Remaining(a, gids))
  {
    assert forall g, s: nat :: Owns(Remaining(a, gids), g, s) ==> Owns(a, g, s);
  }

  lemma MoveSane(st: Ctrl, s: nat, gid: int)
    requires Sane(st) && s < NShards
    ensures var st' := MoveTo(st, s, gid);
      (Sane(st') <==> Survives(st, Move(s, gid))) && (Sane(st') <==> !Stops(st'))
  {
    var st' := MoveTo(st, s, gid);
    MovedDisjoint(st.gidShards, s, gid);
    MovedOwns(st.gidShards, s, gid, gid, s);
    hide Disjoint, Moved;
    if gid in Latest(st).groups {
      assert st'.gidShards.Keys == Latest(st').groups.Keys;
      SameKeysSameSize(Latest(st').groups, st'.gidShards);
    } else {
      MoreKeys(Latest(st').groups, st'.gidShards, gid);
    }
  }

  /**
   What the program does with requests its callers should not make: after every applied operation
   it goes on exactly with those that survive, and then no shard is allocated twice, the
   allocation has exactly the groups of the configuration, and earlier configurations stay.
   */
  lemma OpSaneIff(st: Ctrl, op: Op)
    requires Sane(st) && InRange(op.request)
    ensures var st' := ApplyOp(st, op).0;
      && st.configs <= st'.configs && st'.configs != []
      && (Sane(st') <==> IsDuplicate(st, op) || Survives(st, op.request))
      && (Sane(st') <==> !Stops(st'))
  {
    SaneFits(st);
    hide Sane, Survives, Rebalanced, Joined, Left, Moved, Assigned, Stops, Unassigned, Remaining;
    match op.request {
      case Join(servers) => JoinSane(st, servers);
      case Leave(gids) => LeaveSane(st, gids); LeaveSurvives(st, gids);
      case Move(shard, gid) => MoveSane(st, shard, gid);
      case Query(num) => QuerySurvives(st, num);
    }
    if !IsDuplicate(st, op) {
      LastOpsAside(Apply(st, op.request), ApplyOp(st, op).0);
    }
  }

  lemma SaneFits(st: Ctrl)
    requires Sane(st)
    ensures st.configs != [] && |Latest(st).shards| == NShards && !Stops(st)
  {
    SameKeysSameSize(Latest(st).groups, st.gidShards);
  }

  lemma LeaveSurvives(st: Ctrl, gids: seq<int>)
    requires st.configs != []
    ensures Survives(st, Leave(gids))
  {
  }

  lemma QuerySurvives(st: Ctrl, num: int)
    requires st.configs != []
    ensures Survives(st, Query(num))
  {
  }

  // ---------------------------------------------------------------- logs

  /** A log that the program lives through. */
  ghost predicate SurvivingLog(log: seq<Op>)
    decreases |log|, 0
  {
    log == [] ||
    (var front, op := log[..|log| - 1], log[|log| - 1];
     && SurvivingLog(front)
     && InRange(op.request) && (IsDuplicate(After(front), op) || Survives(After(front), op.request)))
  }

  ghost function After(log: seq<Op>): (st: Ctrl)
    requires SurvivingLog(log)
    ensures Sane(st)
    decreases |log|, 1
  {
    if log == [] then
      InitialValid();
      Initial()
    else
      var front, op := log[..|log| - 1], log[|log| - 1];
      OpSaneIff(After(front), op);
      ApplyOp(After(front), op).0
  }

  /** A log all of whose entries were admissible when applied. */
  ghost predicate AdmissibleLog(log: seq<Op>)
    decreases |log|
  {
    log == [] ||
    (var front, op := log[..|log| - 1], log[|log| - 1];
     && SurvivingLog(log) && SurvivingLog(front) && AdmissibleLog(front)
     && (IsDuplicate(After(front), op) || Admissible(After(front), op.request)))
  }

  /** Configurations once made never change, whatever the callers do. */
  lemma {:induction false} ConfigsNeverChange(log: seq<Op>, k: nat)
    requires SurvivingLog(log) && k <= |log|
    ensures SurvivingLog(log[..k]) && After(log[..k]).configs <= After(log).configs
    decreases |log|
  {
    hide Sane, Survives, InRange, IsDuplicate, ApplyOp;
    if k == |log| {
      assert log[..k] == log;
    } else {
      var front, op := log[..|log| - 1], log[|log| - 1];
      ConfigsNeverChange(front, k);
      assert front[..k] == log[..k];
      OpSaneIff(After(front), op);
    }
  }

  /** Over every admissible log the allocation is an exact partition of all shards that agrees with the latest configuration. */
  lemma {:induction false} LogKeepsPartition(log: seq<Op>)
    requires AdmissibleLog(log)
    ensures SurvivingLog(log) && Valid(After(log)) && Partitioned(After(log).gidShards, Latest(After(log)))
    decreases |log|
  {
    if log == [] {
      InitialValid();
    } else {
      var front, op := log[..|log| - 1], log[|log| - 1];
      LogKeepsPartition(front);
      OpValidIff(After(front), op);
    }
  }
}
