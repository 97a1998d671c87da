/**
 The controller's own code in labs/src/shardctrler/server.go.  Go runs through a map in no
 particular order; here the next key is any key not yet visited, and every method still has
 the one result that its specification names.
 */
module ShardCtrlServer {
  import opened IdLists
  import opened MapIteration
  import opened Shards
  import opened Rebalance
  import opened ShardCtrl
  import opened Sorting

  // ---------------------------------------------------------------- findMinMaxGidL

  lemma MinIs(a: Alloc, g: int)
    requires IsMin(a, g)
    ensures g == MinGid(a)
  {
  }

  lemma MaxIs(a: Alloc, g: int)
    requires IsMax(a, g)
    ensures g == MaxGid(a)
  {
  }

  lemma DisjointSizes(a: Alloc)
    requires Disjoint(a)
    ensures SizesTo(a, NShards)
  {
    forall g | g in a ensures |a[g]| <= NShards {
      DistinctCovers(a[g], NShards);
    }
  }

  /** What the scan knows of the groups it has seen. */
  ghost predicate Scanned(seen: Alloc, gidMin: int, gidMax: int, sizeMin: int, sizeMax: int) {
    if seen == map[] then gidMin == NA && gidMax == NA && sizeMin == NShards + 1 && sizeMax == -1
    else IsMin(seen, gidMin) && IsMax(seen, gidMax) && sizeMin == |seen[gidMin]| && sizeMax == |seen[gidMax]|
  }

  lemma ScanMin(seen: Alloc, g: int, list: seq<nat>, gidMin: int, sizeMin: int)
    requires g !in seen && |list| <= NShards
    requires if seen == map[] then sizeMin == NShards + 1 else IsMin(seen, gidMin) && sizeMin == |seen[gidMin]|
    ensures IsMin(seen[g := list], if |list| < sizeMin || (|list| == sizeMin && g < gidMin) then g else gidMin)
  {
  }

  lemma ScanMax(seen: Alloc, g: int, list: seq<nat>, gidMax: int, sizeMax: int)
    requires g !in seen
    requires if seen == map[] then sizeMax == -1 else IsMax(seen, gidMax) && sizeMax == |seen[gidMax]|
    ensures IsMax(seen[g := list], if |list| > sizeMax || (|list| == sizeMax && g > gidMax) then g else gidMax)
  {
  }

  lemma ScanOne(seen: Alloc, g: int, list: seq<nat>, gidMin: int, gidMax: int, sizeMin: int, sizeMax: int)
    requires Scanned(seen, gidMin, gidMax, sizeMin, sizeMax) && g !in seen && |list| <= NShards
    ensures var smaller := |list| < sizeMin || (|list| == sizeMin && g < gidMin);
      var larger := |list| > sizeMax || (|list| == sizeMax && g > gidMax);
      Scanned(seen[g := list], if smaller then g else gidMin, if larger then g else gidMax,
              if smaller then |list| else sizeMin, if larger then |list| else sizeMax)
  {
    ScanMin(seen, g, list, gidMin, sizeMin);
    ScanMax(seen, g, list, gidMax, sizeMax);
    assert seen[g := list] != map[] by { assert g in seen[g := list]; }
  }

  lemma ScanEnd(seen: Alloc, gidMin: int, gidMax: int, sizeMin: int, sizeMax: int)
    requires Scanned(seen, gidMin, gidMax, sizeMin, sizeMax)
    ensures gidMin == MinGid(seen) && gidMax == MaxGid(seen)
  {
    if seen != map[] {
      MinIs(seen, gidMin);
      MaxIs(seen, gidMax);
    }
  }

  method FindMinMaxGid(gidShards: Alloc) returns (gidMin: int, gidMax: int)
    requires SizesTo(gidShards, NShards)
    ensures gidMin == MinGid(gidShards) && gidMax == MaxGid(gidShards)
  {
    hide Visiting, MinGid, MaxGid;
    gidMin, gidMax := NA, NA;
    var sizeMin, sizeMax := NShards + 1, -1;
    var rest := gidShards;
    ghost var seen: Alloc := map[];
    VisitStart(gidShards);
    while rest != map[]
      invariant Visiting(gidShards, seen, rest) && Scanned(seen, gidMin, gidMax, sizeMin, sizeMax)
      decreases |rest|
    {
      hide Scanned;
      var gid := PickKey(rest);
      var shards := rest[gid];
      VisitOne(gidShards, seen, rest, gid);
      ScanOne(seen, gid, shards, gidMin, gidMax, sizeMin, sizeMax);
      if |shards| < sizeMin {
        sizeMin := |shards|;
        gidMin := gid;
      } else if |shards| == sizeMin && gid < gidMin {
        gidMin := gid;
      }
      if |shards| > sizeMax {
        sizeMax := |shards|;
        gidMax := gid;
      } else if |shards| == sizeMax && gid > gidMax {
        gidMax := gid;
      }
      rest := rest - {gid};
      seen := seen[gid := shards];
    }
    VisitEnd(gidShards, seen);
    ScanEnd(seen, gidMin, gidMax, sizeMin, sizeMax);
  }

  // ---------------------------------------------------------------- writing the assignment

  lemma AssignNothing(shards: seq<int>)
    requires |shards| == NShards
    ensures Assigned(map[], shards) == shards
  {
  }

  lemma AssignOne(seen: Alloc, shards: seq<int>, g: int, list: seq<nat>, r: seq<int>)
    requires |shards| == NShards == |r| && g !in seen && Disjoint(seen[g := list])
    requires forall s: nat :: s < NShards ==> r[s] == if s in list then g else Assigned(seen, shards)[s]
    ensures r == Assigned(seen[g := list], shards)
  {
    var more := seen[g := list];
    forall s: nat | s < NShards ensures r[s] == OwnerOr(more, s, shards[s]) {
      if s in list {
        assert Owns(more, g, s);
      } else {
        assert forall h :: Owns(more, h, s) <==> Owns(seen, h, s);
        if h :| Owns(seen, h, s) {
          assert Owns(more, h, s);
        }
      }
    }
  }

  lemma DisjointPart(a: Alloc, b: Alloc)
    requires Disjoint(a) && forall g :: g in b ==> g in a && b[g] == a[g]
    ensures Disjoint(b)
  {
    assert forall g, s: nat :: Owns(b, g, s) ==> Owns(a, g, s);
  }

  /** The closing loop of `rebalanceL`. */
  method Assign(gidShards: Alloc, shards: seq<int>) returns (shardGids: seq<int>)
    requires Disjoint(gidShards) && |shards| == NShards
    ensures shardGids == Assigned(gidShards, shards)
  {
    hide Visiting, Assigned, Disjoint;
    shardGids := shards;
    var rest := gidShards;
    ghost var seen: Alloc := map[];
    AssignNothing(shards);
    VisitStart(gidShards);
    while rest != map[]
      invariant Visiting(gidShards, seen, rest)
      invariant |shardGids| == NShards && shardGids == Assigned(seen, shards)
      decreases |rest|
    {
      var gid := PickKey(rest);
      var list := rest[gid];
      VisitOne(gidShards, seen, rest, gid);
      ListInRange(gidShards, gid);
      shardGids := AssignList(shardGids, gid, list);
      DisjointPart(gidShards, seen[gid := list]);
      AssignOne(seen, shards, gid, list, shardGids);
      rest := rest - {gid};
      seen := seen[gid := list];
    }
    VisitEnd(gidShards, seen);
  }

  lemma ListInRange(a: Alloc, g: int)
    requires Disjoint(a) && g in a
    ensures Over(a[g], NShards) && Distinct(a[g])
  {
  }

  method AssignList(shards: seq<int>, gid: int, list: seq<nat>) returns (r: seq<int>)
    requires |shards| == NShards && Over(list, NShards)
    ensures |r| == NShards && forall s: nat :: s < NShards ==> r[s] == if s in list then gid else shards[s]
  {
    r := shards;
    for i := 0 to |list|
      invariant |r| == NShards
      invariant forall s: nat :: s < NShards ==> r[s] == if s in list[..i] then gid else shards[s]
    {
      r := r[list[i] := gid];
      assert list[..i + 1] == list[..i] + [list[i]];
    }
    assert list[..|list|] == list;
  }

  // ---------------------------------------------------------------- loops of applyJoinL and applyLeaveL

  lemma NewGroupsOne(a: Alloc, seen: map<int, seq<string>>, k: int, v: seq<string>)
    ensures WithNewGroups(a, seen)[k := []] == WithNewGroups(a, seen[k := v])
  {
  }

  lemma NewGroupsSizes(a: Alloc, servers: map<int, seq<string>>, hi: nat)
    requires SizesTo(a, hi)
    ensures SizesTo(WithNewGroups(a, servers), hi)
  {
  }

  /** The groups that leave with their shards, as the loop over the list leaves them. */
  ghost predicate RemovedIs(a: Alloc, gids: seq<int>, removed: Alloc) {
    && removed.Keys == Listed(gids)
    && forall g :: g in removed ==> removed[g] == if g in a && !ListedTwice(gids, g) then a[g] else []
  }

  lemma RemoveOne(a: Alloc, gids: seq<int>, i: nat, removed: Alloc)
    requires i < |gids| && RemovedIs(a, gids[..i], removed)
    ensures var left := Remaining(a, gids[..i]);
      RemovedIs(a, gids[..i + 1], removed[gids[i] := if gids[i] in left then left[gids[i]] else []])
  {
    var (g, now) := (gids[i], gids[..i + 1]);
    assert now == gids[..i] + [g];
    forall x ensures ListedTwice(now, x) <==> ListedTwice(gids[..i], x) || (x == g && g in gids[..i]) {
      ListedTwiceMore(gids[..i], g, x);
    }
    assert Listed(now) == Listed(gids[..i]) + {g};
  }

  lemma ListedTwiceMore(gids: seq<int>, g: int, x: int)
    ensures ListedTwice(gids + [g], x) <==> ListedTwice(gids, x) || (x == g && g in gids)
  {
    var more := gids + [g];
    if ListedTwice(gids, x) {
      var i, j :| 0 <= i < j < |gids| && gids[i] == x && gids[j] == x;
      assert more[i] == x && more[j] == x;
    }
    if x == g && g in gids {
      var i :| 0 <= i < |gids| && gids[i] == g;
      assert more[i] == x && more[|gids|] == x;
    }
  }

  lemma RemainingOne<V>(m: map<int, V>, gids: seq<int>, i: nat)
    requires i < |gids|
    ensures m - Listed(gids[..i + 1]) == m - Listed(gids[..i]) - {gids[i]}
  {
    assert gids[..i + 1] == gids[..i] + [gids[i]];
    assert Listed(gids[..i + 1]) == Listed(gids[..i]) + {gids[i]};
  }

  ghost predicate Collected(seen: Alloc, r: seq<nat>) {
    Distinct(r) && forall s: nat :: s in r <==> Held(seen, s)
  }

  lemma CollectOne(seen: Alloc, r: seq<nat>, g: int, list: seq<nat>)
    requires Collected(seen, r) && g !in seen && Disjoint(seen[g := list])
    ensures Collected(seen[g := list], r + list)
  {
    var more := seen[g := list];
    assert Distinct(list) by { ListInRange(more, g); }
    forall s: nat ensures Held(more, s) <==> Held(seen, s) || s in list {
      if s in list {
        assert Owns(more, g, s);
      }
      if h :| Owns(seen, h, s) {
        assert Owns(more, h, s);
      }
      if h :| Owns(more, h, s) {
        assert h != g ==> Owns(seen, h, s);
      }
    }
    forall s | s in r ensures s !in list {
      var h :| Owns(seen, h, s);
      assert Owns(more, h, s) && h != g;
      assert s in list ==> Owns(more, g, s);
    }
    AppendDistinct(r, list);
  }

  /** All removed shards, whatever order the map is run through. */
  method Collect(removed: Alloc) returns (r: seq<nat>)
    requires Disjoint(removed)
    ensures Collected(removed, r)
  {
    hide Visiting, Disjoint, Distinct;
    r := [];
    var rest := removed;
    ghost var seen: Alloc := map[];
    VisitStart(removed);
    NothingCollected();
    while rest != map[]
      invariant Visiting(removed, seen, rest) && Collected(seen, r)
      decreases |rest|
    {
      hide Collected;
      var gid := PickKey(rest);
      VisitOne(removed, seen, rest, gid);
      DisjointPart(removed, seen[gid := rest[gid]]);
      CollectOne(seen, r, gid, rest[gid]);
      r := r + rest[gid];
      seen := seen[gid := rest[gid]];
      rest := rest - {gid};
    }
    VisitEnd(removed, seen);
  }

  lemma NothingCollected()
    ensures Collected(map[], [])
  {
  }

  lemma LastIsLargest(a: seq<nat>, x: nat)
    requires Ascending(a) && x in a
    ensures x <= a[|a| - 1]
  {
  }

  lemma FrontMembers(a: seq<nat>, x: nat)
    requires Ascending(a) && a != []
    ensures Ascending(a[..|a| - 1])
    ensures x in a[..|a| - 1] <==> x in a && x != a[|a| - 1]
  {
    var front := a[..|a| - 1];
    assert a == front + [a[|a| - 1]];
    assert forall i :: 0 <= i < |front| ==> front[i] < a[|a| - 1];
  }

  lemma SomeMember(a: seq<nat>)
    requires a != []
    ensures exists x: nat :: x in a
  {
    assert a[0] in a;
  }

  /** An ascending list is determined by its members. */
  lemma {:induction false} AscendingUnique(a: seq<nat>, b: seq<nat>)
    requires Ascending(a) && Ascending(b) && forall x: nat :: x in a <==> x in b
    ensures a == b
    decreases |a|
  {
    if a == [] {
      if b != [] {
        SomeMember(b);
      }
    } else if b == [] {
      SomeMember(a);
    } else {
      var x, y := a[|a| - 1], b[|b| - 1];
      assert x in a && y in b;
      LastIsLargest(b, x);
      LastIsLargest(a, y);
      var c, d := a[..|a| - 1], b[..|b| - 1];
      FrontMembers(a, x);
      FrontMembers(b, x);
      forall z: nat ensures z in c <==> z in d {
        FrontMembers(a, z);
        FrontMembers(b, z);
      }
      AscendingUnique(c, d);
      assert a == c + [x] && b == d + [y];
    }
  }

  /** `sort.Ints` on different numbers. */
  lemma SortDistinct(list: seq<nat>)
    requires Distinct(list)
    ensures Ascending(SortInts(list)) && forall x: nat :: x in SortInts(list) <==> x in list
  {
    var r := SortInts(list);
    SortIntsSorted(list);
    assert forall x: nat :: x in r <==> x in multiset(r);
    forall i, j | 0 <= i < j < |r| ensures r[i] != r[j] {
      if r[i] == r[j] {
        TwiceIn(r, i, j);
        OnceIn(list, r[i]);
      }
    }
  }

  lemma TwiceIn(s: seq<nat>, i: nat, j: nat)
    requires i < j < |s| && s[i] == s[j]
    ensures multiset(s)[s[i]] >= 2
  {
    assert s == s[..j] + [s[j]] + s[j + 1..];
    assert s[..j][i] == s[i];
  }

  lemma {:induction false} OnceIn(s: seq<nat>, x: nat)
    requires Distinct(s)
    ensures multiset(s)[x] <= 1
  {
    if s != [] {
      var n := |s| - 1;
      OnceIn(s[..n], x);
      assert s == s[..n] + [s[n]];
      if x == s[n] {
        assert x !in s[..n];
      }
    }
  }

  lemma RemovedDisjoint(a: Alloc, gids: seq<int>, removed: Alloc)
    requires Disjoint(a) && RemovedIs(a, gids, removed)
    ensures Disjoint(removed)
    ensures forall s: nat :: Held(removed, s) <==> Freed(a, gids, s)
  {
    forall g, s: nat ensures Owns(removed, g, s) <==> Owns(a, g, s) && g in gids && !ListedTwice(gids, g) {
    }
    forall s: nat ensures Held(removed, s) <==> Freed(a, gids, s) {
      if g :| Owns(removed, g, s) {
        assert Owns(a, g, s);
      }
      if g :| Owns(a, g, s) && g in gids && !ListedTwice(gids, g) {
        assert Owns(removed, g, s);
      }
    }
  }

  /** The collected and sorted shards are the freed ones in order. */
  lemma SortedAreFreed(a: Alloc, gids: seq<int>, removed: Alloc, collected: seq<nat>, r: seq<nat>)
    requires Disjoint(a) && RemovedIs(a, gids, removed) && Collected(removed, collected)
    requires Ascending(r) && forall x: nat :: x in r <==> x in collected
    ensures r == FreedShards(a, gids)
  {
    RemovedDisjoint(a, gids, removed);
    hide RemovedIs;
    forall s: nat | s in r ensures s < NShards {
      assert Held(removed, s);
      var g :| Owns(removed, g, s);
      OwnsInRange(removed, g, s);
    }
    forall x: nat ensures x in r <==> x in FreedShards(a, gids) {
      assert x in r <==> Held(removed, x);
      assert Held(removed, x) <==> Freed(a, gids, x);
    }
    AscendingUnique(r, FreedShards(a, gids));
  }

  // ---------------------------------------------------------------- applyMoveL

  lemma {:induction false} WithoutAt(list: seq<nat>, s: nat, k: nat)
    requires k < |list| && list[k] == s && s !in list[..k]
    ensures Without(list, s) == list[..k] + list[k + 1..]
  {
    if k > 0 {
      assert list[0] in list[..k];
      assert list[1..][..k - 1] == list[..k][1..];
      assert s !in list[1..][..k - 1] by {
        assert forall x :: x in list[..k][1..] ==> x in list[..k];
      }
      WithoutAt(list[1..], s, k - 1);
      assert list[1..][k..] == list[k + 1..];
      assert list[..k] == [list[0]] + list[1..][..k - 1];
    }
  }

  lemma TakenFrom(a: Alloc, g: int, s: nat, k: nat)
    requires Disjoint(a) && g in a && k < |a[g]| && a[g][k] == s && s !in a[g][..k]
    ensures TakenOut(a, s) == a[g := a[g][..k] + a[g][k + 1..]]
  {
    assert Owns(a, g, s);
    WithoutAt(a[g], s, k);
  }

  /** Finds the shard and takes it out of its group. */
  method TakeOut(gidShards: Alloc, shard: nat) returns (r: Alloc)
    requires Disjoint(gidShards)
    ensures r == TakenOut(gidShards, shard)
  {
    hide Visiting, TakenOut, Disjoint;
    var rest := gidShards;
    ghost var seen: Alloc := map[];
    VisitStart(gidShards);
    while rest != map[]
      invariant Visiting(gidShards, seen, rest) && !Held(seen, shard)
      decreases |rest|
    {
      var gid := PickKey(rest);
      var shards := rest[gid];
      VisitOne(gidShards, seen, rest, gid);
      for ind := 0 to |shards|
        invariant shard !in shards[..ind]
      {
        if shards[ind] == shard {
          TakenFrom(gidShards, gid, shard, ind);
          return gidShards[gid := shards[..ind] + shards[ind + 1..]];
        }
      }
      assert shards[..|shards|] == shards;
      NotHeldMore(seen, gid, shards, shard);
      rest := rest - {gid};
      seen := seen[gid := shards];
    }
    VisitEnd(gidShards, seen);
    NothingTaken(gidShards, shard);
    return gidShards;
  }

  lemma NotHeldMore(a: Alloc, g: int, list: seq<nat>, s: nat)
    requires !Held(a, s) && s !in list
    ensures !Held(a[g := list], s)
  {
    var b := a[g := list];
    forall h ensures !Owns(b, h, s) {
      assert !Owns(a, h, s);
    }
  }

  lemma NothingTaken(a: Alloc, s: nat)
    requires !Held(a, s)
    ensures TakenOut(a, s) == a
  {
  }

  // ---------------------------------------------------------------- the controller

  datatype Reply = Cached(config: Config) | Submit

  class ShardCtrler {
    var configs: seq<Config>
    var gidShards: Alloc
    var lastOps: map<int, LastOp>

    ghost function State(): Ctrl
      reads this
    {
      Ctrl(configs, gidShards, lastOps)
    }

    constructor ()
      ensures State() == Initial()
    {
      configs, gidShards, lastOps := [NoConfig()], map[], map[];
    }

    method RebalanceL(shards: seq<int>) returns (shardGids: seq<int>)
      requires Disjoint(gidShards) && |shards| == NShards
      modifies this`gidShards
      ensures gidShards == Rebalanced(old(gidShards)) && shardGids == Assigned(gidShards, shards)
    {
      hide Disjoint, MinGid, MaxGid, Rebalanced, Shift, SumOfSquares, Uneven, SizesTo, Held;
      while true
        invariant Disjoint(gidShards) && Rebalanced(gidShards) == Rebalanced(old(gidShards))
        decreases SumOfSquares(gidShards)
      {
        DisjointSizes(gidShards);
        var gidMin, gidMax := FindMinMaxGid(gidShards);
        var minGidShards := if gidMin in gidShards then gidShards[gidMin] else [];
        var maxGidShards := if gidMax in gidShards then gidShards[gidMax] else [];
        if |maxGidShards| - |minGidShards| <= 1 {
          NotUneven(gidShards, minGidShards, maxGidShards);
          break;
        }
        IsUneven(gidShards, minGidShards, maxGidShards);
        ShiftFalls(gidShards);
        ShiftDisjoint(gidShards);
        var lastInd := |maxGidShards| - 1;
        var shard := maxGidShards[lastInd];
        gidShards := gidShards[gidMax := maxGidShards[..lastInd]];
        gidShards := gidShards[gidMin := minGidShards + [shard]];
      }
      shardGids := Assign(gidShards, shards);
    }

    method MakeNewConfigL() returns (c: Config)
      requires configs != []
      ensures c == Config(|configs|, Latest(State()).shards, Latest(State()).groups)
    {
      var now := configs[|configs| - 1];
      c := Config(|configs|, now.shards, now.groups);
    }

    method ApplyJoinL(servers: map<int, seq<string>>)
      requires Sane(State())
      modifies this
      ensures State() == JoinTo(old(State()), servers)
    {
      hide Disjoint, Rebalanced, MinGid, MaxGid, WithNewGroups;
      ghost var before := State();
      var start := configs[|configs| - 1].groups == map[];
      var newConfig := MakeNewConfigL();
      var groups := AddGroups(newConfig.groups, servers);
      JoinSizes(before, servers);
      if start {
        var gidMin, _ := FindMinMaxGid(gidShards);
        gidShards := gidShards[gidMin := AllShards()];
      }
      JoinedDisjoint(before, servers);
      var shards := RebalanceL(newConfig.shards);
      configs := configs + [Config(newConfig.num, shards, groups)];
    }

    /** The loop over the joining groups. */
    method AddGroups(present: map<int, seq<string>>, servers: map<int, seq<string>>) returns (groups: map<int, seq<string>>)
      modifies this`gidShards
      ensures groups == present + servers && gidShards == WithNewGroups(old(gidShards), servers)
    {
      hide Visiting, WithNewGroups;
      groups := present;
      var rest := servers;
      ghost var seen: map<int, seq<string>> := map[];
      VisitStart(servers);
      NoNewGroups(gidShards);
      while rest != map[]
        invariant Visiting(servers, seen, rest)
        invariant gidShards == WithNewGroups(old(gidShards), seen) && groups == present + seen
        decreases |rest|
      {
        var k := PickKey(rest);
        VisitOne(servers, seen, rest, k);
        NewGroupsOne(old(gidShards), seen, k, rest[k]);
        groups := groups[k := rest[k]];
        gidShards := gidShards[k := []];
        seen := seen[k := rest[k]];
        rest := rest - {k};
      }
      VisitEnd(servers, seen);
    }

    method ApplyLeaveL(gids: seq<int>)
      requires Sane(State())
      modifies this
      ensures State() == LeaveFrom(old(State()), gids)
    {
      hide Visiting, Disjoint, Rebalanced, MinGid, MaxGid, RemovedIs, FreedShards, ListedTwice, Collected, Ascending, Distinct;
      ghost var before := State();
      var newConfig := MakeNewConfigL();
      var groups := newConfig.groups;
      var removed: Alloc := map[];
      assert RemovedIs(gidShards, gids[..0], removed) by { NothingRemoved(gidShards); }
      for i := 0 to |gids|
        invariant gidShards == Remaining(before.gidShards, gids[..i]) && groups == newConfig.groups - Listed(gids[..i])
        invariant RemovedIs(before.gidShards, gids[..i], removed)
        invariant configs == before.configs && lastOps == before.lastOps
      {
        var gid := gids[i];
        RemoveOne(before.gidShards, gids, i, removed);
        RemainingOne(newConfig.groups, gids, i);
        RemainingOne(before.gidShards, gids, i);
        groups := groups - {gid};
        removed := removed[gid := if gid in gidShards then gidShards[gid] else []];
        gidShards := gidShards - {gid};
      }
      assert gids[..|gids|] == gids;
      if groups == map[] {
        configs := configs + [Config(newConfig.num, Unassigned(), groups)];
      } else {
        LeaveSizes(before, gids);
        var gidMin, _ := FindMinMaxGid(gidShards);
        RemovedDisjoint(before.gidShards, gids, removed);
        var freed := Collect(removed);
        assert Distinct(freed) by { CollectedDistinct(removed, freed); }
        var sorted := SortInts(freed);
        SortDistinct(freed);
        SortedAreFreed(before.gidShards, gids, removed, freed, sorted);
        gidShards := gidShards[gidMin := (if gidMin in gidShards then gidShards[gidMin] else []) + sorted];
        LeftDisjoint(before, gids);
        var shards := RebalanceL(newConfig.shards);
        configs := configs + [Config(newConfig.num, shards, groups)];
      }
    }

    method ApplyMoveL(shard: nat, gid: int)
      requires Sane(State()) && shard < NShards
      modifies this
      ensures State() == MoveTo(old(State()), shard, gid)
    {
      hide Disjoint, TakenOut;
      var newConfig := MakeNewConfigL();
      gidShards := TakeOut(gidShards, shard);
      gidShards := gidShards[gid := (if gid in gidShards then gidShards[gid] else []) + [shard]];
      configs := configs + [newConfig.(shards := newConfig.shards[shard := gid])];
    }

    /** `logGidShardsL` ends the program when the numbers of groups differ. */
    method LogGidShardsL() returns (fatal: bool)
      requires configs != []
      ensures fatal == Stops(State())
    {
      fatal := |configs[|configs| - 1].groups| != |gidShards|;
    }

    /** `processOpL`: a repeat of the client's last operation is answered from memory, all else goes to the log. */
    method ProcessOpL(op: Op) returns (reply: Reply)
      ensures reply == if op.clientId in lastOps && lastOps[op.clientId].opId == op.opId
                       then Cached(lastOps[op.clientId].queryResult) else Submit
    {
      if op.clientId in lastOps && lastOps[op.clientId].opId == op.opId {
        return Cached(lastOps[op.clientId].queryResult);
      }
      return Submit;
    }

    /**
     The result and the new state are functions of the old state and the operation alone; the
     program stops if its own count of groups disagrees with its allocation.
     */
    method ApplyOpL(op: Op) returns (result: Result, stops: bool)
      requires Sane(State()) && InRange(op.request)
      modifies this
      ensures (State(), result) == ApplyOp(old(State()), op)
      ensures configs != [] && stops == Stops(State())
      ensures stops <==> !IsDuplicate(old(State()), op) && !Survives(old(State()), op.request)
    {
      assert |Latest(State()).shards| == NShards;
      OpSaneIff(State(), op);
      SameKeysSameSize(Latest(State()).groups, gidShards);
      hide JoinTo, LeaveFrom, MoveTo, Partitioned, Sane, Survives, Disjoint;
      if op.clientId in lastOps && lastOps[op.clientId].opId == op.opId {
        return Result(ErrDuplicate, NoConfig()), false;
      }
      ghost var before := State();
      var config := NoConfig();
      match op.request {
        case Join(servers) =>
          ApplyJoinL(servers);
        case Leave(gids) =>
          ApplyLeaveL(gids);
        case Move(shard, gid) =>
          ApplyMoveL(shard, gid);
        case Query(num) =>
          if num != -1 && num <= |configs| - 1 {
            config := configs[num];
          } else {
            config := configs[|configs| - 1];
          }
      }
      assert State() == Apply(before, op.request);
      lastOps := lastOps[op.clientId := LastOp(op.opId, config)];
      stops := LogGidShardsL();
      return Result(OK, config), stops;
    }
  }

  lemma NotUneven(a: Alloc, small: seq<nat>, large: seq<nat>)
    requires small == (if MinGid(a) in a then a[MinGid(a)] else []) && large == (if MaxGid(a) in a then a[MaxGid(a)] else [])
    requires |large| - |small| <= 1
    ensures !Uneven(a) && Rebalanced(a) == a
  {
  }

  lemma IsUneven(a: Alloc, small: seq<nat>, large: seq<nat>)
    requires small == (if MinGid(a) in a then a[MinGid(a)] else []) && large == (if MaxGid(a) in a then a[MaxGid(a)] else [])
    requires |large| - |small| > 1
    ensures Uneven(a) && Rebalanced(a) == Rebalanced(Shift(a)) && MinGid(a) in a && MaxGid(a) in a
    ensures Shift(a) == a[MaxGid(a) := large[..|large| - 1]][MinGid(a) := small + [large[|large| - 1]]]
  {
  }

  lemma NoNewGroups(a: Alloc)
    ensures WithNewGroups(a, map[]) == a
  {
  }

  lemma JoinSizes(st: Ctrl, servers: map<int, seq<string>>)
    requires Sane(st)
    ensures SizesTo(WithNewGroups(st.gidShards, servers), NShards)
  {
    DisjointSizes(st.gidShards);
    NewGroupsSizes(st.gidShards, servers, NShards);
  }

  lemma NothingRemoved(a: Alloc)
    ensures RemovedIs(a, [], map[])
  {
  }

  lemma CollectedDistinct(a: Alloc, r: seq<nat>)
    requires Collected(a, r)
    ensures Distinct(r)
  {
  }

  lemma LeaveSizes(st: Ctrl, gids: seq<int>)
    requires Sane(st) && Latest(st).groups - Listed(gids) != map[]
    ensures SizesTo(Remaining(st.gidShards, gids), NShards) && Remaining(st.gidShards, gids) != map[]
  {
    DisjointSizes(st.gidShards);
    assert AnyKey(Latest(st).groups - Listed(gids)) in Remaining(st.gidShards, gids);
  }
}
