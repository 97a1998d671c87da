/**
 What the shard controller of labs/src/shardctrler/server.go does with a log of operations,
 described without its handlers: what each kind of request does to the configurations, which
 operations are executed, and what is answered.
 */
module ShardCtrlLog {
  import opened IdLists
  import opened MapIteration
  import opened Shards
  import opened Rebalance
  import opened ShardCtrl

  // ---------------------------------------------------------------- one request

  /** There is one more configuration, under the next number, and the earlier ones are as they were. */
  ghost predicate OneMore(before: Ctrl, after: Ctrl) {
    && before.configs != [] && |after.configs| == |before.configs| + 1 && before.configs <= after.configs
    && Latest(after).num == |before.configs| && |Latest(after).shards| == NShards && |Latest(before).shards| == NShards
  }

  /** The configuration gives every allocated shard to its group and leaves every other as it was. */
  ghost predicate Agrees(before: Ctrl, after: Ctrl)
    requires OneMore(before, after)
  {
    forall s: nat :: s < NShards ==>
      if Held(after.gidShards, s) then Owns(after.gidShards, Latest(after).shards[s], s)
      else Latest(after).shards[s] == Latest(before).shards[s]
  }

  /** The groups that join, with their servers; all shards if there was no group, else all but those of groups that join again. */
  ghost predicate JoinEffect(before: Ctrl, servers: map<int, seq<string>>, after: Ctrl) {
    && OneMore(before, after) && Agrees(before, after) && Balanced(after.gidShards)
    && Latest(after).groups == Latest(before).groups + servers
    && forall s: nat :: Held(after.gidShards, s) <==>
         if Latest(before).groups == map[] then s < NShards else exists g :: Owns(before.gidShards, g, s) && g !in servers
  }

  /**
   The groups that stay, with their servers; their shards and those of the groups that leave, but
   for a group that is listed twice.  When no group stays no shard is assigned.
   */
  ghost predicate LeaveEffect(before: Ctrl, gids: seq<int>, after: Ctrl) {
    && OneMore(before, after)
    && Latest(after).groups.Keys == Latest(before).groups.Keys - Listed(gids)
    && (forall g :: g in Latest(after).groups ==> Latest(after).groups[g] == Latest(before).groups[g])
    && if Latest(after).groups == map[] then
         after.gidShards == map[] && forall s :: 0 <= s < NShards ==> Latest(after).shards[s] == 0
       else
         && Agrees(before, after) && Balanced(after.gidShards)
         && forall s: nat :: Held(after.gidShards, s) <==>
              exists g :: Owns(before.gidShards, g, s) && (g in gids ==> !ListedTwice(gids, g))
  }

  /** The shard is the target's, and nothing else changes. */
  ghost predicate MoveEffect(before: Ctrl, s: nat, gid: int, after: Ctrl) {
    && OneMore(before, after) && Latest(after).groups == Latest(before).groups
    && (forall x :: 0 <= x < NShards ==> Latest(after).shards[x] == if x == s then gid else Latest(before).shards[x])
    && (forall g, x: nat :: Owns(after.gidShards, g, x) <==> if x == s then g == gid else Owns(before.gidShards, g, x))
  }

  ghost predicate Effect(before: Ctrl, request: Request, after: Ctrl) {
    match request
    case Join(servers) => JoinEffect(before, servers, after)
    case Leave(gids) => LeaveEffect(before, gids, after)
    case Move(s, gid) => MoveEffect(before, s, gid, after)
    case Query(_) => after.configs == before.configs && after.gidShards == before.gidShards
  }

  lemma RebalancedAgrees(a: Alloc, shards: seq<int>, s: nat)
    requires Disjoint(a) && |shards| == NShards && s < NShards
    ensures if Held(Rebalanced(a), s) then Owns(Rebalanced(a), Assigned(Rebalanced(a), shards)[s], s)
            else Assigned(Rebalanced(a), shards)[s] == shards[s]
  {
    hide Rebalanced, Owns, Held;
    if Held(Rebalanced(a), s) {
      AssignedOwns(Rebalanced(a), shards, s);
    }
  }

  lemma JoinHas(st: Ctrl, servers: map<int, seq<string>>)
    requires Sane(st)
    ensures JoinEffect(st, servers, JoinTo(st, servers))
  {
    var (a, st') := (Joined(st, servers), JoinTo(st, servers));
    JoinedDisjoint(st, servers);
    RebalancedKeeps(a);
    hide Rebalanced, Disjoint, Balanced;
    forall s: nat | s < NShards
      ensures if Held(st'.gidShards, s) then Owns(st'.gidShards, Latest(st').shards[s], s) else Latest(st').shards[s] == Latest(st).shards[s]
    {
      RebalancedAgrees(a, Latest(st).shards, s);
    }
    forall s: nat ensures Held(st'.gidShards, s) <==>
      if Latest(st).groups == map[] then s < NShards else exists g :: Owns(st.gidShards, g, s) && g !in servers
    {
      assert Held(st'.gidShards, s) <==> Held(a, s);
      JoinedHeld(st, servers, s);
    }
  }

  lemma JoinedHeld(st: Ctrl, servers: map<int, seq<string>>, s: nat)
    requires Sane(st)
    ensures Held(Joined(st, servers), s) <==>
      if Latest(st).groups == map[] then s < NShards else exists g :: Owns(st.gidShards, g, s) && g !in servers
  {
    var a := WithNewGroups(st.gidShards, servers);
    if Latest(st).groups == map[] {
      assert st.gidShards == map[];
      var b := Joined(st, servers);
      assert s < NShards ==> AllShards()[s] == s;
      assert s in AllShards() <==> s < NShards;
      assert Owns(b, MinGid(a), s) <==> s < NShards;
      forall g ensures Owns(b, g, s) ==> g == MinGid(a) {
        NewGroupsOwn(st.gidShards, servers, g, s);
      }
    } else {
      forall g ensures Owns(a, g, s) <==> Owns(st.gidShards, g, s) && g !in servers {
        NewGroupsOwn(st.gidShards, servers, g, s);
      }
    }
  }

  /** The first groups to join: the one with the least gid keeps the first shards, in order. */
  lemma FirstJoin(st: Ctrl, servers: map<int, seq<string>>, lo: int)
    requires Sane(st) && Latest(st).groups == map[] && lo in servers && forall k :: k in servers ==> lo <= k
    ensures var a := JoinTo(st, servers).gidShards;
      lo in a && |a[lo]| <= NShards && forall i :: 0 <= i < |a[lo]| ==> a[lo][i] == i
  {
    var a := WithNewGroups(st.gidShards, servers);
    assert st.gidShards == map[];
    assert lo in a && forall k :: k in a ==> k in servers && a[k] == [];
    assert IsMin(a, MinGid(a));
    var b := Joined(st, servers);
    assert b[lo] == AllShards();
    JoinedDisjoint(st, servers);
    RebalancedKeeps(b);
    OneWay(b, lo);
    DistinctCovers(Rebalanced(b)[lo], NShards);
  }

  lemma LeaveHas(st: Ctrl, gids: seq<int>)
    requires Sane(st)
    ensures LeaveEffect(st, gids, LeaveFrom(st, gids))
  {
    var (a, st', r) := (Left(st, gids), LeaveFrom(st, gids), Remaining(st.gidShards, gids));
    assert Latest(st').groups.Keys == r.Keys;
    if Latest(st').groups == map[] {
      assert r == map[];
    } else {
      assert AnyKey(Latest(st').groups) in r;
      LeftDisjoint(st, gids);
      RebalancedKeeps(a);
      hide Rebalanced, Disjoint, Balanced, Left, ListedTwice;
      forall s: nat | s < NShards
        ensures if Held(st'.gidShards, s) then Owns(st'.gidShards, Latest(st').shards[s], s) else Latest(st').shards[s] == Latest(st).shards[s]
      {
        RebalancedAgrees(a, Latest(st).shards, s);
      }
      forall s: nat ensures Held(st'.gidShards, s) <==> exists g :: Owns(st.gidShards, g, s) && (g in gids ==> !ListedTwice(gids, g)) {
        assert Held(st'.gidShards, s) <==> Held(a, s);
        LeftHeld(st, gids, s);
      }
    }
  }

  lemma LeftHeld(st: Ctrl, gids: seq<int>, s: nat)
    requires Sane(st) && Remaining(st.gidShards, gids) != map[]
    ensures Held(Left(st, gids), s) <==> exists g :: Owns(st.gidShards, g, s) && (g in gids ==> !ListedTwice(gids, g))
  {
    var (r, a) := (Remaining(st.gidShards, gids), Left(st, gids));
    forall g ensures Owns(a, g, s) <==>
      (Owns(st.gidShards, g, s) && g !in gids) || (g == MinGid(r) && s < NShards && Freed(st.gidShards, gids, s))
    {
      LeftOwns(st, gids, g, s);
    }
    forall g ensures Owns(st.gidShards, g, s) ==> s < NShards {
      OwnsInRange(st.gidShards, g, s);
    }
    hide Left, ListedTwice;
    if g :| Owns(st.gidShards, g, s) && (g in gids ==> !ListedTwice(gids, g)) {
      assert if g in gids then Owns(a, MinGid(r), s) else Owns(a, g, s);
    }
  }

  lemma MoveHas(st: Ctrl, s: nat, gid: int)
    requires Sane(st) && s < NShards
    ensures MoveEffect(st, s, gid, MoveTo(st, s, gid))
  {
    forall g, x: nat ensures Owns(MoveTo(st, s, gid).gidShards, g, x) <==> if x == s then g == gid else Owns(st.gidShards, g, x) {
      MovedOwns(st.gidShards, s, gid, g, x);
    }
  }

  // ---------------------------------------------------------------- one operation

  /** What a query gets: -1 and numbers beyond the latest stand for the latest. */
  ghost predicate Answers(st: Ctrl, request: Request, c: Config) {
    request.Query? && st.configs != [] ==>
      if 0 <= request.num < |st.configs| then c == st.configs[request.num] else c == st.configs[|st.configs| - 1]
  }

  /**
   An operation is executed, remembered and answered, unless the last operation remembered for its
   client has the same number; then nothing changes.
   */
  lemma OpHas(st: Ctrl, op: Op)
    requires Sane(st) && InRange(op.request)
    ensures var (st', r) := ApplyOp(st, op);
      if op.clientId in st.lastOps && st.lastOps[op.clientId].opId == op.opId then st' == st && r.err == ErrDuplicate
      else
        && r.err == OK && Effect(st, op.request, st') && Answers(st, op.request, r.config)
        && st'.lastOps == st.lastOps[op.clientId := LastOp(op.opId, r.config)]
  {
    SaneFits(st);
    ApplyHas(st, op.request);
    hide Apply, Sane, Effect;
    if !(op.clientId in st.lastOps && st.lastOps[op.clientId].opId == op.opId) {
      EffectAside(st, op.request, Apply(st, op.request), ApplyOp(st, op).0);
      AnswerIs(st, Apply(st, op.request), op.request);
    }
  }

  lemma AnswerIs(st: Ctrl, st': Ctrl, request: Request)
    requires st.configs != [] && st'.configs != [] && InRange(request) && (request.Query? ==> st'.configs == st.configs)
    ensures Answers(st, request, Answer(st', request))
  {
  }

  lemma ApplyHas(st: Ctrl, request: Request)
    requires Sane(st) && InRange(request)
    ensures st.configs != [] && |Latest(st).shards| == NShards && Apply(st, request).configs != []
    ensures Effect(st, request, Apply(st, request)) && Apply(st, request).lastOps == st.lastOps
    ensures request.Query? ==> Apply(st, request).configs == st.configs
  {
    SaneFits(st);
    hide JoinTo, LeaveFrom, MoveTo, Sane, JoinEffect, LeaveEffect, MoveEffect;
    match request {
      case Join(servers) => JoinHas(st, servers); JoinKeeps(st, servers);
      case Leave(gids) => LeaveHas(st, gids); LeaveKeeps(st, gids);
      case Move(s, gid) => MoveHas(st, s, gid); MoveKeeps(st, s, gid);
      case Query(num) =>
    }
  }

  lemma EffectAside(before: Ctrl, request: Request, st: Ctrl, st': Ctrl)
    requires Effect(before, request, st)
    ensures st'.configs == st.configs && st'.gidShards == st.gidShards ==> Effect(before, request, st')
  {
  }

  lemma JoinKeeps(st: Ctrl, servers: map<int, seq<string>>)
    requires st.configs != [] && |Latest(st).shards| == NShards
    ensures JoinTo(st, servers).lastOps == st.lastOps && JoinTo(st, servers).configs != []
  {
  }

  lemma LeaveKeeps(st: Ctrl, gids: seq<int>)
    requires st.configs != [] && |Latest(st).shards| == NShards
    ensures LeaveFrom(st, gids).lastOps == st.lastOps && LeaveFrom(st, gids).configs != []
  {
  }

  lemma MoveKeeps(st: Ctrl, s: nat, gid: int)
    requires st.configs != [] && |Latest(st).shards| == NShards && s < NShards
    ensures MoveTo(st, s, gid).lastOps == st.lastOps && MoveTo(st, s, gid).configs != []
  {
  }

  // ---------------------------------------------------------------- what is remembered

  predicate Same(a: Op, b: Op) {
    a.clientId == b.clientId && a.opId == b.opId
  }

  /** The client's last operation in the log. */
  ghost predicate IsLast(log: seq<Op>, c: int, i: nat) {
    i < |log| && log[i].clientId == c && forall k :: i < k < |log| ==> log[k].clientId != c
  }

  /** The last operation of the client in the log has this one's number. */
  ghost predicate Repeats(log: seq<Op>, op: Op) {
    exists i: nat :: IsLast(log, op.clientId, i) && log[i].opId == op.opId
  }

  /** The log step by step. */
  lemma LogStep(log: seq<Op>, j: nat)
    requires SurvivingLog(log) && j < |log|
    ensures SurvivingLog(log[..j]) && SurvivingLog(log[..j + 1]) && InRange(log[j].request)
    ensures After(log[..j]).configs != [] && |Latest(After(log[..j])).shards| == NShards
    ensures After(log[..j + 1]) == ApplyOp(After(log[..j]), log[j]).0
  {
    ConfigsNeverChange(log, j);
    ConfigsNeverChange(log, j + 1);
    hide Sane, Survives, IsDuplicate, ApplyOp;
    SaneFits(After(log[..j]));
    var upTo := log[..j + 1];
    assert upTo[..j] == log[..j] && upTo[j] == log[j];
  }

  lemma LogPush(log: seq<Op>, op: Op)
    requires SurvivingLog(log + [op])
    ensures SurvivingLog(log) && InRange(op.request) && After(log).configs != [] && |Latest(After(log)).shards| == NShards
    ensures After(log + [op]) == ApplyOp(After(log), op).0
  {
    hide SurvivingLog, After;
    LogStep(log + [op], |log|);
    assert (log + [op])[..|log|] == log && (log + [op])[..|log| + 1] == log + [op];
  }

  lemma LastPush(log: seq<Op>, op: Op, c: int, i: nat)
    ensures IsLast(log + [op], c, i) <==> if op.clientId == c then i == |log| else IsLast(log, c, i)
  {
    var longer := log + [op];
    assert longer[|log|] == op;
    assert i < |log| ==> longer[i] == log[i];
    if IsLast(longer, c, i) && op.clientId != c {
      forall k | i < k < |log| ensures log[k].clientId != c {
        assert longer[k] == log[k];
      }
    }
  }

  /** The controller remembers, of every client in the log, its last operation and no other. */
  lemma {:induction false} RemembersLast(log: seq<Op>, c: int)
    requires SurvivingLog(log)
    ensures c in After(log).lastOps <==> exists i: nat :: IsLast(log, c, i)
    ensures forall i: nat :: IsLast(log, c, i) ==> After(log).lastOps[c].opId == log[i].opId
    decreases |log|
  {
    if log != [] {
      var (front, op) := (log[..|log| - 1], log[|log| - 1]);
      assert log == front + [op];
      hide SurvivingLog, After, ApplyOp;
      LogPush(front, op);
      RemembersLast(front, c);
      OpHas(After(front), op);
      hide Effect, Answers;
      forall i: nat ensures IsLast(log, c, i) <==> if op.clientId == c then i == |front| else IsLast(front, c, i) {
        LastPush(front, op, c, i);
      }
      if op.clientId == c {
        assert IsLast(log, c, |front|);
      }
    }
  }

  lemma RepeatsIff(log: seq<Op>, op: Op)
    requires SurvivingLog(log)
    ensures Repeats(log, op) <==> op.clientId in After(log).lastOps && After(log).lastOps[op.clientId].opId == op.opId
  {
    RemembersLast(log, op.clientId);
  }

  // ---------------------------------------------------------------- every operation of a log

  /** Operation j of the log is executed, with its effect and its answer. */
  ghost predicate Executed(log: seq<Op>, j: nat)
    requires SurvivingLog(log) && j < |log|
  {
    LogStep(log, j);
    var (before, after, r) := (After(log[..j]), After(log[..j + 1]), ApplyOp(After(log[..j]), log[j]).1);
    r.err == OK && Effect(before, log[j].request, after) && Answers(before, log[j].request, r.config)
  }

  ghost predicate Ignored(log: seq<Op>, j: nat)
    requires SurvivingLog(log) && j < |log|
  {
    LogStep(log, j);
    After(log[..j + 1]) == After(log[..j]) && ApplyOp(After(log[..j]), log[j]).1.err == ErrDuplicate
  }

  /**
   Over every log: an operation is ignored exactly when the last operation of its client before it
   has its number, and executed with the effect of its request otherwise.
   */
  lemma IgnoredIff(log: seq<Op>, j: nat)
    requires SurvivingLog(log) && j < |log|
    ensures Ignored(log, j) <==> Repeats(log[..j], log[j])
    ensures Executed(log, j) <==> !Repeats(log[..j], log[j])
  {
    hide *;
    LogStep(log, j);
    OutcomeOf(log, j);
    RepeatsIff(log[..j], log[j]);
    OpHas(After(log[..j]), log[j]);
  }

  lemma OutcomeOf(log: seq<Op>, j: nat)
    requires SurvivingLog(log) && j < |log|
    ensures SurvivingLog(log[..j]) && SurvivingLog(log[..j + 1]) && InRange(log[j].request)
    ensures After(log[..j]).configs != [] && |Latest(After(log[..j])).shards| == NShards
    ensures var (before, after, r) := (After(log[..j]), After(log[..j + 1]), ApplyOp(After(log[..j]), log[j]).1);
      && (Executed(log, j) <==> r.err == OK && Effect(before, log[j].request, after) && Answers(before, log[j].request, r.config))
      && (Ignored(log, j) <==> after == before && r.err == ErrDuplicate)
  {
    LogStep(log, j);
    hide SurvivingLog, After, ApplyOp, Effect, Answers;
  }

  /** In particular a move that is executed, to whatever group, gives it the shard and leaves all else alone. */
  lemma MoveMoves(log: seq<Op>, op: Op)
    requires SurvivingLog(log + [op]) && op.request.Move? && !Repeats(log, op)
    ensures SurvivingLog(log) && op.request.shard < NShards
    ensures var (c, c', s, gid) := (Latest(After(log)), Latest(After(log + [op])), op.request.shard, op.request.gid);
      && |c.shards| == |c'.shards| == NShards && c'.shards[s] == gid && c'.groups == c.groups && c'.num == c.num + 1
      && (forall x :: 0 <= x < NShards && x != s ==> c'.shards[x] == c.shards[x])
      && (forall g :: Owns(After(log + [op]).gidShards, g, s) <==> g == gid)
      && (forall g, x: nat :: x != s ==> (Owns(After(log + [op]).gidShards, g, x) <==> Owns(After(log).gidShards, g, x)))
  {
    hide SurvivingLog, After, ApplyOp, Repeats, Owns;
    LogPush(log, op);
    RepeatsIff(log, op);
    OpHas(After(log), op);
  }

  // ---------------------------------------------------------------- configurations are counted

  /** How many operations of the log were executed that make a configuration. */
  ghost function Changes(log: seq<Op>): nat {
    if log == [] then 0
    else
      var (front, op) := (log[..|log| - 1], log[|log| - 1]);
      Changes(front) + if op.request.Query? || Repeats(front, op) then 0 else 1
  }

  lemma {:induction false} ConfigsCounted(log: seq<Op>)
    requires SurvivingLog(log)
    ensures |After(log).configs| == Changes(log) + 1
    decreases |log|
  {
    if log != [] {
      var (front, op) := (log[..|log| - 1], log[|log| - 1]);
      assert log == front + [op];
      hide SurvivingLog, After, ApplyOp, Repeats;
      LogPush(front, op);
      ConfigsCounted(front);
      RepeatsIff(front, op);
      OpHas(After(front), op);
      hide Agrees, Balanced;
    }
  }

  lemma NumberIs(st: Ctrl, i: nat)
    requires Sane(st) && i < |st.configs|
    ensures st.configs[i].num == i
  {
  }

  /**
   A query that is executed is answered with the configuration of its number if there is one, and
   for -1 and every greater number with the latest, whose number is the count of the changes.
   */
  lemma QueryAnswered(log: seq<Op>, op: Op)
    requires SurvivingLog(log) && op.request.Query? && op.request.num >= -1 && !Repeats(log, op)
    ensures After(log).configs != [] && |Latest(After(log)).shards| == NShards
    ensures var (n, r) := (Changes(log), ApplyOp(After(log), op).1);
      && |After(log).configs| == n + 1 && r.err == OK
      && r.config.num == (if 0 <= op.request.num <= n then op.request.num else n)
      && r.config == After(log).configs[r.config.num]
  {
    hide SurvivingLog, After, ApplyOp, Repeats, Sane;
    SaneFits(After(log));
    RepeatsIff(log, op);
    ConfigsCounted(log);
    OpHas(After(log), op);
    NumberIs(After(log), if 0 <= op.request.num <= Changes(log) then op.request.num else Changes(log));
  }

  /** A configuration that a query has once got by its number is what every later query for it gets. */
  lemma PastIsFixed(log: seq<Op>, k: nat, a: Op, b: Op)
    requires SurvivingLog(log) && k <= |log| && a.request.Query? && a.request == b.request && a.request.num >= 0
    requires a.request.num <= Changes(log[..k]) && !Repeats(log[..k], a) && !Repeats(log, b)
    ensures SurvivingLog(log[..k]) && After(log[..k]).configs != [] && After(log).configs != []
    ensures |Latest(After(log[..k])).shards| == |Latest(After(log)).shards| == NShards
    ensures ApplyOp(After(log[..k]), a).1 == ApplyOp(After(log), b).1
    ensures ApplyOp(After(log), b).1.config.num == b.request.num
  {
    ConfigsNeverChange(log, k);
    hide SurvivingLog, After, ApplyOp, Repeats;
    QueryAnswered(log[..k], a);
    QueryAnswered(log, b);
  }

  // ---------------------------------------------------------------- exactly once

  /** Only the same operation of its client stands between two occurrences of an operation. */
  ghost predicate Orderly(log: seq<Op>) {
    forall i, k, j :: 0 <= i < k < j < |log| && Same(log[i], log[j]) && log[k].clientId == log[i].clientId ==> Same(log[k], log[i])
  }

  ghost predicate Occurs(log: seq<Op>, op: Op) {
    exists i :: 0 <= i < |log| && Same(log[i], op)
  }

  lemma {:induction false} SomeLast(log: seq<Op>, c: int, j: nat) returns (i: nat)
    requires j < |log| && log[j].clientId == c
    ensures j <= i && IsLast(log, c, i)
    decreases |log| - j
  {
    if k :| j < k < |log| && log[k].clientId == c {
      i := SomeLast(log, c, k);
    } else {
      i := j;
    }
  }

  /** In an orderly log an operation repeats its client's last exactly when it has occurred at all. */
  lemma RepeatsIfOccurs(log: seq<Op>, op: Op)
    ensures Repeats(log, op) ==> Occurs(log, op)
    ensures Orderly(log + [op]) && Occurs(log, op) ==> Repeats(log, op)
  {
    if i: nat :| IsLast(log, op.clientId, i) && log[i].opId == op.opId {
      assert Same(log[i], op);
    }
    if Orderly(log + [op]) && Occurs(log, op) {
      var (j, longer) := (FindOne(log, op), log + [op]);
      var i := SomeLast(log, op.clientId, j);
      assert longer[j] == log[j] && longer[i] == log[i] && longer[|log|] == op;
      assert j < i ==> Same(longer[i], longer[j]);
    }
  }

  ghost function FindOne(log: seq<Op>, op: Op): (i: nat)
    requires Occurs(log, op)
    ensures i < |log| && Same(log[i], op)
  {
    var i :| 0 <= i < |log| && Same(log[i], op);
    i
  }

  /** The first occurrences of all operations. */
  ghost function Firsts(log: seq<Op>): seq<Op> {
    if log == [] then []
    else
      var (front, op) := (log[..|log| - 1], log[|log| - 1]);
      Firsts(front) + if Occurs(front, op) then [] else [op]
  }

  /** The controller that executes every operation it is given and remembers none. */
  ghost function Replayed(ops: seq<Op>): Ctrl {
    if ops == [] then Initial()
    else
      var (st, op) := (Replayed(ops[..|ops| - 1]), ops[|ops| - 1]);
      if st.configs != [] && |Latest(st).shards| == NShards && InRange(op.request) then Apply(st, op.request) else st
  }

  ghost predicate SameConfigs(a: Ctrl, b: Ctrl) {
    a.configs == b.configs && a.gidShards == b.gidShards
  }

  lemma ApplySame(a: Ctrl, b: Ctrl, request: Request)
    requires SameConfigs(a, b) && a.configs != [] && |Latest(a).shards| == NShards && InRange(request)
    ensures SameConfigs(Apply(a, request), Apply(b, request))
  {
    hide Rebalanced, Assigned, Joined, Remaining, Left, Moved;
    match request {
      case Join(servers) => assert Joined(a, servers) == Joined(b, servers) by { JoinedSame(a, b, servers); }
      case Leave(gids) => assert Left(a, gids) == Left(b, gids) by { LeftSame(a, b, gids); }
      case Move(s, gid) =>
      case Query(num) =>
    }
  }

  lemma JoinedSame(a: Ctrl, b: Ctrl, servers: map<int, seq<string>>)
    requires SameConfigs(a, b) && a.configs != []
    ensures Joined(a, servers) == Joined(b, servers)
  {
  }

  lemma LeftSame(a: Ctrl, b: Ctrl, gids: seq<int>)
    requires SameConfigs(a, b)
    ensures Left(a, gids) == Left(b, gids)
  {
  }

  /** What an executed operation leaves behind is what applying its request does. */
  lemma ExecutedIs(st: Ctrl, op: Op)
    requires Sane(st) && InRange(op.request) && ApplyOp(st, op).1.err == OK
    ensures SameConfigs(ApplyOp(st, op).0, Apply(st, op.request))
  {
    hide Apply;
  }

  /**
   In an orderly log every operation is executed once, at its first occurrence: the configurations
   and the allocation are those of the first occurrences alone.
   */
  lemma {:induction false} ExactlyOnce(log: seq<Op>)
    requires SurvivingLog(log) && Orderly(log)
    ensures SameConfigs(After(log), Replayed(Firsts(log)))
    decreases |log|
  {
    hide *;
    if log == [] {
      NoOps();
    } else {
      var (front, op) := (log[..|log| - 1], log[|log| - 1]);
      assert log == front + [op];
      OrderlyFront(log, |front|);
      LogPush(front, op);
      ExactlyOnce(front);
      RepeatsIfOccurs(front, op);
      RepeatsIff(front, op);
      OpHas(After(front), op);
      FirstsPush(front, op);
      if !Occurs(front, op) {
        ExecutedIs(After(front), op);
        ApplySame(After(front), Replayed(Firsts(front)), op.request);
        ReplayedPush(After(front), Firsts(front), op);
        SameConfigsTrans(After(log), Apply(After(front), op.request), Replayed(Firsts(log)));
      }
    }
  }

  lemma NoOps()
    ensures SurvivingLog([]) && SameConfigs(After([]), Replayed(Firsts([])))
  {
  }

  lemma FirstsPush(log: seq<Op>, op: Op)
    ensures Firsts(log + [op]) == if Occurs(log, op) then Firsts(log) else Firsts(log) + [op]
  {
    hide Occurs;
    assert (log + [op])[..|log|] == log;
  }

  lemma ReplayedPush(st: Ctrl, ops: seq<Op>, op: Op)
    requires SameConfigs(st, Replayed(ops)) && st.configs != [] && |Latest(st).shards| == NShards && InRange(op.request)
    ensures Replayed(ops).configs != [] && |Latest(Replayed(ops)).shards| == NShards
    ensures Replayed(ops + [op]) == Apply(Replayed(ops), op.request)
  {
    hide Apply;
    assert (ops + [op])[..|ops|] == ops;
  }

  lemma SameConfigsTrans(a: Ctrl, b: Ctrl, c: Ctrl)
    requires SameConfigs(a, b) && SameConfigs(b, c)
    ensures SameConfigs(a, c)
  {
  }

  lemma OrderlyFront(log: seq<Op>, k: nat)
    requires Orderly(log) && k <= |log|
    ensures Orderly(log[..k])
  {
  }

  /**
   Looking only at the client's last operation recognises repeats at every place of the log if and
   only if the log is orderly.
   */
  lemma OnceIffOrderly(log: seq<Op>)
    requires SurvivingLog(log)
    ensures Orderly(log) <==> forall j: nat :: j < |log| ==> (Ignored(log, j) <==> Occurs(log[..j], log[j]))
  {
    hide SurvivingLog, Ignored, Executed;
    forall j: nat | j < |log| ensures Ignored(log, j) <==> Repeats(log[..j], log[j]) {
      IgnoredIff(log, j);
    }
    hide Repeats, Occurs;
    if Orderly(log) {
      forall j: nat | j < |log| ensures Ignored(log, j) <==> Occurs(log[..j], log[j]) {
        OrderlyFront(log, j + 1);
        assert log[..j + 1] == log[..j] + [log[j]];
        RepeatsIfOccurs(log[..j], log[j]);
      }
    }
    if forall j: nat :: j < |log| ==> (Ignored(log, j) <==> Occurs(log[..j], log[j])) {
      forall i, k, j | 0 <= i < k < j < |log| && Same(log[i], log[j]) && log[k].clientId == log[i].clientId ensures Same(log[k], log[i]) {
        Between(log, i, k, j);
      }
    }
  }

  lemma {:induction false} Between(log: seq<Op>, i: nat, k: nat, j: nat)
    requires forall j: nat :: j < |log| ==> (Occurs(log[..j], log[j]) ==> Repeats(log[..j], log[j]))
    requires i < k < j < |log| && Same(log[i], log[j]) && log[k].clientId == log[i].clientId
    ensures Same(log[k], log[i])
    decreases j
  {
    assert log[..j][i] == log[i] && log[..j][k] == log[k];
    assert Occurs(log[..j], log[j]);
    var l: nat :| IsLast(log[..j], log[j].clientId, l) && log[..j][l].opId == log[j].opId;
    assert log[..j][l] == log[l] && k <= l;
    if k < l {
      Between(log, i, k, l);
    }
  }

  /** A repeat of the client's last operation is told, from memory, what its execution answered. */
  lemma {:induction false} RepeatIsTold(log: seq<Op>, i: nat)
    requires SurvivingLog(log) && i < |log| && Executed(log, i)
    requires forall k :: i < k < |log| && log[k].clientId == log[i].clientId ==> Same(log[k], log[i])
    ensures SurvivingLog(log[..i]) && After(log[..i]).configs != [] && |Latest(After(log[..i])).shards| == NShards
    ensures InRange(log[i].request) && log[i].clientId in After(log).lastOps
    ensures After(log).lastOps[log[i].clientId] == LastOp(log[i].opId, ApplyOp(After(log[..i]), log[i]).1.config)
    decreases |log|
  {
    hide *;
    LogStep(log, i);
    var (front, op) := (log[..|log| - 1], log[|log| - 1]);
    assert log == front + [op];
    LogPush(front, op);
    OpHas(After(front), op);
    if i < |front| {
      assert front[..i] == log[..i] && front[i] == log[i];
      assert forall k :: 0 <= k < |front| ==> front[k] == log[k];
      ExecutedFront(log, front, i);
      RepeatIsTold(front, i);
      assert op.clientId == log[i].clientId ==> op.opId == log[i].opId by { SameIs(op, log[i]); }
    } else {
      assert log[..i] == front;
      ExecutedIsOk(log, i);
    }
  }

  lemma SameIs(a: Op, b: Op)
    ensures Same(a, b) <==> a.clientId == b.clientId && a.opId == b.opId
  {
  }

  lemma ExecutedIsOk(log: seq<Op>, j: nat)
    requires SurvivingLog(log) && j < |log| && Executed(log, j)
    ensures SurvivingLog(log[..j]) && InRange(log[j].request)
    ensures After(log[..j]).configs != [] && |Latest(After(log[..j])).shards| == NShards
    ensures ApplyOp(After(log[..j]), log[j]).1.err == OK
  {
    hide *;
    OutcomeOf(log, j);
  }

  lemma ExecutedFront(log: seq<Op>, front: seq<Op>, j: nat)
    requires SurvivingLog(log) && j < |front| && SurvivingLog(front) && front <= log && Executed(log, j)
    ensures Executed(front, j)
  {
    hide *;
    IgnoredIff(log, j);
    IgnoredIff(front, j);
    assert front[..j] == log[..j];
  }
}
