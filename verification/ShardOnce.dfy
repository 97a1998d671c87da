/**
 Whether a client's command is executed once when shards move between groups and the command is
 repeated, over whole runs of labs/src/shardkv.
 */
module ShardOnce {
  import opened IdLists
  import opened Shards
  import opened ShardGroup
  import opened ShardSystem

  // ---------------------------------------------------------------- what groups learn about a client

  /**
   The step makes group h remember the operation with this id as the client's last: h applies it,
   or takes over a parcel with it whose id is greater than what h remembers.
   */
  ghost predicate Learns(sys: Sys, a: Action, h: int, c: int, id: nat) {
    && a.Apply? && a.g == h && h in sys.groups && !IsDuplicate(sys.groups[h], a.op)
    && if a.op.clientId == c then
         id == a.op.opId && (a.op.what.Client? ==> ShardOf(a.op.what.command.key) in sys.groups[h].validShards)
       else
         && a.op.what.AddShards?
         && TakesOver(sys.groups[h], a.op.what.parcel, c, id)
  }

  ghost predicate TakesOver(group: Group, p: Parcel, c: int, id: nat) {
    && !NotNew(group, p.configNum, p.shards)
    && c in p.lastOps && p.lastOps[c].opId == id && id > LastId(group.lastOps, c)
  }

  lemma LearnStep(sys: Sys, a: Action, h: int, c: int, id: nat)
    requires Enabled(sys, a) && h in sys.groups
    ensures h in Step(sys, a).groups
    ensures LastIs(Step(sys, a).groups[h], c, id) <==>
      Learns(sys, a, h, c, id) || (LastIs(sys.groups[h], c, id) && forall other :: !Learns(sys, a, h, c, other))
  {
    if a.Apply? && a.g == h && !IsDuplicate(sys.groups[h], a.op) {
      if a.op.clientId == c {
        assert Learns(sys, a, h, c, a.op.opId) <==>
          (a.op.what.Client? ==> ShardOf(a.op.what.command.key) in sys.groups[h].validShards);
      } else if a.op.what.AddShards? && c in a.op.what.parcel.lastOps {
        var theirs := a.op.what.parcel.lastOps[c].opId;
        assert Learns(sys, a, h, c, theirs) <==> TakesOver(sys.groups[h], a.op.what.parcel, c, theirs);
      }
    }
  }

  /** The state before the i-th action. */
  ghost function Before(first: Sys, actions: seq<Action>, i: nat): Sys
    requires Run(first, actions) && i <= |actions|
  {
    RunPrefix(first, actions, i);
    After(first, actions[..i])
  }

  lemma {:induction false} RunPrefix(first: Sys, actions: seq<Action>, i: nat)
    requires Run(first, actions) && i <= |actions|
    ensures Run(first, actions[..i])
    ensures i < |actions| ==> Enabled(After(first, actions[..i]), actions[i])
    ensures i < |actions| ==> Run(first, actions[..i + 1]) && After(first, actions[..i + 1]) == Step(After(first, actions[..i]), actions[i])
    decreases |actions|
  {
    hide Enabled, Step;
    if i == |actions| {
      assert actions[..i] == actions;
    } else if i == |actions| - 1 {
      assert actions[..i] == Front(actions) && actions[..i + 1] == actions;
    } else {
      RunPrefix(first, Front(actions), i);
      assert Front(actions)[..i] == actions[..i] && Front(actions)[..i + 1] == actions[..i + 1];
    }
  }

  ghost predicate LearnsAt(first: Sys, actions: seq<Action>, i: nat, h: int, c: int, id: nat)
    requires Run(first, actions)
  {
    i < |actions| && Learns(Before(first, actions, i), actions[i], h, c, id)
  }

  /** The last thing that h has learnt about the client in the run is the operation with this id. */
  ghost predicate LearntLast(first: Sys, actions: seq<Action>, h: int, c: int, id: nat)
    requires Run(first, actions)
  {
    exists i: nat :: LastLesson(first, actions, i, h, c, id)
  }

  ghost predicate LastLesson(first: Sys, actions: seq<Action>, i: nat, h: int, c: int, id: nat)
    requires Run(first, actions)
  {
    && LearnsAt(first, actions, i, h, c, id)
    && forall j: nat, other :: j > i ==> !LearnsAt(first, actions, j, h, c, other)
  }

  lemma LearnsEarlier(first: Sys, actions: seq<Action>, i: nat, h: int, c: int, id: nat)
    requires Run(first, actions) && actions != [] && i < |actions| - 1
    ensures Run(first, Front(actions)) && (LearnsAt(first, actions, i, h, c, id) <==> LearnsAt(first, Front(actions), i, h, c, id))
  {
    hide Learns;
    assert Front(actions)[..i] == actions[..i];
  }

  /** What a group remembers of a client is the last thing it has learnt about it. */
  lemma {:induction false} RemembersLearnt(first: Sys, firstConfig: seq<int>, actions: seq<Action>, h: int, c: int, id: nat)
    requires Init(first, firstConfig) && Run(first, actions) && h in first.groups
    ensures h in After(first, actions).groups
    ensures LastIs(After(first, actions).groups[h], c, id) <==> LearntLast(first, actions, h, c, id)
    decreases |actions|
  {
    hide Learns, Enabled, Step, LastIs;
    if actions == [] {
      assert !LastIs(first.groups[h], c, id) by { StartFacts(first, firstConfig, h, 0, 0); NeverHeard(first.groups[h], c, id); }
    } else {
      hide Init;
      var front, a, n := Front(actions), Last(actions), |actions| - 1;
      RemembersLearnt(first, firstConfig, front, h, c, id);
      var sys := After(first, front);
      assert actions[..n] == front && Before(first, actions, n) == sys;
      LearnStep(sys, a, h, c, id);
      assert forall other :: LearnsAt(first, actions, n, h, c, other) <==> Learns(sys, a, h, c, other);
      LearntFront(first, actions, h, c, id);
    }
  }

  lemma LearntFront(first: Sys, actions: seq<Action>, h: int, c: int, id: nat)
    requires Run(first, actions) && actions != []
    ensures var front, n := Front(actions), |actions| - 1;
      LearntLast(first, actions, h, c, id) <==>
      || LearnsAt(first, actions, n, h, c, id)
      || (LearntLast(first, front, h, c, id) && forall other :: !LearnsAt(first, actions, n, h, c, other))
  {
    hide LearnsAt, LastLesson, Run;
    var front, n := Front(actions), |actions| - 1;
    RunPrefix(first, actions, n);
    assert actions[..n] == front;
    LessonFront(first, actions, n, h, c, id);
    if LearntLast(first, actions, h, c, id) {
      var i: nat :| LastLesson(first, actions, i, h, c, id);
      LessonFront(first, actions, i, h, c, id);
    }
    if LearntLast(first, front, h, c, id) && forall other :: !LearnsAt(first, actions, n, h, c, other) {
      var i: nat :| LastLesson(first, front, i, h, c, id);
      LessonInRange(first, front, i, h, c, id);
      LessonFront(first, actions, i, h, c, id);
    }
  }

  lemma LessonInRange(first: Sys, actions: seq<Action>, i: nat, h: int, c: int, id: nat)
    requires Run(first, actions) && LastLesson(first, actions, i, h, c, id)
    ensures i < |actions|
  {
  }

  lemma LessonFront(first: Sys, actions: seq<Action>, i: nat, h: int, c: int, id: nat)
    requires Run(first, actions) && actions != []
    ensures var front, n := Front(actions), |actions| - 1;
      && Run(first, front)
      && (LastLesson(first, actions, i, h, c, id) <==>
          if i < n then LastLesson(first, front, i, h, c, id) && forall other :: !LearnsAt(first, actions, n, h, c, other)
          else i == n && LearnsAt(first, actions, n, h, c, id))
  {
    hide Learns, Before, Run;
    var front, n := Front(actions), |actions| - 1;
    RunPrefix(first, actions, n);
    assert actions[..n] == front;
    forall j: nat, other | j < n ensures LearnsAt(first, actions, j, h, c, other) <==> LearnsAt(first, front, j, h, c, other) {
      LearnsEarlier(first, actions, j, h, c, other);
    }
    hide LearnsAt;
    assert forall j: nat, other :: j > n ==> !LearnsAt(first, actions, j, h, c, other) by { NoLessonBeyond(first, actions, h, c); }
    assert forall j: nat, other :: j >= n ==> !LearnsAt(first, front, j, h, c, other) by { NoLessonBeyond(first, front, h, c); }
  }

  lemma NoLessonBeyond(first: Sys, actions: seq<Action>, h: int, c: int)
    requires Run(first, actions)
    ensures forall j: nat, other :: j >= |actions| ==> !LearnsAt(first, actions, j, h, c, other)
  {
  }

  /**
   When a command that reaches a group is executed, after any run: exactly when the group serves
   the key's shard and the last thing the group has learnt about the client is not this very
   operation, whoever executed it before.
   */
  lemma RunsIff(first: Sys, firstConfig: seq<int>, actions: seq<Action>, h: int, op: Op)
    requires Init(first, firstConfig) && Run(first, actions) && op.what.Client? && h in first.groups
    ensures Enabled(After(first, actions), Apply(h, op))
    ensures Executed(After(first, actions), Apply(h, op)) == [op.what.command] <==>
      && Serves(After(first, actions), h, ShardOf(op.what.command.key))
      && !LearntLast(first, actions, h, op.clientId, op.opId)
  {
    hide Init, Run, After, LearntLast;
    RemembersLearnt(first, firstConfig, actions, h, op.clientId, op.opId);
  }

  /** What a group takes over from a parcel is what the sender had learnt by the time of sending. */
  lemma {:induction false} ParcelIsSnapshot(first: Sys, firstConfig: seq<int>, actions: seq<Action>, r: Request) returns (i: nat, h: Handoff)
    requires Init(first, firstConfig) && Run(first, actions) && r in After(first, actions).net
    ensures i < |actions| && actions[i] == Send(r.from, h) && h.gid == r.to
    ensures r.from in Before(first, actions, i).groups && r.parcel == ParcelOf(Before(first, actions, i).groups[r.from], h)
    decreases |actions|
  {
    var front, n := Front(actions), |actions| - 1;
    var sys, a := After(first, front), Last(actions);
    assert actions[..n] == front;
    if r in sys.net {
      i, h := ParcelIsSnapshot(first, firstConfig, front, r);
      assert front[..i] == actions[..i];
    } else {
      i, h := n, a.handoff;
    }
  }

  // ---------------------------------------------------------------- parcels are taken once

  /** Group g applies a parcel with this list of shards under this number, not as a repeat of an operation. */
  ghost predicate Adds(sys: Sys, a: Action, g: int, n: nat, shards: seq<nat>) {
    && a.Apply? && a.g == g && g in sys.groups && a.op.what.AddShards?
    && a.op.what.parcel.configNum == n && a.op.what.parcel.shards == shards
    && !(a.op.clientId in sys.groups[g].lastOps && sys.groups[g].lastOps[a.op.clientId].opId == a.op.opId)
  }

  ghost predicate AddsAt(first: Sys, actions: seq<Action>, i: nat, g: int, n: nat, shards: seq<nat>)
    requires Run(first, actions)
  {
    i < |actions| && Adds(Before(first, actions, i), actions[i], g, n, shards)
  }

  lemma ReceivedStep(sys: Sys, a: Action, g: int, n: nat, shards: seq<nat>)
    requires Enabled(sys, a) && g in sys.groups
    ensures g in Step(sys, a).groups
    ensures NotNew(Step(sys, a).groups[g], n, shards) <==> NotNew(sys.groups[g], n, shards) || Adds(sys, a, g, n, shards)
  {
    if a.Apply? && a.g == g && a.op.what.AddShards? {
      var p := a.op.what.parcel;
      assert Received(sys.groups[g], p.configNum) + [p.shards] ==
        if NotNew(sys.groups[g], p.configNum, p.shards) || IsDuplicate(sys.groups[g], a.op)
        then Received(sys.groups[g], p.configNum) + [p.shards] else Received(Step(sys, a).groups[g], p.configNum);
    }
  }

  /** A group counts a list as received under a number exactly when it has applied a parcel with both. */
  lemma {:induction false} ReceivedIff(first: Sys, firstConfig: seq<int>, actions: seq<Action>, g: int, n: nat, shards: seq<nat>)
    requires Init(first, firstConfig) && Run(first, actions) && g in first.groups
    ensures g in After(first, actions).groups
    ensures NotNew(After(first, actions).groups[g], n, shards) <==> exists i: nat :: AddsAt(first, actions, i, g, n, shards)
    decreases |actions|
  {
    if actions == [] {
      assert first.groups[g].receivedHandoffs == map[];
    } else {
      hide Adds, Enabled, Step, NotNew, Init;
      var (front, k) := (Front(actions), |actions| - 1);
      ReceivedIff(first, firstConfig, front, g, n, shards);
      assert actions[..k] == front && Before(first, actions, k) == After(first, front);
      ReceivedStep(After(first, front), Last(actions), g, n, shards);
      forall i: nat | i < k ensures AddsAt(first, actions, i, g, n, shards) <==> AddsAt(first, front, i, g, n, shards) {
        assert front[..i] == actions[..i];
      }
      assert AddsAt(first, actions, k, g, n, shards) <==> Adds(After(first, front), Last(actions), g, n, shards);
    }
  }

  /**
   A parcel that a group applies brings its shards exactly when no parcel with the same list and
   number has been applied there before; else it changes neither the store nor what is served.
   */
  lemma TakenIffFirst(first: Sys, firstConfig: seq<int>, actions: seq<Action>, g: int, op: Op)
    requires Init(first, firstConfig) && Run(first, actions) && g in first.groups && op.what.AddShards?
    requires Enabled(After(first, actions), Apply(g, op)) && Adds(After(first, actions), Apply(g, op), g, op.what.parcel.configNum, op.what.parcel.shards)
    ensures var (p, before) := (op.what.parcel, After(first, actions).groups[g]);
      var after := Step(After(first, actions), Apply(g, op)).groups[g];
      if exists i: nat :: AddsAt(first, actions, i, g, p.configNum, p.shards) then
        after.validShards == before.validShards && after.kvMap == before.kvMap
      else
        && after.validShards == before.validShards + Elements(p.shards)
        && (forall k :: ShardOf(k) in p.shards && k in p.kvMap ==> k in after.kvMap && after.kvMap[k] == p.kvMap[k])
        && (forall k :: ShardOf(k) !in p.shards || k !in p.kvMap ==> Agree(before.kvMap, after.kvMap, k))
  {
    hide Init, Run, After, AddsAt;
    ReceivedIff(first, firstConfig, actions, g, op.what.parcel.configNum, op.what.parcel.shards);
  }

  // ---------------------------------------------------------------- executed once

  ghost predicate ExecutesAt(first: Sys, actions: seq<Action>, i: nat, op: Op)
    requires Run(first, actions)
  {
    && i < |actions| && actions[i].Apply? && actions[i].op == op && op.what.Client?
    && (RunPrefix(first, actions, i);
        Executed(Before(first, actions, i), actions[i]) != [])
  }

  /** What the execution at i told the client. */
  ghost function ToldAt(first: Sys, actions: seq<Action>, i: nat): string
    requires Run(first, actions) && i < |actions| && actions[i].Apply?
  {
    RunPrefix(first, actions, i);
    ApplyOp(Before(first, actions, i).groups[actions[i].g], actions[i].op).1.value
  }

  /**
   What the servers rely on: the client numbers its commands from 1, a number names one command,
   and no request of it is applied, by any group, once a later command of it has been executed.
   */
  ghost predicate InTurn(first: Sys, actions: seq<Action>, c: int)
    requires Run(first, actions)
  {
    forall j: nat :: j < |actions| && actions[j].Apply? && actions[j].op.clientId == c ==> TurnOf(first, actions, j, actions[j].op)
  }

  ghost predicate TurnOf(first: Sys, actions: seq<Action>, j: nat, op: Op)
    requires Run(first, actions)
  {
    && op.what.Client? && op.opId > 0
    && forall i: nat, earlier :: i < j && ExecutesAt(first, actions, i, earlier) && earlier.clientId == op.clientId ==>
         earlier.opId < op.opId || earlier == op
  }

  /** Nothing later than the operation is remembered, and this operation only with its answer. */
  predicate UpTo(lastOps: map<int, LastOp>, op: Op, told: string) {
    op.clientId in lastOps ==> lastOps[op.clientId].opId < op.opId || lastOps[op.clientId] == LastOp(op.opId, told)
  }

  predicate Remembers(lastOps: map<int, LastOp>, op: Op, told: string) {
    op.clientId in lastOps && lastOps[op.clientId] == LastOp(op.opId, told)
  }

  /**
   The client's last executed command is remembered, with its answer, by the group that holds the
   key's shard or held it last, and by every request that can still bring the shard to a group.
   */
  ghost predicate HomeRemembers(sys: Sys, op: Op, told: string) {
    && op.what.Client?
    && var s := ShardOf(op.what.command.key);
    && Housed(sys, s) && Remembers(sys.groups[sys.home[s]].lastOps, op, told)
    && (forall r :: r in sys.net && s in r.parcel.shards && Live(sys, OfferOf(r).handoff) ==> Remembers(r.parcel.lastOps, op, told))
  }

  ghost predicate AllUpTo(sys: Sys, op: Op, told: string) {
    && (forall g :: g in sys.groups ==> UpTo(sys.groups[g].lastOps, op, told))
    && (forall r :: r in sys.net ==> UpTo(r.parcel.lastOps, op, told))
  }

  ghost predicate AllBelow(sys: Sys, c: int, id: nat) {
    && (forall g :: g in sys.groups && c in sys.groups[g].lastOps ==> sys.groups[g].lastOps[c].opId < id)
    && (forall r :: r in sys.net && c in r.parcel.lastOps ==> r.parcel.lastOps[c].opId < id)
  }

  /** A merge takes nothing later than both sides know, and the latest wins. */
  lemma MergeUpTo(mine: map<int, LastOp>, theirs: map<int, LastOp>, op: Op, told: string)
    requires UpTo(mine, op, told) && UpTo(theirs, op, told) && op.opId > 0
    ensures UpTo(MergeLastOps(mine, theirs), op, told)
    ensures Remembers(mine, op, told) || Remembers(theirs, op, told) ==> Remembers(MergeLastOps(mine, theirs), op, told)
  {
  }

  /** Applying the operation takes shards over. */
  predicate Takes(group: Group, o: Op) {
    o.what.AddShards? && !IsDuplicate(group, o) && !NotNew(group, o.what.parcel.configNum, o.what.parcel.shards)
  }

  /** What applying an operation that does not execute a command of the client does to the memory of it. */
  lemma OtherOps(group: Group, o: Op, op: Op, told: string)
    requires UpTo(group.lastOps, op, told) && op.opId > 0
    requires o.clientId == op.clientId ==>
      IsDuplicate(group, o) || (o.what.Client? && ShardOf(o.what.command.key) !in group.validShards)
    requires o.what.AddShards? ==> UpTo(o.what.parcel.lastOps, op, told)
    ensures var group' := ApplyOp(group, o).0;
      && UpTo(group'.lastOps, op, told)
      && (Remembers(group.lastOps, op, told) ==> Remembers(group'.lastOps, op, told))
      && (Takes(group, o) && Remembers(o.what.parcel.lastOps, op, told) ==> Remembers(group'.lastOps, op, told))
  {
    if o.what.AddShards? {
      MergeUpTo(group.lastOps, o.what.parcel.lastOps, op, told);
    }
  }

  lemma Gains(group: Group, o: Op)
    ensures var group' := ApplyOp(group, o).0;
      && (forall s :: s in group'.validShards ==> s in group.validShards || (Takes(group, o) && s in o.what.parcel.shards))
      && (forall cfg, shards :: NotNew(group, cfg, shards) ==> NotNew(group', cfg, shards))
  {
  }

  lemma ApplyRemembered(sys: Sys, g: int, o: Op, op: Op, told: string)
    requires Inv(sys) && Enabled(sys, Apply(g, o)) && op.opId > 0
    requires HomeRemembers(sys, op, told) && AllUpTo(sys, op, told)
    requires o.clientId == op.clientId ==> o.what.Client? && Executed(sys, Apply(g, o)) == []
    ensures var sys' := Step(sys, Apply(g, o)); HomeRemembers(sys', op, told) && AllUpTo(sys', op, told)
  {
    hide StaleKeysCovered, OffersFrozen, OffersUnique, ParcelsCurrent, Remembers, UpTo, ApplyOp, NotNew;
    var (sys', s) := (Step(sys, Apply(g, o)), ShardOf(op.what.command.key));
    OtherOps(sys.groups[g], o, op, told);
    Gains(sys.groups[g], o);
    assert sys'.groups == sys.groups[g := ApplyOp(sys.groups[g], o).0] && sys'.net == sys.net;
    if s in sys'.groups[g].validShards {
      if s in sys.groups[g].validShards {
        assert Serves(sys, g, s);
      } else {
        var f :| Request(f, g, o.what.parcel) in sys.net;
        assert Live(sys, OfferOf(Request(f, g, o.what.parcel)).handoff);
      }
    }
    forall r | r in sys'.net && s in r.parcel.shards && Live(sys', OfferOf(r).handoff) ensures Remembers(r.parcel.lastOps, op, told) {
      assert Live(sys, OfferOf(r).handoff);
    }
  }

  lemma SendRemembered(sys: Sys, g: int, h: Handoff, op: Op, told: string)
    requires Inv(sys) && Enabled(sys, Send(g, h))
    requires HomeRemembers(sys, op, told) && AllUpTo(sys, op, told)
    ensures var sys' := Step(sys, Send(g, h)); HomeRemembers(sys', op, told) && AllUpTo(sys', op, told)
  {
    hide StaleKeysCovered, OffersUnique, ParcelsCurrent, Remembers, UpTo, NotNew;
    var (sys', s) := (Step(sys, Send(g, h)), ShardOf(op.what.command.key));
    assert Offered(sys, Offer(g, h));
    forall r | r in sys'.net && s in r.parcel.shards && Live(sys', OfferOf(r).handoff) ensures Remembers(r.parcel.lastOps, op, told) {
      assert Live(sys, OfferOf(r).handoff);
      if r !in sys.net {
        assert OfferOf(r).handoff == h;
        assert Frozen(sys, Offer(g, h));
        assert Parked(sys, g, s);
      }
    }
  }

  /** A step that executes no command of the client keeps what is remembered of its last. */
  lemma StillRemembered(sys: Sys, a: Action, op: Op, told: string)
    requires Inv(sys) && Enabled(sys, a) && op.opId > 0
    requires HomeRemembers(sys, op, told) && AllUpTo(sys, op, told)
    requires a.Apply? && a.op.clientId == op.clientId ==> a.op.what.Client? && Executed(sys, a) == []
    ensures HomeRemembers(Step(sys, a), op, told) && AllUpTo(Step(sys, a), op, told)
  {
    hide StaleKeysCovered, OffersFrozen, OffersUnique, ParcelsCurrent, Remembers, UpTo, ApplyOp, NotNew;
    match a {
      case Apply(g, o) => ApplyRemembered(sys, g, o, op, told);
      case Send(g, h) => SendRemembered(sys, g, h, op, told);
      case Forget(g, h) =>
        var (sys', s) := (Step(sys, a), ShardOf(op.what.command.key));
        assert s in sys.groups[g].validShards ==> Serves(sys, g, s);
        assert forall x :: Live(sys', x) <==> Live(sys, x) by { SameLive(sys, g, h); }
      case Lose(r) =>
        var sys' := Step(sys, a);
        assert forall x :: Live(sys', x) <==> Live(sys, x);
    }
  }

  lemma SameLive(sys: Sys, g: int, h: Handoff)
    requires Enabled(sys, Forget(g, h))
    ensures forall x :: Live(Step(sys, Forget(g, h)), x) <==> Live(sys, x)
  {
  }

  /** A command that the client has got beyond all earlier ones is remembered where it is executed. */
  lemma NewlyRemembered(sys: Sys, g: int, op: Op)
    requires Inv(sys) && Enabled(sys, Apply(g, op)) && Executed(sys, Apply(g, op)) != [] && AllBelow(sys, op.clientId, op.opId)
    ensures var (sys', told) := (Step(sys, Apply(g, op)), ApplyOp(sys.groups[g], op).1.value);
      HomeRemembers(sys', op, told) && AllUpTo(sys', op, told)
  {
    hide StaleKeysCovered, OffersUnique, ParcelsCurrent, NotNew, Execute;
    var (sys', s) := (Step(sys, Apply(g, op)), ShardOf(op.what.command.key));
    assert Serves(sys, g, s);
    SameReceived(sys, g, op);
    forall r | r in sys'.net && s in r.parcel.shards ensures !Live(sys', OfferOf(r).handoff) {
      assert Offered(sys, OfferOf(r));
      assert !Parked(sys, r.from, s);
    }
  }

  // ---------------------------------------------------------------- over a run

  /** The client's last executed command is the one at i; with i == |actions| it has none. */
  ghost predicate LastExecuted(first: Sys, actions: seq<Action>, c: int, i: nat, op: Op)
    requires Run(first, actions)
  {
    && ExecutesAt(first, actions, i, op) && op.clientId == c && op.opId > 0
    && forall j: nat, o :: ExecutesAt(first, actions, j, o) && o.clientId == c ==> o.opId < op.opId || (o == op && j == i)
  }

  ghost predicate NoneExecuted(first: Sys, actions: seq<Action>, c: int)
    requires Run(first, actions)
  {
    forall j: nat, o :: ExecutesAt(first, actions, j, o) ==> o.clientId != c
  }

  lemma ExecutesEarlier(first: Sys, actions: seq<Action>, i: nat)
    requires Run(first, actions) && actions != [] && i < |actions| - 1
    ensures Run(first, Front(actions))
    ensures forall op :: ExecutesAt(first, actions, i, op) <==> ExecutesAt(first, Front(actions), i, op)
    ensures actions[i].Apply? ==> ToldAt(first, actions, i) == ToldAt(first, Front(actions), i)
  {
    hide Executed;
    assert Front(actions)[..i] == actions[..i];
  }

  lemma FrontInTurn(first: Sys, actions: seq<Action>, c: int)
    requires Run(first, actions) && actions != [] && InTurn(first, actions, c)
    ensures Run(first, Front(actions)) && InTurn(first, Front(actions), c)
  {
    hide ExecutesAt;
    var front := Front(actions);
    forall j: nat | j < |front| && front[j].Apply? && front[j].op.clientId == c ensures TurnOf(first, front, j, front[j].op) {
      assert TurnOf(first, actions, j, actions[j].op);
      forall i: nat, op | i < j ensures ExecutesAt(first, actions, i, op) <==> ExecutesAt(first, front, i, op) {
        ExecutesEarlier(first, actions, i);
      }
    }
  }

  /** The memory that a run leaves of a client that keeps its turn. */
  ghost predicate Memory(first: Sys, actions: seq<Action>, c: int, i: nat, op: Op)
    requires Run(first, actions)
  {
    var sys := After(first, actions);
    if i == |actions| then NoneExecuted(first, actions, c) && AllBelow(sys, c, 0)
    else
      && LastExecuted(first, actions, c, i, op)
      && HomeRemembers(sys, op, ToldAt(first, actions, i)) && AllUpTo(sys, op, ToldAt(first, actions, i))
  }

  /** At the home of its shard the client's last command is recognised. */
  lemma HomeRecognises(sys: Sys, g: int, op: Op, told: string)
    requires Inv(sys) && HomeRemembers(sys, op, told) && g in sys.groups
    ensures ShardOf(op.what.command.key) in sys.groups[g].validShards ==>
      IsDuplicate(sys.groups[g], op) && ApplyOp(sys.groups[g], op).1 == Result(OK, told)
  {
    hide StaleKeysCovered, OffersFrozen, OffersUnique, ParcelsCurrent;
    var s := ShardOf(op.what.command.key);
    assert s in sys.groups[g].validShards ==> Serves(sys, g, s);
  }

  lemma HomeDoesNotRun(sys: Sys, g: int, op: Op, told: string)
    requires Inv(sys) && HomeRemembers(sys, op, told) && Enabled(sys, Apply(g, op))
    ensures Executed(sys, Apply(g, op)) == []
  {
    hide Inv, HomeRemembers;
    HomeRecognises(sys, g, op, told);
  }

  lemma UnheardKept(sys: Sys, a: Action, c: int)
    requires Enabled(sys, a) && AllBelow(sys, c, 0)
    requires a.Apply? && a.op.clientId == c ==> a.op.what.Client? && Executed(sys, a) == []
    ensures AllBelow(Step(sys, a), c, 0)
  {
    if a.Apply? && a.op.what.AddShards? {
      var f :| Request(f, a.g, a.op.what.parcel) in sys.net;
      assert c !in a.op.what.parcel.lastOps;
    }
  }

  /** The executions of a run are those of all but its last step, and perhaps the last. */
  lemma ExecutesSplit(first: Sys, actions: seq<Action>)
    requires Run(first, actions) && actions != []
    ensures var (front, n) := (Front(actions), |actions| - 1);
      && Run(first, front) && Before(first, actions, n) == After(first, front) && Enabled(After(first, front), Last(actions))
      && (forall j: nat, o :: ExecutesAt(first, actions, j, o) ==> j <= n)
      && (forall j: nat, o :: j < n ==> (ExecutesAt(first, actions, j, o) <==> ExecutesAt(first, front, j, o)))
      && (forall o :: ExecutesAt(first, actions, n, o) <==>
            Last(actions).Apply? && Last(actions).op == o && o.what.Client? && Executed(After(first, front), Last(actions)) != [])
  {
    hide Executed, Enabled, Step;
    var (front, n) := (Front(actions), |actions| - 1);
    assert actions[..n] == front;
    forall j: nat, o | j < n ensures ExecutesAt(first, actions, j, o) <==> ExecutesAt(first, front, j, o) {
      ExecutesEarlier(first, actions, j);
    }
  }

  /** Every command of the client so far has a smaller number than one that now gets executed. */
  lemma BeyondAll(first: Sys, firstConfig: seq<int>, actions: seq<Action>, i: nat, op: Op)
    requires Init(first, firstConfig) && Run(first, actions) && actions != []
    requires var (a, front, n) := (Last(actions), Front(actions), |actions| - 1);
      && a.Apply? && InTurn(first, actions, a.op.clientId) && ExecutesAt(first, actions, n, a.op)
      && Run(first, front) && Memory(first, front, a.op.clientId, i, op)
    ensures var (a, front) := (Last(actions), Front(actions));
      && AllBelow(After(first, front), a.op.clientId, a.op.opId) && a.op.opId > 0
      && forall j: nat, o :: ExecutesAt(first, front, j, o) && o.clientId == a.op.clientId ==> o.opId < a.op.opId
  {
    hide Enabled, Step, ExecutesAt, ToldAt, IsDuplicate, ApplyOp, HomeRemembers, Inv, Init, Run, After, Executed;
    var (a, front, n) := (Last(actions), Front(actions), |actions| - 1);
    ExecutesSplit(first, actions);
    assert TurnOf(first, actions, n, a.op);
    if i != |front| {
      ExecutesInRange(first, front, i, op);
      assert ExecutesAt(first, actions, i, op);
      if op == a.op {
        GroupsRefineOneMap(first, firstConfig, front);
        HomeDoesNotRun(After(first, front), a.g, op, ToldAt(first, front, i));
      }
    }
  }

  lemma ExecutesInRange(first: Sys, actions: seq<Action>, i: nat, op: Op)
    requires Run(first, actions) && ExecutesAt(first, actions, i, op)
    ensures i < |actions| && actions[i].Apply? && actions[i].op == op && op.what.Client?
  {
  }

  lemma {:induction false} RunRemembers(first: Sys, firstConfig: seq<int>, actions: seq<Action>, c: int) returns (i: nat, op: Op)
    requires Init(first, firstConfig) && Run(first, actions) && InTurn(first, actions, c)
    ensures Memory(first, actions, c, i, op)
    decreases |actions|
  {
    if actions == [] {
      i, op := 0, Op(c, 0, Client(Get("")));
    } else {
      hide Enabled, Step, ExecutesAt, Inv, Init, Executed, Memory, Run, After;
      var (front, a, n) := (Front(actions), Last(actions), |actions| - 1);
      ExecutesSplit(first, actions);
      FrontInTurn(first, actions, c);
      i, op := RunRemembers(first, firstConfig, front, c);
      GroupsRefineOneMap(first, firstConfig, front);
      if a.Apply? && a.op.clientId == c && ExecutesAt(first, actions, n, a.op) {
        MemoryNew(first, firstConfig, actions, i, op);
        i, op := n, a.op;
      } else {
        assert a.Apply? && a.op.clientId == c ==> TurnOf(first, actions, n, a.op);
        MemoryKept(first, actions, c, i, op);
        i := if i == n then |actions| else i;
      }
    }
  }

  lemma MemoryNew(first: Sys, firstConfig: seq<int>, actions: seq<Action>, i: nat, op: Op)
    requires Init(first, firstConfig) && Run(first, actions) && actions != []
    requires var (a, front, n) := (Last(actions), Front(actions), |actions| - 1);
      && a.Apply? && InTurn(first, actions, a.op.clientId) && ExecutesAt(first, actions, n, a.op)
      && Run(first, front) && Memory(first, front, a.op.clientId, i, op)
    ensures Memory(first, actions, Last(actions).op.clientId, |actions| - 1, Last(actions).op)
  {
    hide Enabled, Step, ExecutesAt, ApplyOp, HomeRemembers, AllUpTo, AllBelow, Inv, Init, Executed, InTurn;
    var (a, front, n) := (Last(actions), Front(actions), |actions| - 1);
    ExecutesSplit(first, actions);
    GroupsRefineOneMap(first, firstConfig, front);
    BeyondAll(first, firstConfig, actions, i, op);
    NewlyRemembered(After(first, front), a.g, a.op);
    hide Memory;
    MemoryIntro(first, actions, n, a.op);
  }

  lemma MemoryIntro(first: Sys, actions: seq<Action>, i: nat, op: Op)
    requires Run(first, actions) && LastExecuted(first, actions, op.clientId, i, op)
    requires var (sys, told) := (After(first, actions), ToldAt(first, actions, i)); HomeRemembers(sys, op, told) && AllUpTo(sys, op, told)
    ensures Memory(first, actions, op.clientId, i, op)
  {
    hide HomeRemembers, AllUpTo, AllBelow;
    ExecutesInRange(first, actions, i, op);
  }

  lemma MemoryKept(first: Sys, actions: seq<Action>, c: int, i: nat, op: Op)
    requires Run(first, actions) && actions != []
    requires var (a, front, n) := (Last(actions), Front(actions), |actions| - 1);
      && Run(first, front) && Inv(After(first, front)) && Memory(first, front, c, i, op)
      && (a.Apply? && a.op.clientId == c ==> a.op.what.Client? && !ExecutesAt(first, actions, n, a.op))
    ensures Memory(first, actions, c, if i == |actions| - 1 then |actions| else i, op)
  {
    hide Enabled, Step, ExecutesAt, ApplyOp, HomeRemembers, AllUpTo, AllBelow, Inv, Executed;
    var (front, a, n) := (Front(actions), Last(actions), |actions| - 1);
    ExecutesSplit(first, actions);
    if i == n {
      UnheardKept(After(first, front), a, c);
    } else {
      ExecutesInRange(first, front, i, op);
      ExecutesEarlier(first, actions, i);
      StillRemembered(After(first, front), a, op, ToldAt(first, front, i));
      hide Memory;
      MemoryIntro(first, actions, i, op);
    }
  }

  /**
   Exactly once across moves: a client that keeps its turn has no command executed twice, however
   often its requests are repeated and to whatever groups its shards have moved.
   */
  lemma OnceAcrossMoves(first: Sys, firstConfig: seq<int>, actions: seq<Action>, i: nat, j: nat, op: Op)
    requires Init(first, firstConfig) && Run(first, actions) && InTurn(first, actions, op.clientId)
    requires ExecutesAt(first, actions, i, op) && ExecutesAt(first, actions, j, op)
    ensures i == j
  {
    hide *;
    if i < j {
      NotTwice(first, firstConfig, actions, i, j, op);
    } else if j < i {
      NotTwice(first, firstConfig, actions, j, i, op);
    }
  }

  lemma {:induction false} NotTwice(first: Sys, firstConfig: seq<int>, actions: seq<Action>, i: nat, j: nat, op: Op)
    requires Init(first, firstConfig) && Run(first, actions) && InTurn(first, actions, op.clientId)
    requires i < j && ExecutesAt(first, actions, i, op) && ExecutesAt(first, actions, j, op)
    ensures false
    decreases |actions|
  {
    hide Enabled, Step, ExecutesAt, IsDuplicate, ApplyOp, HomeRemembers, AllUpTo, AllBelow, Inv, Init, Executed, Memory;
    ExecutesInRange(first, actions, j, op);
    ExecutesSplit(first, actions);
    FrontInTurn(first, actions, op.clientId);
    if j == |actions| - 1 {
      var k, last := RunRemembers(first, firstConfig, Front(actions), op.clientId);
      BeyondAll(first, firstConfig, actions, k, last);
    } else {
      NotTwice(first, firstConfig, Front(actions), i, j, op);
    }
  }

  /** And a repeat that reaches the group serving the shard is told what the execution told. */
  lemma RepeatIsTold(first: Sys, firstConfig: seq<int>, actions: seq<Action>, i: nat, h: int, op: Op)
    requires Init(first, firstConfig) && Run(first, actions) && ExecutesAt(first, actions, i, op)
    requires Run(first, actions + [Apply(h, op)]) && InTurn(first, actions + [Apply(h, op)], op.clientId)
    requires Serves(After(first, actions), h, ShardOf(op.what.command.key))
    ensures Executed(After(first, actions), Apply(h, op)) == []
    ensures ApplyOp(After(first, actions).groups[h], op).1 == Result(OK, ToldAt(first, actions, i))
  {
    hide Enabled, Step, ExecutesAt, IsDuplicate, ApplyOp, Inv, Init, Run, Executed, HomeRemembers, ToldAt;
    var longer := actions + [Apply(h, op)];
    var n := |actions|;
    assert Front(longer) == actions && Last(longer) == Apply(h, op);
    ExecutesSplit(first, longer);
    FrontInTurn(first, longer, op.clientId);
    var k, last := RunRemembers(first, firstConfig, actions, op.clientId);
    ExecutesInRange(first, actions, i, op);
    GroupsRefineOneMap(first, firstConfig, actions);
    assert TurnOf(first, longer, n, longer[n].op);
    assert ExecutesAt(first, longer, k, last) by { ExecutesInRange(first, actions, k, last); }
    assert last == op && k == i;
    HomeRecognises(After(first, actions), h, op, ToldAt(first, actions, i));
    DuplicateExecutesNothing(After(first, actions), h, op);
  }

  lemma DuplicateExecutesNothing(sys: Sys, h: int, op: Op)
    requires Enabled(sys, Apply(h, op)) && IsDuplicate(sys.groups[h], op)
    ensures Executed(sys, Apply(h, op)) == []
  {
  }

  // ---------------------------------------------------------------- executed twice

  /** A run from the start in which one append of a client, its number 0, is executed by two groups. */
  lemma OneAppendTwice(first: Sys, firstConfig: seq<int>, g: int, h: int, key: string, value: string, cfg: nat)
    requires Init(first, firstConfig) && g in first.groups && h in first.groups && g != h && firstConfig[ShardOf(key)] == g
    ensures var op := Op(3, 0, Client(Append(key, value)));
      exists actions ::
        && Run(first, actions + [Apply(h, op)]) && Apply(g, op) in actions
        && History(first, actions + [Apply(h, op)]) == [op.what.command, op.what.command]
  {
    hide Step, Enabled, NotNew, ApplyOp, AddShardsTo, Run, After, History, Executed, Init, Inv, LastIs, IsDuplicate;
    var op, there := Op(3, 0, Client(Append(key, value))), Handoff(h, cfg, [ShardOf(key)]);
    StartFacts(first, firstConfig, g, ShardOf(key), cfg);
    StartFacts(first, firstConfig, h, ShardOf(key), cfg);
    NeverHeard(first.groups[g], 3, 0);
    NeverHeard(first.groups[h], 2, 1);
    NotDuplicate(first.groups[g], op);
    ClientStep(first, g, op);
    RunMore(first, [], Apply(g, op));
    var sys, run := Step(first, Apply(g, op)), [] + [Apply(g, op)];
    StillFirst(first.groups[g], op, there);
    GiveUp(sys, g, 1, 1, there);
    var remove := Apply(g, Op(1, 1, RemoveShards(there)));
    RunMore(first, run, remove);
    var sys1, run1 := Step(sys, remove), run + [remove];
    var run2, sys2 := MoveAlong(first, run1, sys1, g, 2, 1, there);
    RepeatUnseen(first.groups[h], sys1.groups[g], there, op);
    assert [] + [op.what.command] + [] + [op.what.command] == [op.what.command, op.what.command];
    ClientStep(sys2, h, op);
    RunMore(first, run2, Apply(h, op));
    assert run2[0] == Apply(g, op);
  }

  lemma ClientStep(sys: Sys, g: int, op: Op)
    requires g in sys.groups && op.what.Client? && !IsDuplicate(sys.groups[g], op)
    requires ShardOf(op.what.command.key) in sys.groups[g].validShards
    ensures Enabled(sys, Apply(g, op)) && Executed(sys, Apply(g, op)) == [op.what.command]
    ensures var sys' := Step(sys, Apply(g, op));
      && sys'.groups.Keys == sys.groups.Keys && sys'.groups[g] == ApplyOp(sys.groups[g], op).0
      && forall x :: x in sys.groups && x != g ==> sys'.groups[x] == sys.groups[x]
  {
  }

  lemma StillFirst(group: Group, op: Op, there: Handoff)
    requires op.what.Client? && op.what.command.Append? && op.opId == 0 && op.clientId == 3 && group.lastOps == map[]
    requires ShardOf(op.what.command.key) in group.validShards
    ensures var group1 := ApplyOp(group, op).0;
      var group2 := ApplyOp(group1, Op(1, 1, RemoveShards(there))).0;
      && !LastIs(group1, 1, 1) && group1.validShards == group.validShards
      && op.clientId in group2.lastOps && group2.lastOps[op.clientId].opId == 0
  {
  }

  lemma RepeatUnseen(before: Group, from: Group, there: Handoff, op: Op)
    requires op.opId == 0 && op.clientId != 2 && op.clientId !in before.lastOps
    requires op.clientId in from.lastOps ==> from.lastOps[op.clientId].opId == 0
    ensures !IsDuplicate(ApplyOp(before, Op(2, 1, AddShards(ParcelOf(from, there)))).0, op)
  {
  }

  /**
   Another such run, in which every group applies the client's commands in the order of their
   numbers: the append is executed, then a get with the next number, and the shard moves with only
   the get remembered.
   */
  lemma OvertakenAppendTwice(first: Sys, firstConfig: seq<int>, g: int, h: int, key: string, value: string, id: nat, cfg: nat)
    requires Init(first, firstConfig) && g in first.groups && h in first.groups && g != h && firstConfig[ShardOf(key)] == g
    ensures var (op, next) := (Op(3, id, Client(Append(key, value))), Op(3, id + 1, Client(Get(key))));
      exists actions ::
        && Run(first, actions + [Apply(h, op)]) && [Apply(g, op), Apply(g, next)] <= actions
        && History(first, actions + [Apply(h, op)]) == [op.what.command, next.what.command, op.what.command]
  {
    hide Step, Enabled, NotNew, ApplyOp, AddShardsTo, Run, After, History, Executed, Init, Inv, LastIs, IsDuplicate;
    var (op, next) := (Op(3, id, Client(Append(key, value))), Op(3, id + 1, Client(Get(key))));
    var there := Handoff(h, cfg, [ShardOf(key)]);
    StartFacts(first, firstConfig, g, ShardOf(key), cfg);
    StartFacts(first, firstConfig, h, ShardOf(key), cfg);
    NeverHeard(first.groups[g], 3, id);
    NeverHeard(first.groups[h], 2, 1);
    NotDuplicate(first.groups[g], op);
    ClientStep(first, g, op);
    RunMore(first, [], Apply(g, op));
    var sys, run := Step(first, Apply(g, op)), [] + [Apply(g, op)];
    Overtakes(first.groups[g], op, next, there);
    ClientStep(sys, g, next);
    RunMore(first, run, Apply(g, next));
    sys, run := Step(sys, Apply(g, next)), run + [Apply(g, next)];
    GiveUp(sys, g, 1, 1, there);
    var remove := Apply(g, Op(1, 1, RemoveShards(there)));
    RunMore(first, run, remove);
    var sys1, run1 := Step(sys, remove), run + [remove];
    var run2, sys2 := MoveAlong(first, run1, sys1, g, 2, 1, there);
    RepeatOvertaken(first.groups[h], sys1.groups[g], there, op);
    assert [] + [op.what.command] + [next.what.command] + [] + [op.what.command] == [op.what.command, next.what.command, op.what.command];
    ClientStep(sys2, h, op);
    RunMore(first, run2, Apply(h, op));
    assert [Apply(g, op), Apply(g, next)] <= run1;
  }

  lemma Overtakes(group: Group, op: Op, next: Op, there: Handoff)
    requires op.what.Client? && next.what.Client? && op.clientId == next.clientId == 3 && op.opId != next.opId && group.lastOps == map[]
    requires op.what.command.key == next.what.command.key && ShardOf(op.what.command.key) in group.validShards
    ensures var group1 := ApplyOp(group, op).0;
      var group2 := ApplyOp(group1, next).0;
      var group3 := ApplyOp(group2, Op(1, 1, RemoveShards(there))).0;
      && !IsDuplicate(group1, next) && !LastIs(group2, 1, 1)
      && group1.validShards == group2.validShards == group.validShards
      && 3 in group3.lastOps && group3.lastOps[3].opId == next.opId
  {
  }

  lemma RepeatOvertaken(before: Group, from: Group, there: Handoff, op: Op)
    requires op.clientId == 3 && before.lastOps == map[] && 3 in from.lastOps && from.lastOps[3].opId == op.opId + 1
    ensures !IsDuplicate(ApplyOp(before, Op(2, 1, AddShards(ParcelOf(from, there)))).0, op)
  {
  }
}
