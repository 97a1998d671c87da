/**
 One replica group of labs/src/shardkv/server.go.  The group's Raft log hands it one
 operation at a time, so a group is a value and applying an operation is a function; the
 class at the end is the server's own code and is proved equal to it.
 */
module ShardGroup {
  import opened IdLists
  import KM = KvModel
  import opened MapIteration
  import opened Shards

  /** `key2shard`: the first byte of the key modulo the number of shards. */
  function ShardOf(key: string): (s: nat)
    ensures s < NShards
  {
    if |key| > 0 then (key[0] as int) % NShards else 0
  }

  /** The shard is the one number below NShards that is congruent to the first byte; every shard has keys. */
  lemma ShardIff(key: string, s: nat)
    requires s < NShards
    ensures key != "" ==> (ShardOf(key) == s <==> (key[0] as int - s) % NShards == 0)
    ensures key == "" ==> ShardOf(key) == 0
    ensures exists k: string :: k != "" && ShardOf(k) == s
  {
    assert ShardOf([s as char]) == s;
  }

  datatype LastOp = LastOp(opId: nat, getResult: string)

  datatype Handoff = Handoff(gid: int, configNum: nat, shards: seq<nat>)

  /** What a hand-off request carries: the sender's whole store at the time of sending. */
  datatype Parcel = Parcel(configNum: nat, shards: seq<nat>, kvMap: map<string, string>, lastOps: map<int, LastOp>)

  datatype Command =
    | Put(key: string, value: string)
    | Append(key: string, value: string)
    | Get(key: string)

  datatype Operation =
    | Client(command: Command)
    | AddShards(parcel: Parcel)
    | RemoveShards(handoff: Handoff)

  /** An operation as it stands in the log, with the id of its issuer. */
  datatype Op = Op(clientId: int, opId: nat, what: Operation)

  datatype Err = OK | ErrNoKey | ErrWrongGroup

  datatype Result = Result(err: Err, value: string)

  datatype Group = Group(
    kvMap: map<string, string>,
    validShards: set<nat>,
    lastOps: map<int, LastOp>,
    receivedHandoffs: map<nat, seq<seq<nat>>>,
    pendingHandoffs: set<Handoff>)

  function Received(g: Group, configNum: nat): seq<seq<nat>> {
    if configNum in g.receivedHandoffs then g.receivedHandoffs[configNum] else []
  }

  /** `notNewShardsL`. */
  predicate NotNew(g: Group, configNum: nat, shards: seq<nat>) {
    shards in Received(g, configNum)
  }

  predicate IsDuplicate(g: Group, op: Op) {
    op.clientId in g.lastOps && g.lastOps[op.clientId].opId == op.opId
  }

  // ---------------------------------------------------------------- shard movement

  function Overlay(kv: map<string, string>, incoming: map<string, string>, shards: seq<nat>): map<string, string> {
    kv + map k | k in incoming && ShardOf(k) in shards :: incoming[k]
  }

  /** A client's entry is taken over only if its op id exceeds the receiver's, which counts as 0 when absent. */
  predicate Newer(mine: map<int, LastOp>, theirs: map<int, LastOp>, c: int)
    requires c in theirs
  {
    theirs[c].opId > if c in mine then mine[c].opId else 0
  }

  function MergeLastOps(mine: map<int, LastOp>, theirs: map<int, LastOp>): map<int, LastOp> {
    mine + map c | c in theirs && Newer(mine, theirs, c) :: theirs[c]
  }

  /** `applyAddShardsL`. */
  function AddShardsTo(g: Group, p: Parcel): Group {
    if NotNew(g, p.configNum, p.shards) then g
    else g.(receivedHandoffs := g.receivedHandoffs[p.configNum := Received(g, p.configNum) + [p.shards]],
            validShards := g.validShards + Elements(p.shards),
            kvMap := Overlay(g.kvMap, p.kvMap, p.shards),
            lastOps := MergeLastOps(g.lastOps, p.lastOps))
  }

  /** `applyRemoveShardsL`: all or nothing. */
  function RemoveShardsFrom(g: Group, h: Handoff): Group {
    if exists s :: s in h.shards && s !in g.validShards then g
    else g.(validShards := g.validShards - Elements(h.shards),
            pendingHandoffs := g.pendingHandoffs + {h})
  }

  // ---------------------------------------------------------------- applyOpL

  function Execute(kv: map<string, string>, c: Command): (map<string, string>, Result) {
    match c
    case Put(k, v) => (kv[k := v], Result(OK, v))
    case Append(k, v) => (kv[k := KM.Value(kv, k) + v], Result(OK, KM.Value(kv, k) + v))
    case Get(k) => (kv, Result(if KM.Value(kv, k) == "" then ErrNoKey else OK, KM.Value(kv, k)))
  }

  function InputOf(c: Command): KM.KvInput {
    match c
    case Get(k) => KM.KvInput(0, k, "")
    case Put(k, v) => KM.KvInput(1, k, v)
    case Append(k, v) => KM.KvInput(2, k, v)
  }

  /** A command does and answers what the sequential model of the whole store allows. */
  lemma ExecuteIsModel(kv: map<string, string>, c: Command)
    ensures var (after, r) := Execute(kv, c);
      && KM.MapStep(kv, InputOf(c), KM.KvOutput(r.value)) == (true, after)
      && r.value == KM.Value(after, c.key)
      && (r.err == ErrNoKey <==> c.Get? && KM.Value(kv, c.key) == "")
      && forall k :: k != c.key ==> KM.Value(after, k) == KM.Value(kv, k)
  {
  }

  function ApplyOp(g: Group, op: Op): (Group, Result) {
    if IsDuplicate(g, op) then (g, Result(OK, g.lastOps[op.clientId].getResult))
    else match op.what
      case Client(c) =>
        if ShardOf(c.key) !in g.validShards then (g, Result(ErrWrongGroup, ""))
        else
          var (kv, r) := Execute(g.kvMap, c);
          (g.(kvMap := kv, lastOps := g.lastOps[op.clientId := LastOp(op.opId, r.value)]), r)
      case AddShards(p) =>
        var g1 := AddShardsTo(g, p);
        (g1.(lastOps := g1.lastOps[op.clientId := LastOp(op.opId, "")]), Result(OK, ""))
      case RemoveShards(h) =>
        var g1 := RemoveShardsFrom(g, h);
        (g1.(lastOps := g1.lastOps[op.clientId := LastOp(op.opId, "")]), Result(OK, ""))
  }

  // ---------------------------------------------------------------- duplicate recognition across moves

  /** The id of the client's last operation, which the merge takes for 0 when there is none. */
  function LastId(lastOps: map<int, LastOp>, c: int): nat {
    if c in lastOps then lastOps[c].opId else 0
  }

  /**
   Whether a group that remembers `mine` and takes over a parcel with `theirs` then takes the
   operation for a duplicate: the sender's last operation of the client counts if its id is
   greater than the receiver's, else the receiver's own.
   */
  predicate MergeRecognises(mine: map<int, LastOp>, theirs: map<int, LastOp>, op: Op) {
    if LastId(theirs, op.clientId) > LastId(mine, op.clientId) then LastId(theirs, op.clientId) == op.opId
    else op.clientId in mine && mine[op.clientId].opId == op.opId
  }

  lemma RecognisedAfterMove(h: Group, p: Parcel, op: Op)
    requires !NotNew(h, p.configNum, p.shards)
    ensures IsDuplicate(AddShardsTo(h, p), op) <==> MergeRecognises(h.lastOps, p.lastOps, op)
  {
  }

  /**
   A command applied at a group right after it has taken the key's shard over, whatever the sender
   had done by the time of sending: it leaves the store alone exactly when the merge recognises it
   and is executed otherwise.
   */
  lemma RepeatAfterMoveIff(h: Group, p: Parcel, op: Op)
    requires op.what.Client? && ShardOf(op.what.command.key) in p.shards && !NotNew(h, p.configNum, p.shards)
    ensures var h1 := AddShardsTo(h, p);
      && (IsDuplicate(h1, op) <==> MergeRecognises(h.lastOps, p.lastOps, op))
      && ApplyOp(h1, op).0.kvMap ==
         if MergeRecognises(h.lastOps, p.lastOps, op) then h1.kvMap else Execute(h1.kvMap, op.what.command).0
  {
    RecognisedAfterMove(h, p, op);
  }

  /**
   So an append, already in the value that the sender hands over, is in the receiver's value after
   the repeat once exactly under that condition, and a second time exactly otherwise.
   */
  lemma AppendOnceIff(h: Group, p: Parcel, op: Op)
    requires op.what.Client? && op.what.command.Append? && op.what.command.value != ""
    requires ShardOf(op.what.command.key) in p.shards && !NotNew(h, p.configNum, p.shards)
    requires op.what.command.key in p.kvMap
    ensures var (key, value) := (op.what.command.key, op.what.command.value);
      var h2 := ApplyOp(AddShardsTo(h, p), op).0;
      && (KM.Value(h2.kvMap, key) == p.kvMap[key] <==> MergeRecognises(h.lastOps, p.lastOps, op))
      && (KM.Value(h2.kvMap, key) == p.kvMap[key] + value <==> !MergeRecognises(h.lastOps, p.lastOps, op))
  {
    RepeatAfterMoveIff(h, p, op);
    var (h1, key) := (AddShardsTo(h, p), op.what.command.key);
    assert KM.Value(h1.kvMap, key) == p.kvMap[key];
    assert |p.kvMap[key] + op.what.command.value| > |p.kvMap[key]|;
  }

  /**
   The three ways to fail, for a client that the sender has heard of: a different operation of the
   client at the sender is taken over; the sender's is number 0 and the receiver, which has not
   heard of the client, does not take it; the receiver's own is no earlier and is a different one.
   */
  lemma RunsTwiceWhen(mine: map<int, LastOp>, theirs: map<int, LastOp>, op: Op)
    requires op.clientId in theirs
    ensures var c := op.clientId;
      !MergeRecognises(mine, theirs, op) <==>
      || (theirs[c].opId > LastId(mine, c) && theirs[c].opId != op.opId)
      || (c !in mine && theirs[c].opId == 0)
      || (c in mine && theirs[c].opId <= mine[c].opId && mine[c].opId != op.opId)
  {
  }

  // ---------------------------------------------------------------- one turn of the loops over a map

  lemma OverlayOne(kv: map<string, string>, incoming: map<string, string>, rest: map<string, string>, shards: seq<nat>, k: string)
    requires rest.Keys <= incoming.Keys && k in rest
    ensures var before := Overlay(kv, incoming - rest.Keys, shards);
      Overlay(kv, incoming - (rest - {k}).Keys, shards) ==
      if ShardOf(k) in shards then before[k := incoming[k]] else before
  {
    var before := Overlay(kv, incoming - rest.Keys, shards);
    var after := Overlay(kv, incoming - (rest - {k}).Keys, shards);
    var expected := if ShardOf(k) in shards then before[k := incoming[k]] else before;
    forall x ensures (x in after <==> x in expected) && (x in after ==> after[x] == expected[x]) {
      assert x in (incoming - (rest - {k}).Keys) <==> x in (incoming - rest.Keys) || x == k;
    }
    assert after == expected;
  }

  lemma MergeOne(mine: map<int, LastOp>, theirs: map<int, LastOp>, rest: map<int, LastOp>, c: int)
    requires rest.Keys <= theirs.Keys && c in rest
    ensures var before := MergeLastOps(mine, theirs - rest.Keys);
      MergeLastOps(mine, theirs - (rest - {c}).Keys) ==
      if Newer(before, theirs, c) then before[c := theirs[c]] else before
  {
    var before := MergeLastOps(mine, theirs - rest.Keys);
    var after := MergeLastOps(mine, theirs - (rest - {c}).Keys);
    var expected := if Newer(before, theirs, c) then before[c := theirs[c]] else before;
    forall x ensures (x in after <==> x in expected) && (x in after ==> after[x] == expected[x]) {
      assert x in (theirs - (rest - {c}).Keys) <==> x in (theirs - rest.Keys) || x == c;
    }
    assert after == expected;
  }

  // ---------------------------------------------------------------- the server

  class Server {
    var kvMap: map<string, string>
    var validShards: set<nat>
    var lastOps: map<int, LastOp>
    var receivedHandoffs: map<nat, seq<seq<nat>>>
    var pendingHandoffs: set<Handoff>
    const gid: int

    ghost function State(): Group
      reads this
    {
      Group(kvMap, validShards, lastOps, receivedHandoffs, pendingHandoffs)
    }

    /** `init` and `firstConfigL`: the shards that the first configuration gives this group. */
    constructor (gid: int, firstConfig: seq<int>)
      ensures this.gid == gid
      ensures State() == Group(map[], set s | 0 <= s < |firstConfig| && firstConfig[s] == gid, map[], map[], {})
    {
      this.gid := gid;
      kvMap, lastOps, receivedHandoffs, pendingHandoffs := map[], map[], map[], {};
      validShards := {};
      new;
      var s := 0;
      while s < |firstConfig|
        invariant 0 <= s <= |firstConfig|
        invariant validShards == set x | 0 <= x < s && firstConfig[x] == gid
        invariant kvMap == map[] && lastOps == map[] && receivedHandoffs == map[] && pendingHandoffs == {}
      {
        if firstConfig[s] == gid {
          validShards := validShards + {s};
        }
        s := s + 1;
      }
    }

    method NotNewShardsL(configNum: nat, newShards: seq<nat>) returns (r: bool)
      ensures r == NotNew(State(), configNum, newShards)
    {
      var list := if configNum in receivedHandoffs then receivedHandoffs[configNum] else [];
      var i := 0;
      while i < |list|
        invariant 0 <= i <= |list| && newShards !in list[..i]
      {
        if list[i] == newShards {
          return true;
        }
        i := i + 1;
      }
      assert list[..i] == list;
      return false;
    }

    /** `removed`: some shard of the list is not held. */
    method Removed(shards: seq<nat>) returns (r: bool)
      ensures r <==> exists s :: s in shards && s !in validShards
    {
      var i := 0;
      while i < |shards|
        invariant 0 <= i <= |shards|
        invariant forall k :: 0 <= k < i ==> shards[k] in validShards
      {
        if shards[i] !in validShards {
          return true;
        }
        i := i + 1;
      }
      return false;
    }

    method ApplyRemoveShardsL(h: Handoff)
      modifies this
      ensures State() == RemoveShardsFrom(old(State()), h)
    {
      var gone := Removed(h.shards);
      if gone {
        return;
      }
      var i := 0;
      while i < |h.shards|
        invariant 0 <= i <= |h.shards|
        invariant validShards == old(validShards) - Elements(h.shards[..i])
        invariant State() == old(State()).(validShards := validShards)
      {
        validShards := validShards - {h.shards[i]};
        i := i + 1;
      }
      assert h.shards[..i] == h.shards;
      pendingHandoffs := pendingHandoffs + {h};
    }

    /** The loop over the incoming store, in whatever order the map yields its keys. */
    method OverlayL(incoming: map<string, string>, shards: seq<nat>)
      modifies this`kvMap
      ensures kvMap == Overlay(old(kvMap), incoming, shards)
    {
      var rest := incoming;
      while rest != map[]
        invariant rest.Keys <= incoming.Keys
        invariant kvMap == Overlay(old(kvMap), incoming - rest.Keys, shards)
        decreases |rest|
      {
        var k := PickKey(rest);
        if ShardOf(k) in shards {
          kvMap := kvMap[k := incoming[k]];
        }
        OverlayOne(old(kvMap), incoming, rest, shards, k);
        rest := rest - {k};
      }
      assert incoming - rest.Keys == incoming;
    }

    method MergeLastOpsL(incoming: map<int, LastOp>)
      modifies this`lastOps
      ensures lastOps == MergeLastOps(old(lastOps), incoming)
    {
      var rest := incoming;
      while rest != map[]
        invariant rest.Keys <= incoming.Keys
        invariant lastOps == MergeLastOps(old(lastOps), incoming - rest.Keys)
        decreases |rest|
      {
        var c := PickKey(rest);
        if Newer(lastOps, incoming, c) {
          lastOps := lastOps[c := incoming[c]];
        }
        MergeOne(old(lastOps), incoming, rest, c);
        rest := rest - {c};
      }
      assert incoming - rest.Keys == incoming;
    }

    method ApplyAddShardsL(p: Parcel)
      modifies this
      ensures State() == AddShardsTo(old(State()), p)
    {
      var known := NotNewShardsL(p.configNum, p.shards);
      if known {
        return;
      }
      receivedHandoffs := receivedHandoffs[p.configNum :=
        (if p.configNum in receivedHandoffs then receivedHandoffs[p.configNum] else []) + [p.shards]];
      var i := 0;
      while i < |p.shards|
        invariant 0 <= i <= |p.shards|
        invariant validShards == old(validShards) + Elements(p.shards[..i])
        invariant State() == old(State()).(validShards := validShards, receivedHandoffs := receivedHandoffs)
        invariant receivedHandoffs == AddShardsTo(old(State()), p).receivedHandoffs
      {
        validShards := validShards + {p.shards[i]};
        i := i + 1;
      }
      assert p.shards[..i] == p.shards;
      OverlayL(p.kvMap, p.shards);
      MergeLastOpsL(p.lastOps);
    }

    method ApplyOpL(op: Op) returns (result: Result)
      modifies this
      ensures (State(), result) == ApplyOp(old(State()), op)
    {
      if op.clientId in lastOps && lastOps[op.clientId].opId == op.opId {
        return Result(OK, lastOps[op.clientId].getResult);
      }
      if op.what.Client? && ShardOf(op.what.command.key) !in validShards {
        return Result(ErrWrongGroup, "");
      }
      result := Result(OK, "");
      match op.what {
        case Client(Put(k, v)) =>
          kvMap := kvMap[k := v];
          result := Result(OK, kvMap[k]);
        case Client(Append(k, v)) =>
          kvMap := kvMap[k := (if k in kvMap then kvMap[k] else "") + v];
          result := Result(OK, kvMap[k]);
        case Client(Get(k)) =>
          var v := if k in kvMap then kvMap[k] else "";
          result := Result(if v == "" then ErrNoKey else OK, v);
        case AddShards(p) =>
          ApplyAddShardsL(p);
        case RemoveShards(h) =>
          ApplyRemoveShardsL(h);
      }
      lastOps := lastOps[op.clientId := LastOp(op.opId, result.value)];
    }
  }
}
