/**
 All the replica groups of labs/src/shardkv together: groups apply operations from their own
 logs and hand shards to each other by requests that may be lost, delayed, repeated and
 reordered.  The groups refine one logical key-value map.
 */
module ShardSystem {
  import opened IdLists
  import opened Shards
  import opened ShardGroup

  datatype Request = Request(from: int, to: int, parcel: Parcel)

  /** `home` is a history variable: the group that held the shard last. */
  datatype Sys = Sys(groups: map<int, Group>, net: set<Request>, home: map<nat, int>)

  /**
   Applying an operation of the group's log; sending a pending hand-off with the store as it is
   now; dropping a pending hand-off; losing a request.
   */
  datatype Action =
    | Apply(g: int, op: Op)
    | Send(g: int, handoff: Handoff)
    | Forget(g: int, handoff: Handoff)
    | Lose(request: Request)

  ghost predicate Init(sys: Sys, firstConfig: seq<int>) {
    && |firstConfig| == NShards
    && (forall s: nat :: s < NShards ==> firstConfig[s] in sys.groups)
    && (forall g :: g in sys.groups ==>
          sys.groups[g] == Group(map[], set s: nat | s < NShards && firstConfig[s] == g, map[], map[], {}))
    && sys.net == {}
    && sys.home == map s: nat | s < NShards :: firstConfig[s]
  }

  /**
   Any client operation may stand in any group's log, and any removal towards another group,
   however stale the configuration it was decided on; an addition comes from a request.
   */
  ghost predicate Enabled(sys: Sys, a: Action) {
    match a
    case Apply(g, op) =>
      && g in sys.groups
      && (op.what.RemoveShards? ==> op.what.handoff.gid != g)
      && (op.what.AddShards? ==> exists f :: Request(f, g, op.what.parcel) in sys.net)
    case Send(g, h) => g in sys.groups && h in sys.groups[g].pendingHandoffs
    case Forget(g, h) => g in sys.groups
    case Lose(r) => true
  }

  /** What a pending hand-off is sent with: the store and the last operations of the moment. */
  function ParcelOf(group: Group, h: Handoff): Parcel {
    Parcel(h.configNum, h.shards, group.kvMap, group.lastOps)
  }

  function Put(sys: Sys, g: int, group: Group): Sys {
    sys.(groups := sys.groups[g := group], home := sys.home + map s | s in group.validShards :: g)
  }

  function Step(sys: Sys, a: Action): Sys
    requires Enabled(sys, a)
  {
    match a
    case Apply(g, op) => Put(sys, g, ApplyOp(sys.groups[g], op).0)
    case Send(g, h) =>
      sys.(net := sys.net + {Request(g, h.gid, ParcelOf(sys.groups[g], h))})
    case Forget(g, h) =>
      Put(sys, g, sys.groups[g].(pendingHandoffs := sys.groups[g].pendingHandoffs - {h}))
    case Lose(r) => sys.(net := sys.net - {r})
  }

  // ---------------------------------------------------------------- the logical map

  ghost predicate Shaped(sys: Sys) {
    && (forall s: nat :: s < NShards ==> Housed(sys, s))
    && (forall g, s: nat :: Serves(sys, g, s) ==> s < NShards && s in sys.home && sys.home[s] == g)
  }

  ghost predicate Housed(sys: Sys, s: nat) {
    s in sys.home && sys.home[s] in sys.groups
  }

  ghost predicate Serves(sys: Sys, g: int, s: nat) {
    g in sys.groups && s in sys.groups[g].validShards
  }

  /** The store of the group that last held the key's shard. */
  ghost function Store(sys: Sys, key: string): map<string, string>
    requires Shaped(sys)
  {
    assert Housed(sys, ShardOf(key));
    sys.groups[sys.home[ShardOf(key)]].kvMap
  }

  ghost predicate Agree(a: map<string, string>, b: map<string, string>, key: string) {
    (key in a <==> key in b) && (key in a ==> a[key] == b[key])
  }

  ghost predicate Agrees(sys: Sys, m: map<string, string>, key: string)
    requires Shaped(sys)
  {
    Agree(m, Store(sys, key), key)
  }

  ghost predicate Represents(sys: Sys, m: map<string, string>)
    requires Shaped(sys)
  {
    forall k: string :: Agrees(sys, m, k)
  }

  // ---------------------------------------------------------------- the invariant

  datatype Offer = Offer(from: int, handoff: Handoff)

  ghost function OfferOf(r: Request): Offer {
    Offer(r.from, Handoff(r.to, r.parcel.configNum, r.parcel.shards))
  }

  /** Hand-offs that are pending or on the way. */
  ghost predicate Offered(sys: Sys, o: Offer) {
    || (o.from in sys.groups && o.handoff in sys.groups[o.from].pendingHandoffs)
    || (exists r :: r in sys.net && OfferOf(r) == o)
  }

  /** The target has not yet taken a list of shards with this configuration number. */
  ghost predicate Live(sys: Sys, h: Handoff) {
    h.gid in sys.groups ==> !NotNew(sys.groups[h.gid], h.configNum, h.shards)
  }

  ghost predicate Stores(sys: Sys, g: int, k: string) {
    g in sys.groups && k in sys.groups[g].kvMap
  }

  /** A group's stale keys are keys of the shard's home as well. */
  ghost predicate StaleKeysCovered(sys: Sys)
    requires Shaped(sys)
  {
    forall g, k :: Stores(sys, g, k) ==> k in Store(sys, k)
  }

  /** A live offer's shards still belong to the sender, which no longer serves them. */
  ghost predicate Frozen(sys: Sys, o: Offer) {
    && o.from in sys.groups && o.from != o.handoff.gid
    && (Live(sys, o.handoff) ==> forall s :: s in o.handoff.shards ==> Parked(sys, o.from, s))
  }

  ghost predicate Parked(sys: Sys, g: int, s: nat) {
    g in sys.groups && s < NShards && s in sys.home && sys.home[s] == g && !Serves(sys, g, s)
  }

  ghost predicate OffersFrozen(sys: Sys) {
    forall o :: Offered(sys, o) ==> Frozen(sys, o)
  }

  /** At most one live hand-off is under way for a shard. */
  ghost predicate OffersUnique(sys: Sys) {
    forall o1, o2 :: Offered(sys, o1) && Offered(sys, o2) ==> Compatible(sys, o1.handoff, o2.handoff)
  }

  ghost predicate Compatible(sys: Sys, h1: Handoff, h2: Handoff) {
    Live(sys, h1) && Live(sys, h2) && h1 != h2 ==> forall s :: s in h1.shards ==> s !in h2.shards
  }

  ghost predicate Carries(sys: Sys, r: Request) {
    && r.from in sys.groups
    && forall k: string :: ShardOf(k) in r.parcel.shards ==> Agree(r.parcel.kvMap, sys.groups[r.from].kvMap, k)
  }

  /** A live request carries what the sender's store still says about the offered shards. */
  ghost predicate ParcelsCurrent(sys: Sys) {
    forall r :: r in sys.net && Live(sys, OfferOf(r).handoff) ==> Carries(sys, r)
  }

  ghost predicate Inv(sys: Sys) {
    Shaped(sys) && StaleKeysCovered(sys) && OffersFrozen(sys) && OffersUnique(sys) && ParcelsCurrent(sys)
  }

  lemma InitInv(sys: Sys, firstConfig: seq<int>)
    requires Init(sys, firstConfig)
    ensures Inv(sys) && Represents(sys, map[])
  {
    assert forall o :: !Offered(sys, o);
    assert forall s: nat :: s < NShards ==> Housed(sys, s);
    forall k ensures Agrees(sys, map[], k) {
      assert Housed(sys, ShardOf(k));
      var g := sys.home[ShardOf(k)];
      assert g in sys.groups && sys.groups[g].kvMap == map[];
    }
  }

  // ---------------------------------------------------------------- steps that change no group

  /** With the groups and homes as they were, everything but the requests keeps its meaning. */
  lemma SameGroups(sys: Sys, sys': Sys)
    requires sys'.groups == sys.groups && sys'.home == sys.home && Inv(sys)
    requires forall o :: Offered(sys', o) ==> Offered(sys, o)
    requires ParcelsCurrent(sys')
    ensures Inv(sys')
    ensures forall m :: Represents(sys, m) ==> Represents(sys', m)
  {
    assert forall s: nat :: Housed(sys', s) <==> Housed(sys, s);
    assert forall g, s: nat :: Serves(sys', g, s) <==> Serves(sys, g, s);
    assert Shaped(sys');
    forall g, k | Stores(sys', g, k) ensures k in Store(sys', k) {
      assert Stores(sys, g, k);
    }
    forall o | Offered(sys', o) ensures Frozen(sys', o) {
      assert Frozen(sys, o);
      assert forall s :: Parked(sys', o.from, s) <==> Parked(sys, o.from, s);
    }
    forall o1, o2 | Offered(sys', o1) && Offered(sys', o2) ensures Compatible(sys', o1.handoff, o2.handoff) {
      assert Compatible(sys, o1.handoff, o2.handoff);
    }
    forall m, k | Represents(sys, m) ensures Agrees(sys', m, k) {
      assert Agrees(sys, m, k);
    }
  }

  lemma SendKeeps(sys: Sys, g: int, h: Handoff)
    requires Inv(sys) && Enabled(sys, Send(g, h))
    ensures Inv(Step(sys, Send(g, h)))
    ensures forall m :: Represents(sys, m) ==> Represents(Step(sys, Send(g, h)), m)
  {
    hide Shaped, StaleKeysCovered, OffersFrozen, OffersUnique, Represents;
    var sys' := Step(sys, Send(g, h));
    assert forall o :: Offered(sys', o) ==> Offered(sys, o);
    forall r | r in sys'.net && Live(sys', OfferOf(r).handoff) ensures Carries(sys', r) {
      assert r in sys.net ==> Carries(sys, r);
    }
    SameGroups(sys, sys');
  }

  lemma LoseKeeps(sys: Sys, r: Request)
    requires Inv(sys)
    ensures Inv(Step(sys, Lose(r)))
    ensures forall m :: Represents(sys, m) ==> Represents(Step(sys, Lose(r)), m)
  {
    hide Shaped, StaleKeysCovered, OffersFrozen, OffersUnique, Represents;
    var sys' := Step(sys, Lose(r));
    assert forall o :: Offered(sys', o) ==> Offered(sys, o);
    forall x | x in sys'.net && Live(sys', OfferOf(x).handoff) ensures Carries(sys', x) {
      assert Carries(sys, x);
    }
    SameGroups(sys, sys');
  }

  // ---------------------------------------------------------------- steps that take no shard

  lemma HomesKept(sys: Sys, g: int, after: Group)
    requires Shaped(sys) && g in sys.groups && after.validShards <= sys.groups[g].validShards
    ensures Put(sys, g, after).home == sys.home
    ensures Shaped(Put(sys, g, after))
  {
    var sys' := Put(sys, g, after);
    forall s: nat | s in after.validShards ensures s in sys.home && sys.home[s] == g {
      assert Serves(sys, g, s);
    }
    assert sys'.home == sys.home;
    assert forall x, s: nat :: Serves(sys', x, s) ==> Serves(sys, x, s);
    assert forall s: nat :: Housed(sys, s) ==> Housed(sys', s);
  }

  /** The new pending hand-offs of a step: all the same one, of shards just given up. */
  ghost predicate Resigned(before: Group, after: Group, g: int, h: Handoff) {
    && after.pendingHandoffs <= before.pendingHandoffs + {h}
    && (h in after.pendingHandoffs && h !in before.pendingHandoffs ==>
          h.gid != g && forall s :: s in h.shards ==> s in before.validShards && s !in after.validShards)
  }

  lemma ResignedOffers(sys: Sys, g: int, after: Group, h: Handoff, o: Offer)
    requires Shaped(sys) && g in sys.groups && Resigned(sys.groups[g], after, g, h)
    requires Offered(Put(sys, g, after), o) && !Offered(sys, o)
    ensures o == Offer(g, h) && g != h.gid
    ensures forall s :: s in h.shards ==> Serves(sys, g, s) && s !in after.validShards
  {
  }

  lemma ResignedFrozen(sys: Sys, g: int, after: Group, h: Handoff)
    requires Shaped(sys) && OffersFrozen(sys) && g in sys.groups && Resigned(sys.groups[g], after, g, h)
    requires after.validShards <= sys.groups[g].validShards
    requires after.receivedHandoffs == sys.groups[g].receivedHandoffs
    ensures OffersFrozen(Put(sys, g, after))
  {
    var sys' := Put(sys, g, after);
    HomesKept(sys, g, after);
    assert forall x, s: nat :: Serves(sys', x, s) ==> Serves(sys, x, s);
    assert forall x :: Live(sys', x) <==> Live(sys, x);
    forall o | Offered(sys', o) ensures Frozen(sys', o) {
      if Offered(sys, o) {
        assert Frozen(sys, o);
        assert forall s :: Parked(sys, o.from, s) ==> Parked(sys', o.from, s);
      } else {
        ResignedOffers(sys, g, after, h, o);
        assert forall s :: s in h.shards ==> Parked(sys', g, s);
      }
    }
  }

  lemma ResignedUnique(sys: Sys, g: int, after: Group, h: Handoff)
    requires Shaped(sys) && OffersFrozen(sys) && OffersUnique(sys) && g in sys.groups && Resigned(sys.groups[g], after, g, h)
    requires after.receivedHandoffs == sys.groups[g].receivedHandoffs
    ensures OffersUnique(Put(sys, g, after))
  {
    hide Shaped, OffersFrozen, Resigned;
    var sys' := Put(sys, g, after);
    assert forall x :: Live(sys', x) <==> Live(sys, x);
    hide Live;
    forall o1, o2 | Offered(sys', o1) && Offered(sys', o2) ensures Compatible(sys', o1.handoff, o2.handoff) {
      hide Offered;
      if Offered(sys, o1) && Offered(sys, o2) {
        assert Compatible(sys, o1.handoff, o2.handoff);
      } else if Offered(sys, o1) {
        ResignedOffers(sys, g, after, h, o2);
        NotAlreadyOffered(sys, o1, g, h);
      } else if Offered(sys, o2) {
        ResignedOffers(sys, g, after, h, o1);
        NotAlreadyOffered(sys, o2, g, h);
      } else {
        ResignedOffers(sys, g, after, h, o1);
        ResignedOffers(sys, g, after, h, o2);
      }
    }
  }

  /** A shard that is being served is on no live offer. */
  lemma NotAlreadyOffered(sys: Sys, o: Offer, g: int, h: Handoff)
    requires Shaped(sys) && OffersFrozen(sys) && Offered(sys, o)
    requires forall s :: s in h.shards ==> Serves(sys, g, s)
    ensures Live(sys, o.handoff) ==> forall s :: s in h.shards ==> s !in o.handoff.shards
  {
    assert Frozen(sys, o);
    forall s | Live(sys, o.handoff) && s in h.shards ensures s !in o.handoff.shards {
      assert s in o.handoff.shards ==> Parked(sys, o.from, s);
    }
  }

  lemma QuietKeeps(sys: Sys, g: int, after: Group, h: Handoff)
    requires Inv(sys) && g in sys.groups && Resigned(sys.groups[g], after, g, h)
    requires after.validShards <= sys.groups[g].validShards && after.kvMap == sys.groups[g].kvMap
    requires after.receivedHandoffs == sys.groups[g].receivedHandoffs
    ensures Inv(Put(sys, g, after))
    ensures forall m :: Represents(sys, m) ==> Represents(Put(sys, g, after), m)
  {
    hide OffersFrozen, OffersUnique;
    var sys' := Put(sys, g, after);
    HomesKept(sys, g, after);
    ResignedFrozen(sys, g, after, h);
    ResignedUnique(sys, g, after, h);
    forall k ensures Store(sys', k) == Store(sys, k) {
    }
    forall x, k | Stores(sys', x, k) ensures k in Store(sys', k) {
      assert Stores(sys, x, k);
    }
    forall r | r in sys'.net && Live(sys', OfferOf(r).handoff) ensures Carries(sys', r) {
      assert Live(sys, OfferOf(r).handoff);
      assert Carries(sys, r);
    }
    forall m, k | Represents(sys, m) ensures Agrees(sys', m, k) {
      assert Agrees(sys, m, k);
    }
  }

  /** A write to a shard that the group serves is a write to the logical map. */
  lemma WriteKeeps(sys: Sys, g: int, after: Group, key: string, value: string)
    requires Inv(sys) && g in sys.groups && ShardOf(key) in sys.groups[g].validShards
    requires after.kvMap == sys.groups[g].kvMap[key := value] && after.validShards == sys.groups[g].validShards
    requires after.receivedHandoffs == sys.groups[g].receivedHandoffs
    requires after.pendingHandoffs == sys.groups[g].pendingHandoffs
    ensures Inv(Put(sys, g, after))
    ensures forall m :: Represents(sys, m) ==> Represents(Put(sys, g, after), m[key := value])
  {
    hide OffersUnique;
    var sys' := Put(sys, g, after);
    HomesKept(sys, g, after);
    ResignedFrozen(sys, g, after, Handoff(g, 0, []));
    ResignedUnique(sys, g, after, Handoff(g, 0, []));
    assert Serves(sys, g, ShardOf(key));
    forall k ensures Housed(sys, ShardOf(k)) && Store(sys', k) == if sys.home[ShardOf(k)] == g then Store(sys, k)[key := value] else Store(sys, k) {
    }
    forall x, k | Stores(sys', x, k) ensures k in Store(sys', k) {
      assert k != key ==> Stores(sys, x, k);
    }
    forall r | r in sys'.net && Live(sys', OfferOf(r).handoff) ensures Carries(sys', r) {
      assert Live(sys, OfferOf(r).handoff);
      assert Carries(sys, r);
      assert Offered(sys, OfferOf(r));
      NotAlreadyOffered(sys, OfferOf(r), g, Handoff(g, 0, [ShardOf(key)]));
      assert ShardOf(key) in [ShardOf(key)];
    }
    forall m | Represents(sys, m) ensures Represents(sys', m[key := value]) {
      var m' := m[key := value];
      forall k ensures Agrees(sys', m', k) {
        assert Agrees(sys, m, k) && Agrees(sys, m, key);
      }
    }
  }

  // ---------------------------------------------------------------- taking shards over

  /** What the receiving step needs to know of the parcel. */
  lemma AcceptedParcel(sys: Sys, r: Request)
    requires Inv(sys) && r in sys.net && r.to in sys.groups && !NotNew(sys.groups[r.to], r.parcel.configNum, r.parcel.shards)
    ensures r.from in sys.groups && r.from != r.to && Carries(sys, r)
    ensures forall s :: s in r.parcel.shards ==> Parked(sys, r.from, s)
    ensures forall s: nat, g :: s in r.parcel.shards ==> !Serves(sys, g, s)
  {
    assert Offered(sys, OfferOf(r));
    assert Frozen(sys, OfferOf(r));
    assert Live(sys, OfferOf(r).handoff);
    assert forall s :: s in r.parcel.shards ==> Parked(sys, r.from, s);
  }

  ghost predicate TakesOver(before: Group, after: Group, p: Parcel) {
    && after.kvMap == Overlay(before.kvMap, p.kvMap, p.shards)
    && after.validShards == before.validShards + Elements(p.shards)
    && after.pendingHandoffs == before.pendingHandoffs
    && after.receivedHandoffs == before.receivedHandoffs[p.configNum := Received(before, p.configNum) + [p.shards]]
  }

  lemma TakeHomes(sys: Sys, r: Request, after: Group)
    requires Inv(sys) && r in sys.net && r.to in sys.groups && !NotNew(sys.groups[r.to], r.parcel.configNum, r.parcel.shards)
    requires TakesOver(sys.groups[r.to], after, r.parcel)
    ensures Shaped(Put(sys, r.to, after))
    ensures forall s: nat :: s < NShards ==> s in sys.home && s in Put(sys, r.to, after).home
    ensures forall s: nat :: s < NShards ==> Put(sys, r.to, after).home[s] == if s in r.parcel.shards then r.to else sys.home[s]
  {
    hide StaleKeysCovered, OffersFrozen, OffersUnique, ParcelsCurrent;
    var sys' := Put(sys, r.to, after);
    AcceptedParcel(sys, r);
    forall s: nat | s < NShards
      ensures s in sys.home && s in sys'.home && sys'.home[s] == if s in r.parcel.shards then r.to else sys.home[s]
      ensures Housed(sys', s)
    {
      assert Housed(sys, s);
      assert s in after.validShards && s !in r.parcel.shards ==> Serves(sys, r.to, s);
    }
    forall g, s: nat | Serves(sys', g, s) ensures s < NShards && s in sys'.home && sys'.home[s] == g {
      if s in r.parcel.shards {
        assert Parked(sys, r.from, s);
        assert g != r.to ==> Serves(sys, g, s);
      } else {
        assert Serves(sys, g, s);
      }
    }
  }

  /** The receiver ends with the sender's values for the shards it took, and no others. */
  lemma TakeStores(sys: Sys, r: Request, after: Group, k: string)
    requires Inv(sys) && r in sys.net && r.to in sys.groups && !NotNew(sys.groups[r.to], r.parcel.configNum, r.parcel.shards)
    requires TakesOver(sys.groups[r.to], after, r.parcel)
    requires Shaped(Put(sys, r.to, after))
    ensures Agree(Store(sys, k), Store(Put(sys, r.to, after), k), k)
  {
    hide OffersFrozen, OffersUnique, ParcelsCurrent;
    var sys' := Put(sys, r.to, after);
    AcceptedParcel(sys, r);
    TakeHomes(sys, r, after);
    var s := ShardOf(k);
    if s in r.parcel.shards {
      assert Parked(sys, r.from, s);
      assert Store(sys, k) == sys.groups[r.from].kvMap;
      assert Store(sys', k) == after.kvMap;
      assert Agree(r.parcel.kvMap, sys.groups[r.from].kvMap, k);
      assert k in sys.groups[r.to].kvMap ==> Stores(sys, r.to, k);
    } else {
      assert sys'.home[s] == sys.home[s];
    }
  }

  /** Any other live offer is of shards that are not in the parcel. */
  lemma OthersApart(sys: Sys, r: Request, after: Group, o: Offer)
    requires Inv(sys) && r in sys.net && r.to in sys.groups && !NotNew(sys.groups[r.to], r.parcel.configNum, r.parcel.shards)
    requires TakesOver(sys.groups[r.to], after, r.parcel)
    requires Offered(Put(sys, r.to, after), o) && Live(Put(sys, r.to, after), o.handoff)
    ensures Offered(sys, o) && Live(sys, o.handoff)
    ensures forall s :: s in o.handoff.shards ==> s !in r.parcel.shards
  {
    hide Shaped, StaleKeysCovered, OffersFrozen, ParcelsCurrent;
    var sys' := Put(sys, r.to, after);
    assert Offered(sys, OfferOf(r));
    assert Live(sys, OfferOf(r).handoff);
    assert Offered(sys, o);
    assert Received(after, r.parcel.configNum) == Received(sys.groups[r.to], r.parcel.configNum) + [r.parcel.shards];
    assert !Live(sys', OfferOf(r).handoff);
    assert Live(sys, o.handoff);
    assert Compatible(sys, o.handoff, OfferOf(r).handoff);
  }

  lemma TakeTalk(sys: Sys, r: Request, after: Group)
    requires Inv(sys) && r in sys.net && r.to in sys.groups && !NotNew(sys.groups[r.to], r.parcel.configNum, r.parcel.shards)
    requires TakesOver(sys.groups[r.to], after, r.parcel)
    ensures OffersFrozen(Put(sys, r.to, after)) && OffersUnique(Put(sys, r.to, after))
  {
    hide Shaped, StaleKeysCovered, ParcelsCurrent;
    var sys' := Put(sys, r.to, after);
    TakeHomes(sys, r, after);
    forall o | Offered(sys', o) ensures Frozen(sys', o) {
      assert Offered(sys, o);
      assert Frozen(sys, o);
      if Live(sys', o.handoff) {
        OthersApart(sys, r, after, o);
        forall s | s in o.handoff.shards ensures Parked(sys', o.from, s) {
          assert Parked(sys, o.from, s);
        }
      }
    }
    forall o1, o2 | Offered(sys', o1) && Offered(sys', o2) ensures Compatible(sys', o1.handoff, o2.handoff) {
      if Live(sys', o1.handoff) && Live(sys', o2.handoff) {
        OthersApart(sys, r, after, o1);
        OthersApart(sys, r, after, o2);
        assert Compatible(sys, o1.handoff, o2.handoff);
      }
    }
  }

  lemma TakeParcels(sys: Sys, r: Request, after: Group)
    requires Inv(sys) && r in sys.net && r.to in sys.groups && !NotNew(sys.groups[r.to], r.parcel.configNum, r.parcel.shards)
    requires TakesOver(sys.groups[r.to], after, r.parcel)
    ensures ParcelsCurrent(Put(sys, r.to, after))
  {
    hide Shaped, StaleKeysCovered, OffersFrozen, OffersUnique, Live, NotNew;
    var sys' := Put(sys, r.to, after);
    forall x | x in sys'.net && Live(sys', OfferOf(x).handoff) ensures Carries(sys', x) {
      assert Offered(sys', OfferOf(x));
      OthersApart(sys, r, after, OfferOf(x));
      assert Carries(sys, x);
      assert x.parcel.shards == OfferOf(x).handoff.shards;
    }
  }

  lemma TakeKeeps(sys: Sys, r: Request, after: Group)
    requires Inv(sys) && r in sys.net && r.to in sys.groups && !NotNew(sys.groups[r.to], r.parcel.configNum, r.parcel.shards)
    requires TakesOver(sys.groups[r.to], after, r.parcel)
    ensures Inv(Put(sys, r.to, after))
    ensures forall m :: Represents(sys, m) ==> Represents(Put(sys, r.to, after), m)
  {
    hide Shaped, OffersFrozen, OffersUnique, ParcelsCurrent, NotNew, Store;
    var sys' := Put(sys, r.to, after);
    TakeHomes(sys, r, after);
    TakeTalk(sys, r, after);
    TakeParcels(sys, r, after);
    forall g, k | Stores(sys', g, k) ensures k in Store(sys', k) {
      TakeStores(sys, r, after, k);
      AcceptedParcel(sys, r);
      assert Stores(sys, g, k) || Stores(sys, r.from, k);
    }
    forall m, k | Represents(sys, m) ensures Agrees(sys', m, k) {
      assert Agrees(sys, m, k);
      TakeStores(sys, r, after, k);
    }
  }

  // ---------------------------------------------------------------- every step

  /** The command that a step executes, if it executes one. */
  function Executed(sys: Sys, a: Action): seq<Command>
    requires Enabled(sys, a)
  {
    if a.Apply? && a.op.what.Client? && !IsDuplicate(sys.groups[a.g], a.op)
       && ShardOf(a.op.what.command.key) in sys.groups[a.g].validShards
    then [a.op.what.command] else []
  }

  /** The sequential key-value store. */
  function Replay(m: map<string, string>, commands: seq<Command>): map<string, string> {
    if commands == [] then m else Execute(Replay(m, commands[..|commands| - 1]), commands[|commands| - 1]).0
  }

  lemma ServedValue(sys: Sys, m: map<string, string>, g: int, key: string)
    requires Inv(sys) && Represents(sys, m) && g in sys.groups && ShardOf(key) in sys.groups[g].validShards
    ensures Agree(m, sys.groups[g].kvMap, key)
  {
    assert Agrees(sys, m, key);
    assert Serves(sys, g, ShardOf(key));
  }

  lemma ApplyKeeps(sys: Sys, g: int, op: Op)
    requires Inv(sys) && Enabled(sys, Apply(g, op))
    ensures Inv(Step(sys, Apply(g, op)))
    ensures forall m :: Represents(sys, m) ==> Represents(Step(sys, Apply(g, op)), Replay(m, Executed(sys, Apply(g, op))))
  {
    hide Shaped, StaleKeysCovered, OffersFrozen, OffersUnique, ParcelsCurrent, Represents, Overlay, MergeLastOps;
    var before := sys.groups[g];
    var after := ApplyOp(before, op).0;
    if IsDuplicate(before, op) {
      QuietKeeps(sys, g, after, Handoff(g, 0, []));
    } else {
      match op.what
      case Client(c) =>
        if ShardOf(c.key) in before.validShards && !c.Get? {
          WriteKeeps(sys, g, after, c.key, after.kvMap[c.key]);
          forall m | Represents(sys, m)
            ensures Replay(m, Executed(sys, Apply(g, op))) == m[c.key := after.kvMap[c.key]]
          {
            ServedValue(sys, m, g, c.key);
          }
        } else {
          QuietKeeps(sys, g, after, Handoff(g, 0, []));
        }
      case AddShards(p) =>
        if NotNew(before, p.configNum, p.shards) {
          QuietKeeps(sys, g, after, Handoff(g, 0, []));
        } else {
          var f :| Request(f, g, p) in sys.net;
          TakeKeeps(sys, Request(f, g, p), after);
        }
      case RemoveShards(h) =>
        QuietKeeps(sys, g, after, h);
    }
  }

  /**
   A step that moves shards leaves the logical map as it is, and one that executes a client's
   command acts on it as the sequential store does.
   */
  lemma StepKeeps(sys: Sys, a: Action)
    requires Inv(sys) && Enabled(sys, a)
    ensures Inv(Step(sys, a))
    ensures forall m :: Represents(sys, m) ==> Represents(Step(sys, a), Replay(m, Executed(sys, a)))
  {
    hide Inv, Shaped, Represents;
    match a
    case Apply(g, op) => ApplyKeeps(sys, g, op);
    case Send(g, h) => SendKeeps(sys, g, h);
    case Forget(g, h) =>
      QuietKeeps(sys, g, sys.groups[g].(pendingHandoffs := sys.groups[g].pendingHandoffs - {h}), Handoff(g, 0, []));
    case Lose(r) => LoseKeeps(sys, r);
  }

  // ---------------------------------------------------------------- runs

  ghost predicate Run(first: Sys, actions: seq<Action>)
    decreases |actions|, 0
  {
    actions == [] || (Run(first, Front(actions)) && Enabled(After(first, Front(actions)), Last(actions)))
  }

  ghost function After(first: Sys, actions: seq<Action>): Sys
    requires Run(first, actions)
    decreases |actions|, 1
  {
    if actions == [] then first else Step(After(first, Front(actions)), Last(actions))
  }

  function Front<T>(s: seq<T>): seq<T>
    requires s != []
  {
    s[..|s| - 1]
  }

  function Last<T>(s: seq<T>): T
    requires s != []
  {
    s[|s| - 1]
  }

  /** The commands that the whole system has executed, in order. */
  ghost function History(first: Sys, actions: seq<Action>): seq<Command>
    requires Run(first, actions)
    decreases |actions|
  {
    if actions == [] then []
    else History(first, Front(actions)) + Executed(After(first, Front(actions)), Last(actions))
  }

  lemma ReplayMore(m: map<string, string>, done: seq<Command>, more: seq<Command>)
    requires |more| <= 1
    ensures Replay(m, done + more) == Replay(Replay(m, done), more)
  {
    if more == [] {
      assert done + more == done;
    } else {
      assert (done + more)[..|done + more| - 1] == done;
      assert more[..0] == [];
    }
  }

  /** After every run the groups together stand for the map of a single sequential store. */
  lemma {:induction false} GroupsRefineOneMap(first: Sys, firstConfig: seq<int>, actions: seq<Action>)
    requires Init(first, firstConfig) && Run(first, actions)
    ensures Inv(After(first, actions))
    ensures Represents(After(first, actions), Replay(map[], History(first, actions)))
    decreases |actions|
  {
    if actions == [] {
      InitInv(first, firstConfig);
    } else {
      GroupsRefineOneMap(first, firstConfig, Front(actions));
      var sys := After(first, Front(actions));
      StepKeeps(sys, Last(actions));
      ReplayMore(map[], History(first, Front(actions)), Executed(sys, Last(actions)));
    }
  }

  /** No two groups ever hold the same shard valid. */
  lemma OneOwner(first: Sys, firstConfig: seq<int>, actions: seq<Action>, g1: int, g2: int, s: nat)
    requires Init(first, firstConfig) && Run(first, actions)
    requires var sys := After(first, actions);
      g1 in sys.groups && g2 in sys.groups && s in sys.groups[g1].validShards && s in sys.groups[g2].validShards
    ensures g1 == g2
  {
    GroupsRefineOneMap(first, firstConfig, actions);
    var sys := After(first, actions);
    assert Serves(sys, g1, s) && Serves(sys, g2, s);
  }

  /**
   What a client is told: the answer of the single sequential store to its command at this
   point of the history, or the remembered answer of its own last operation, or that the group
   is the wrong one; the latter two execute nothing.
   */
  lemma AnswersAreSequential(first: Sys, firstConfig: seq<int>, actions: seq<Action>, g: int, op: Op)
    requires Init(first, firstConfig) && Run(first, actions) && op.what.Client?
    requires Enabled(After(first, actions), Apply(g, op))
    ensures var sys := After(first, actions);
      var answer := ApplyOp(sys.groups[g], op).1;
      if Executed(sys, Apply(g, op)) == [op.what.command] then
        var m := Replay(map[], History(first, actions));
        && answer == Execute(m, op.what.command).1
        && KM.MapStep(m, InputOf(op.what.command), KM.KvOutput(answer.value)).0
      else
        && Executed(sys, Apply(g, op)) == []
        && answer == if IsDuplicate(sys.groups[g], op) then Result(OK, sys.groups[g].lastOps[op.clientId].getResult)
                     else Result(ErrWrongGroup, "")
  {
    var sys := After(first, actions);
    GroupsRefineOneMap(first, firstConfig, actions);
    if Executed(sys, Apply(g, op)) != [] {
      hide Inv, Shaped, Represents, Run, After, History, Replay;
      ServedValue(sys, Replay(map[], History(first, actions)), g, op.what.command.key);
      ExecuteIsModel(Replay(map[], History(first, actions)), op.what.command);
    }
  }

  // ---------------------------------------------------------------- shards without an owner

  /** The hand-off can still be taken: its target is a group that has not taken it yet. */
  ghost predicate Deliverable(sys: Sys, h: Handoff) {
    h.gid in sys.groups && Live(sys, h)
  }

  /** No group serves the shard and no hand-off that can still be taken will bring it to one. */
  ghost predicate Lost(sys: Sys, s: nat) {
    && (forall g :: !Serves(sys, g, s))
    && (forall o :: Offered(sys, o) && Deliverable(sys, o.handoff) ==> s !in o.handoff.shards)
  }

  /**
   Ownership is at most one group, not exactly one: giving shards up loses them exactly when the
   target is no group, as when all groups have left, or has already taken the same list under the
   same configuration number, as when a stale removal is applied after the shards have come back.
   */
  lemma RemovalLosesIff(sys: Sys, g: int, op: Op, s: nat)
    requires Inv(sys) && Enabled(sys, Apply(g, op)) && op.what.RemoveShards? && !IsDuplicate(sys.groups[g], op)
    requires s in op.what.handoff.shards && forall x :: x in op.what.handoff.shards ==> x in sys.groups[g].validShards
    ensures var h := op.what.handoff;
      Lost(Step(sys, Apply(g, op)), s) <==>
      h.gid !in sys.groups || NotNew(sys.groups[h.gid], h.configNum, h.shards)
  {
    hide StaleKeysCovered, OffersFrozen, OffersUnique, ParcelsCurrent, NotNew;
    var h := op.what.handoff;
    var sys' := Step(sys, Apply(g, op));
    assert Serves(sys, g, s);
    assert forall x :: Serves(sys', x, s) ==> Serves(sys, x, s) && x != g;
    assert Offered(sys', Offer(g, h));
    SameReceived(sys, g, op);
    forall o | Offered(sys', o) && Live(sys', o.handoff) && o != Offer(g, h) ensures s !in o.handoff.shards {
      assert Live(sys', o.handoff) <==> Live(sys, o.handoff);
      assert Offered(sys, o);
      NotAlreadyOffered(sys, o, g, h);
    }
    assert Live(sys', h) <==> Live(sys, h);
  }

  lemma SameReceived(sys: Sys, g: int, op: Op)
    requires Enabled(sys, Apply(g, op)) && !op.what.AddShards?
    ensures forall h :: Live(Step(sys, Apply(g, op)), h) <==> Live(sys, h)
    ensures Step(sys, Apply(g, op)).groups.Keys == sys.groups.Keys
  {
  }

  /** A lost shard stays lost, whatever happens next. */
  lemma LostForGood(sys: Sys, a: Action, s: nat)
    requires Inv(sys) && Enabled(sys, a) && Lost(sys, s)
    ensures Lost(Step(sys, a), s)
  {
    hide Shaped, StaleKeysCovered, OffersFrozen, OffersUnique, ParcelsCurrent, Overlay, MergeLastOps;
    var sys' := Step(sys, a);
    forall g ensures !Serves(sys', g, s) {
      if a.Apply? && g == a.g && a.op.what.AddShards? {
        var f :| Request(f, g, a.op.what.parcel) in sys.net;
        assert Offered(sys, OfferOf(Request(f, g, a.op.what.parcel)));
      }
      assert !Serves(sys, g, s);
    }
    assert !a.Lose? ==> !Serves(sys, a.g, s) || a.Send?;
    forall o | Offered(sys', o) && Deliverable(sys', o.handoff) ensures s !in o.handoff.shards {
      assert Deliverable(sys, o.handoff);
      assert Offered(sys, o) || (a.Apply? && o.from == a.g && a.op.what.RemoveShards? && o.handoff == a.op.what.handoff);
    }
  }

  /** Over a whole run: once lost, a shard is never served again. */
  lemma {:induction false} NeverServedAgain(first: Sys, firstConfig: seq<int>, before: seq<Action>, after: seq<Action>, s: nat, g: int)
    requires Init(first, firstConfig) && Run(first, before) && Run(first, before + after)
    requires Lost(After(first, before), s)
    ensures Lost(After(first, before + after), s) && !Serves(After(first, before + after), g, s)
    decreases |after|
  {
    hide Inv, Step, Enabled, Init;
    if after == [] {
      assert before + after == before;
    } else {
      assert Front(before + after) == before + Front(after) && Last(before + after) == Last(after);
      NeverServedAgain(first, firstConfig, before, Front(after), s, g);
      GroupsRefineOneMap(first, firstConfig, before + Front(after));
      LostForGood(After(first, before + Front(after)), Last(after), s);
    }
  }

  // ---------------------------------------------------------------- how a shard gets lost

  lemma RunMore(first: Sys, actions: seq<Action>, a: Action)
    requires Run(first, actions) && Enabled(After(first, actions), a)
    ensures Run(first, actions + [a]) && After(first, actions + [a]) == Step(After(first, actions), a)
    ensures History(first, actions + [a]) == History(first, actions) + Executed(After(first, actions), a)
  {
    hide Enabled, Step, Executed;
    assert Front(actions + [a]) == actions && Last(actions + [a]) == a;
  }

  /** The id of the last operation of a client that the group has applied. */
  ghost predicate LastIs(group: Group, client: int, id: nat) {
    client in group.lastOps && group.lastOps[client].opId == id
  }

  lemma GiveUp(sys: Sys, g: int, client: int, id: nat, h: Handoff)
    requires g in sys.groups && h.gid != g && !LastIs(sys.groups[g], client, id)
    requires forall s :: s in h.shards ==> s in sys.groups[g].validShards
    ensures var a := Apply(g, Op(client, id, RemoveShards(h)));
      && Enabled(sys, a) && Executed(sys, a) == [] && Step(sys, a).groups.Keys == sys.groups.Keys
      && Step(sys, a).groups[g] == ApplyOp(sys.groups[g], Op(client, id, RemoveShards(h))).0
      && h in Step(sys, a).groups[g].pendingHandoffs && LastIs(Step(sys, a).groups[g], client, id)
      && Step(sys, a).groups[g].receivedHandoffs == sys.groups[g].receivedHandoffs
      && forall x :: x in sys.groups && x != g ==> Step(sys, a).groups[x] == sys.groups[x]
  {
  }

  lemma TakeOver(sys: Sys, g: int, client: int, id: nat, h: Handoff)
    requires g in sys.groups && h in sys.groups[g].pendingHandoffs && h.gid in sys.groups && h.gid != g
    requires !LastIs(sys.groups[h.gid], client, id) && !NotNew(sys.groups[h.gid], h.configNum, h.shards)
    ensures var (send, parcel) := (Send(g, h), ParcelOf(sys.groups[g], h));
      var add := Apply(h.gid, Op(client, id, AddShards(parcel)));
      && Enabled(sys, send) && Enabled(Step(sys, send), add)
      && var sys' := Step(Step(sys, send), add);
      && sys'.groups.Keys == sys.groups.Keys && LastIs(sys'.groups[h.gid], client, id)
      && (forall s :: s in h.shards ==> s in sys'.groups[h.gid].validShards)
      && NotNew(sys'.groups[h.gid], h.configNum, h.shards)
      && sys'.groups[h.gid] == ApplyOp(sys.groups[h.gid], Op(client, id, AddShards(parcel))).0
      && forall x :: x in sys.groups && x != h.gid ==> sys'.groups[x] == sys.groups[x]
  {
    var (send, parcel) := (Send(g, h), ParcelOf(sys.groups[g], h));
    var sys1 := Step(sys, send);
    assert Request(g, h.gid, parcel) in sys1.net;
    var before := sys1.groups[h.gid];
    var after := AddShardsTo(before, parcel);
    assert Received(after, h.configNum) == Received(before, h.configNum) + [h.shards];
  }

  /**
   A run from the start that loses a shard: it moves to another group and back, and then a stale
   copy of the first removal is applied.
   */
  lemma StaleRemovalLoses(first: Sys, firstConfig: seq<int>, g: int, h: int, s: nat, c1: nat, c2: nat)
    requires Init(first, firstConfig) && g in first.groups && h in first.groups && g != h
    requires s < NShards && firstConfig[s] == g
    ensures exists actions :: Run(first, actions) && Lost(After(first, actions), s)
  {
    hide Step, Enabled, NotNew, Lost, ApplyOp, AddShardsTo, Run, After, History, Executed, Init, Inv, LastIs;
    var there, back := Handoff(h, c1, [s]), Handoff(g, c2, [s]);
    var run: seq<Action> := [];
    var sys := first;
    StartFacts(first, firstConfig, g, s, c2);
    StartFacts(first, firstConfig, h, s, c1);
    // there
    NeverHeard(sys.groups[g], 1, 1);
    NeverHeard(sys.groups[h], 2, 1);
    GiveUp(sys, g, 1, 1, there);
    var a1 := Apply(g, Op(1, 1, RemoveShards(there)));
    RunMore(first, run, a1);
    run, sys := run + [a1], Step(sys, a1);
    run, sys := MoveAlong(first, run, sys, g, 2, 1, there);
    // and back
    OtherId(sys.groups[g], 1, 1, 2);
    OtherId(sys.groups[h], 2, 1, 2);
    GiveUp(sys, h, 2, 2, back);
    var a2 := Apply(h, Op(2, 2, RemoveShards(back)));
    RunMore(first, run, a2);
    assert NotNew(Step(sys, a2).groups[h], c1, [s]) by { SameNotNew(sys.groups[h], Step(sys, a2).groups[h], c1, [s]); }
    SameNotNew(first.groups[g], sys.groups[g], c2, [s]);
    run, sys := run + [a2], Step(sys, a2);
    run, sys := MoveAlong(first, run, sys, h, 1, 2, back);
    // the stale removal
    OtherId(sys.groups[g], 1, 2, 3);
    var stale := Op(1, 3, RemoveShards(there));
    GiveUp(sys, g, 1, 3, there);
    RunMore(first, run, Apply(g, stale));
    GroupsRefineOneMap(first, firstConfig, run);
    NotDuplicate(sys.groups[g], stale);
    RemovalLosesIff(sys, g, stale, s);
  }

  lemma StartFacts(first: Sys, firstConfig: seq<int>, g: int, s: nat, c: nat)
    requires Init(first, firstConfig) && g in first.groups && s < NShards
    ensures firstConfig[s] == g ==> s in first.groups[g].validShards
    ensures !NotNew(first.groups[g], c, [s]) && first.groups[g].lastOps == map[]
    ensures Run(first, []) && After(first, []) == first && History(first, []) == []
  {
  }

  lemma NeverHeard(group: Group, client: int, id: nat)
    requires group.lastOps == map[]
    ensures !LastIs(group, client, id)
  {
  }

  lemma OtherId(group: Group, client: int, id: nat, other: nat)
    requires LastIs(group, client, id) && other != id
    ensures !LastIs(group, client, other)
  {
  }

  lemma SameNotNew(a: Group, b: Group, c: nat, shards: seq<nat>)
    requires a.receivedHandoffs == b.receivedHandoffs
    ensures NotNew(a, c, shards) <==> NotNew(b, c, shards)
  {
  }

  lemma NotDuplicate(group: Group, op: Op)
    requires !LastIs(group, op.clientId, op.opId)
    ensures !IsDuplicate(group, op)
  {
  }

  /** Sending a pending hand-off and applying it at its target, as two more steps of a run. */
  lemma MoveAlong(first: Sys, run: seq<Action>, sys: Sys, g: int, client: int, id: nat, h: Handoff) returns (run': seq<Action>, sys': Sys)
    requires Run(first, run) && sys == After(first, run)
    requires g in sys.groups && h in sys.groups[g].pendingHandoffs && h.gid in sys.groups && h.gid != g
    requires !LastIs(sys.groups[h.gid], client, id) && !NotNew(sys.groups[h.gid], h.configNum, h.shards)
    ensures Run(first, run') && sys' == After(first, run') && sys'.groups.Keys == sys.groups.Keys
    ensures LastIs(sys'.groups[h.gid], client, id) && NotNew(sys'.groups[h.gid], h.configNum, h.shards)
    ensures forall s :: s in h.shards ==> s in sys'.groups[h.gid].validShards
    ensures forall x :: x in sys.groups && x != h.gid ==> sys'.groups[x] == sys.groups[x]
    ensures run <= run' && History(first, run') == History(first, run)
    ensures sys'.groups[h.gid] == ApplyOp(sys.groups[h.gid], Op(client, id, AddShards(ParcelOf(sys.groups[g], h)))).0
  {
    hide Step, Enabled, NotNew, ApplyOp;
    TakeOver(sys, g, client, id, h);
    var send := Send(g, h);
    var add := Apply(h.gid, Op(client, id, AddShards(ParcelOf(sys.groups[g], h))));
    RunMore(first, run, send);
    RunMore(first, run + [send], add);
    run', sys' := run + [send] + [add], Step(Step(sys, send), add);
  }

  /** The other way: from the start, one removal towards a gid that is no group. */
  lemma RemovalToNobodyLoses(first: Sys, firstConfig: seq<int>, g: int, nobody: int, s: nat, c: nat)
    requires Init(first, firstConfig) && g in first.groups && nobody !in first.groups && s < NShards && firstConfig[s] == g
    ensures var a := Apply(g, Op(1, 1, RemoveShards(Handoff(nobody, c, [s]))));
      Run(first, [a]) && Lost(After(first, [a]), s)
  {
    hide Step, Enabled, NotNew, Lost;
    var op := Op(1, 1, RemoveShards(Handoff(nobody, c, [s])));
    StartFacts(first, firstConfig, g, s, c);
    GiveUp(first, g, 1, 1, op.what.handoff);
    RunMore(first, [], Apply(g, op));
    assert [] + [Apply(g, op)] == [Apply(g, op)];
    InitInv(first, firstConfig);
    NotDuplicate(first.groups[g], op);
    RemovalLosesIff(first, g, op, s);
  }
}
