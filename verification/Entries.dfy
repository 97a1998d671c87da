/**
 From a history of operations, or of events, to the list of call and return entries that
 labs/src/porcupine/checker.go searches.
 */
module Entries {
  import opened IdLists
  import opened Linearizability
  import opened Sorting

  datatype Entry<I, O> =
    | Call(input: I, id: nat, time: int)
    | Return(output: O, id: nat, time: int)

  // ---------------------------------------------------------------- well-formed lists

  predicate SameSlot<I, O>(a: Entry<I, O>, b: Entry<I, O>) {
    a.id == b.id && a.Call? == b.Call?
  }

  predicate IsCall<I, O>(es: seq<Entry<I, O>>, x: nat, i: nat) {
    i < |es| && es[i].Call? && es[i].id == x
  }

  predicate IsReturn<I, O>(es: seq<Entry<I, O>>, x: nat, i: nat) {
    i < |es| && es[i].Return? && es[i].id == x
  }

  /** Every id below n has one call and, later, one return, and there is nothing else. */
  ghost predicate Paired<I, O>(es: seq<Entry<I, O>>, n: nat) {
    && (forall i :: 0 <= i < |es| ==> es[i].id < n)
    && (forall i, j :: 0 <= i < j < |es| ==> !SameSlot(es[i], es[j]))
    && (forall x: nat :: x < n ==> HasPair(es, x))
  }

  ghost predicate HasPair<I, O>(es: seq<Entry<I, O>>, x: nat) {
    exists i: nat, j: nat :: i < j && IsCall(es, x, i) && IsReturn(es, x, j)
  }

  ghost predicate WellFormed<I, O>(es: seq<Entry<I, O>>) {
    Paired(es, |es| / 2)
  }

  ghost function CallAt<I, O>(es: seq<Entry<I, O>>, x: nat): (i: nat)
    requires HasPair(es, x)
    ensures IsCall(es, x, i)
  {
    var i: nat, j: nat :| i < j && IsCall(es, x, i) && IsReturn(es, x, j);
    i
  }

  ghost function ReturnAt<I, O>(es: seq<Entry<I, O>>, x: nat): (j: nat)
    requires HasPair(es, x)
    ensures IsReturn(es, x, j)
  {
    var i: nat, j: nat :| i < j && IsCall(es, x, i) && IsReturn(es, x, j);
    j
  }

  /** The operations behind a well-formed list, timed by positions in it. */
  ghost function Operations<I, O>(es: seq<Entry<I, O>>, n: nat): (ops: seq<Operation<I, O>>)
    requires Paired(es, n)
    ensures |ops| == n
  {
    seq(n, x requires 0 <= x < n =>
      assert HasPair(es, x);
      Operation(es[CallAt(es, x)].input, es[ReturnAt(es, x)].output, CallAt(es, x), ReturnAt(es, x)))
  }

  lemma PairAt<I, O>(es: seq<Entry<I, O>>, n: nat, x: nat)
    requires Paired(es, n) && x < n
    ensures HasPair(es, x)
    ensures CallAt(es, x) < ReturnAt(es, x)
    ensures forall i: nat :: IsCall(es, x, i) ==> i == CallAt(es, x)
    ensures forall j: nat :: IsReturn(es, x, j) ==> j == ReturnAt(es, x)
    ensures var op := Operations(es, n)[x];
      op == Operation(es[CallAt(es, x)].input, es[ReturnAt(es, x)].output, CallAt(es, x), ReturnAt(es, x))
  {
    assert HasPair(es, x);
    var i := CallAt(es, x);
    var j := ReturnAt(es, x);
    forall k: nat | IsCall(es, x, k) ensures k == i {
      assert k != i ==> SameSlot(es[k], es[i]);
    }
    forall k: nat | IsReturn(es, x, k) ensures k == j {
      assert k != j ==> SameSlot(es[k], es[j]);
    }
  }

  /** A well-formed list holds two entries for every id. */
  lemma PairedSize<I, O>(es: seq<Entry<I, O>>, n: nat)
    requires Paired(es, n)
    ensures |es| == 2 * n
  {
    forall x: nat | x < n ensures HasPair(es, x) && CallAt(es, x) < |es| && ReturnAt(es, x) < |es| {
      PairAt(es, n, x);
    }
    var slots: seq<nat> := seq(2 * n, k requires 0 <= k < 2 * n => if k < n then CallAt(es, k) else ReturnAt(es, k - n));
    forall i, j | 0 <= i < j < |slots| ensures slots[i] != slots[j] {
      if i < n { assert IsCall(es, i, slots[i]); } else { assert IsReturn(es, i - n, slots[i]); }
      if j < n { assert IsCall(es, j, slots[j]); } else { assert IsReturn(es, j - n, slots[j]); }
    }
    assert Over(slots, |es|);
    DistinctCovers(slots, |es|);
    forall i: nat | i < |es| ensures i in Elements(slots) {
      var x := es[i].id;
      PairAt(es, n, x);
      if es[i].Call? {
        assert IsCall(es, x, i) && slots[x] == i;
      } else {
        assert IsReturn(es, x, i) && slots[n + x] == i;
      }
    }
    assert Elements(slots) == Ids(|es|);
  }

  lemma OperationsTimely<I, O>(es: seq<Entry<I, O>>, n: nat)
    requires Paired(es, n)
    ensures Timely(Operations(es, n))
  {
    forall x: nat | x < n ensures Operations(es, n)[x].call <= Operations(es, n)[x].ret {
      PairAt(es, n, x);
    }
  }

  // ---------------------------------------------------------------- histories that say the same

  ghost predicate SameHistory<I, O>(a: seq<Operation<I, O>>, b: seq<Operation<I, O>>) {
    && |a| == |b|
    && (forall x :: 0 <= x < |a| ==> a[x].input == b[x].input && a[x].output == b[x].output)
    && (forall x, y :: 0 <= x < |a| && 0 <= y < |a| ==> (a[x].call <= a[y].ret <==> b[x].call <= b[y].ret))
  }

  lemma {:induction false} SameState<S, I, O>(m: Model<S, I, O>, a: seq<Operation<I, O>>, b: seq<Operation<I, O>>, p: seq<nat>)
    requires SameHistory(a, b) && Over(p, |a|)
    ensures StateAfter(m, a, p) == StateAfter(m, b, p)
  {
    if p != [] {
      SameState(m, a, b, p[..|p| - 1]);
    }
  }

  lemma SameLinearizations<S, I, O>(m: Model<S, I, O>, a: seq<Operation<I, O>>, b: seq<Operation<I, O>>, p: seq<nat>)
    requires SameHistory(a, b)
    ensures Linearization(m, a, p) <==> Linearization(m, b, p)
  {
    if Over(p, |a|) {
      forall i | 0 <= i < |p| ensures StateAfter(m, a, p[..i]) == StateAfter(m, b, p[..i]) {
        SameState(m, a, b, p[..i]);
      }
    }
  }

  // ---------------------------------------------------------------- makeEntries

  /** `byTime.Less`: at equal times a call comes before a return. */
  predicate Less<I, O>(a: Entry<I, O>, b: Entry<I, O>) {
    if a.time != b.time then a.time < b.time else a.Call? && b.Return?
  }

  ghost predicate Sorted<I, O>(es: seq<Entry<I, O>>) {
    forall i, j :: 0 <= i < j < |es| ==> !Less(es[j], es[i])
  }

  /** The k-th entry appended: operation k/2's call or return. */
  function Slot<I, O>(history: seq<Operation<I, O>>, k: nat): Entry<I, O>
    requires k < 2 * |history|
  {
    var op := history[k / 2];
    if k % 2 == 0 then Call(op.input, k / 2, op.call) else Return(op.output, k / 2, op.ret)
  }

  /** The entries as appended, before sorting. */
  function Raw<I, O>(history: seq<Operation<I, O>>): (raw: seq<Entry<I, O>>)
    ensures |raw| == 2 * |history| && forall k :: 0 <= k < |raw| ==> raw[k] == Slot(history, k)
  {
    seq(2 * |history|, k requires 0 <= k < 2 * |history| => Slot(history, k))
  }

  lemma SlotOf<I, O>(history: seq<Operation<I, O>>, x: nat)
    requires x < |history|
    ensures Slot(history, 2 * x) == Call(history[x].input, x, history[x].call)
    ensures Slot(history, 2 * x + 1) == Return(history[x].output, x, history[x].ret)
  {
  }

  lemma SlotIs<I, O>(history: seq<Operation<I, O>>, k: nat)
    requires k < 2 * |history|
    ensures var e := Slot(history, k);
      && e.id < |history|
      && k == (if e.Call? then 2 * e.id else 2 * e.id + 1)
      && e == if e.Call? then Call(history[e.id].input, e.id, history[e.id].call) else Return(history[e.id].output, e.id, history[e.id].ret)
  {
  }

  /** The list holds the raw entries, each moved to the place that perm says. */
  ghost predicate Arranged<I, O>(raw: seq<Entry<I, O>>, es: seq<Entry<I, O>>, perm: seq<nat>) {
    && |perm| == |raw| == |es| && Distinct(perm) && Over(perm, |raw|)
    && forall i :: 0 <= i < |es| ==> es[i] == raw[perm[i]]
  }

  lemma RawPush<I, O>(history: seq<Operation<I, O>>, n: nat)
    requires n < |history|
    ensures Raw(history[..n + 1]) == Raw(history[..n]) +
      [Call(history[n].input, n, history[n].call)] + [Return(history[n].output, n, history[n].ret)]
  {
    forall k: nat | k < 2 * n ensures Slot(history[..n + 1], k) == Slot(history[..n], k) {
    }
    SlotOf(history[..n + 1], n);
  }

  lemma PlaceOf(perm: seq<nat>, k: nat)
    requires Distinct(perm) && Over(perm, |perm|) && k < |perm|
    ensures exists i: nat :: i < |perm| && perm[i] == k
  {
    DistinctCovers(perm, |perm|);
    assert k in Ids(|perm|);
    assert k in Elements(perm);
  }

  lemma ArrangedPair<I, O>(history: seq<Operation<I, O>>, es: seq<Entry<I, O>>, perm: seq<nat>, x: nat)
    requires Arranged(Raw(history), es, perm) && Sorted(es) && Timely(history) && x < |history|
    ensures HasPair(es, x)
  {
    hide Slot;
    PlaceOf(perm, 2 * x);
    PlaceOf(perm, 2 * x + 1);
    SlotOf(history, x);
    var i: nat :| i < |perm| && perm[i] == 2 * x;
    var j: nat :| j < |perm| && perm[j] == 2 * x + 1;
    assert IsCall(es, x, i) && IsReturn(es, x, j);
  }

  lemma ArrangedEntry<I, O>(history: seq<Operation<I, O>>, es: seq<Entry<I, O>>, perm: seq<nat>, i: nat)
    requires Arranged(Raw(history), es, perm) && i < |es|
    ensures var e := es[i];
      && e.id < |history|
      && perm[i] == (if e.Call? then 2 * e.id else 2 * e.id + 1)
      && e == if e.Call? then Call(history[e.id].input, e.id, history[e.id].call) else Return(history[e.id].output, e.id, history[e.id].ret)
  {
    hide Slot;
    SlotIs(history, perm[i]);
  }

  lemma ArrangedPaired<I, O>(history: seq<Operation<I, O>>, es: seq<Entry<I, O>>, perm: seq<nat>)
    requires Arranged(Raw(history), es, perm) && Sorted(es) && Timely(history)
    ensures Paired(es, |history|)
  {
    hide Slot, Sorted, Timely, HasPair;
    forall i | 0 <= i < |es| ensures es[i].id < |history| {
      ArrangedEntry(history, es, perm, i);
    }
    forall i, j | 0 <= i < j < |es| ensures !SameSlot(es[i], es[j]) {
      ArrangedEntry(history, es, perm, i);
      ArrangedEntry(history, es, perm, j);
    }
    forall x: nat | x < |history| ensures HasPair(es, x) {
      ArrangedPair(history, es, perm, x);
    }
  }

  /**
   However the unstable sort breaks ties, a sorted list is well-formed and stands for the
   history: operation x is called no later than y returns in the list exactly when it is so by time.
   */
  lemma SortedEntriesStand<I, O>(history: seq<Operation<I, O>>, es: seq<Entry<I, O>>, perm: seq<nat>)
    requires Arranged(Raw(history), es, perm) && Sorted(es) && Timely(history)
    ensures Paired(es, |history|) && WellFormed(es)
    ensures SameHistory(history, Operations(es, |history|))
  {
    hide Arranged, Raw, Slot, Paired, HasPair, Operations, Timely;
    var n := |history|;
    ArrangedPaired(history, es, perm);
    PairedSize(es, n);
    forall x: nat, y: nat | x < n && y < n
      ensures var ops := Operations(es, n);
        && ops[x].input == history[x].input && ops[y].output == history[y].output
        && (history[x].call <= history[y].ret <==> ops[x].call <= ops[y].ret)
    {
      PairAt(es, n, x);
      PairAt(es, n, y);
      ArrangedEntry(history, es, perm, CallAt(es, x));
      ArrangedEntry(history, es, perm, ReturnAt(es, y));
    }
  }

  method MakeEntries<I, O>(history: seq<Operation<I, O>>) returns (entries: seq<Entry<I, O>>)
    ensures Sorted(entries) && exists perm :: Arranged(Raw(history), entries, perm)
    ensures Timely(history) ==> WellFormed(entries) && Paired(entries, |history|)
    ensures Timely(history) ==> SameHistory(history, Operations(entries, |history|))
  {
    var raw: seq<Entry<I, O>> := [];
    for id := 0 to |history|
      invariant raw == Raw(history[..id])
    {
      var elem := history[id];
      raw := raw + [Call(elem.input, id, elem.call)];
      raw := raw + [Return(elem.output, id, elem.ret)];
      assert raw == Raw(history[..id + 1]) by { RawPush(history, id); }
    }
    assert history[..|history|] == history;
    ghost var perm;
    entries, perm := SortByTime(raw);
    if Timely(history) {
      SortedEntriesStand(history, entries, perm);
    }
  }

  /** Any sort by `Less` would do. */
  method SortByTime<I, O>(raw: seq<Entry<I, O>>) returns (es: seq<Entry<I, O>>, ghost perm: seq<nat>)
    ensures Sorted(es) && Arranged(raw, es, perm)
  {
    es, perm := [], [];
    for k := 0 to |raw|
      invariant Sorted(es) && Arranged(raw[..k], es, perm)
    {
      var j := |es|;
      while j > 0 && Less(raw[k], es[j - 1])
        invariant 0 <= j <= |es|
        invariant forall i :: j <= i < |es| ==> Less(raw[k], es[i])
      {
        j := j - 1;
      }
      InsertSorted(es, j, raw[k]);
      InsertArranged(raw, k, es, perm, j);
      es, perm := InsertAt(es, j, raw[k]), InsertAt(perm, j, k);
    }
    assert raw[..|raw|] == raw;
  }

  lemma InsertSorted<I, O>(es: seq<Entry<I, O>>, j: nat, e: Entry<I, O>)
    requires Sorted(es) && j <= |es|
    requires forall i :: j <= i < |es| ==> Less(e, es[i])
    requires j > 0 ==> !Less(e, es[j - 1])
    ensures Sorted(InsertAt(es, j, e))
  {
    forall i | 0 <= i < j ensures !Less(e, es[i]) {
      assert i < j - 1 ==> !Less(es[j - 1], es[i]);
    }
  }

  lemma InsertArranged<I, O>(raw: seq<Entry<I, O>>, k: nat, es: seq<Entry<I, O>>, perm: seq<nat>, j: nat)
    requires k < |raw| && Arranged(raw[..k], es, perm) && j <= |es|
    ensures Arranged(raw[..k + 1], InsertAt(es, j, raw[k]), InsertAt(perm, j, k))
  {
    var perm' := InsertAt(perm, j, k);
    assert |raw[..k]| == k;
    forall i | 0 <= i < |perm'| ensures perm'[i] < k + 1 && (perm'[i] == k <==> i == j) {
    }
    var es' := InsertAt(es, j, raw[k]);
    forall i | 0 <= i < |es'| ensures es'[i] == raw[..k + 1][perm'[i]] {
    }
  }

  // ---------------------------------------------------------------- renumber and convertEntries

  datatype Event<I, O> =
    | CallEvent(input: I, id: int)
    | ReturnEvent(output: O, id: int)

  predicate SameEvent<I, O>(a: Event<I, O>, b: Event<I, O>) {
    a.id == b.id && a.CallEvent? == b.CallEvent?
  }

  ghost predicate Answered<I, O>(events: seq<Event<I, O>>, id: int) {
    exists i, j :: 0 <= i < j < |events| && events[i].CallEvent? && events[j].ReturnEvent? && events[i].id == events[j].id == id
  }

  /** Every id that occurs has one call and, later, one return. */
  ghost predicate EventsPaired<I, O>(events: seq<Event<I, O>>) {
    && (forall i, j :: 0 <= i < j < |events| ==> !SameEvent(events[i], events[j]))
    && (forall i :: 0 <= i < |events| ==> Answered(events, events[i].id))
  }

  /** The same events with ids replaced by their places among the names, all of which are used. */
  ghost predicate Renumbered<I, O>(events: seq<Event<I, O>>, e: seq<Event<I, O>>, names: seq<int>) {
    && |e| == |events|
    && (forall i, j :: 0 <= i < j < |names| ==> names[i] != names[j])
    && (forall i :: 0 <= i < |e| ==> Renames(events[i], e[i], names))
    && (forall x :: 0 <= x < |names| ==> Occurs(events, names[x]))
  }

  ghost predicate Renames<I, O>(v: Event<I, O>, w: Event<I, O>, names: seq<int>) {
    0 <= w.id < |names| && w.(id := v.id) == v && names[w.id] == v.id
  }

  ghost predicate Occurs<I, O>(events: seq<Event<I, O>>, id: int) {
    exists i :: 0 <= i < |events| && events[i].id == id
  }

  method Renumber<I, O>(events: seq<Event<I, O>>) returns (e: seq<Event<I, O>>)
    ensures exists names :: Renumbered(events, e, names)
    ensures forall i :: 0 <= i < |e| ==> e[i].id >= 0
    ensures EventsPaired(events) ==> WellFormed(Converted(e))
  {
    e := [];
    ghost var names: seq<int> := [];
    var m: map<int, nat> := map[];
    var id := 0;
    for k := 0 to |events|
      invariant |e| == k && id == |names|
      invariant forall i :: 0 <= i < id ==> names[i] in m && m[names[i]] == i
      invariant forall n :: n in m ==> m[n] < id && names[m[n]] == n
      invariant Renumbered(events[..k], e, names)
      invariant forall i :: 0 <= i < |e| ==> e[i].id >= 0
    {
      hide Occurs, EventsPaired;
      var v := events[k];
      ghost var before := names;
      if v.id in m {
        e := e + [v.(id := m[v.id])];
      } else {
        e := e + [v.(id := id)];
        m := m[v.id := id];
        names := names + [v.id];
        id := id + 1;
      }
      RenumberOne(events, k, e[..k], e[k], before, names);
      assert e == e[..k] + [e[k]];
    }
    assert events[..|events|] == events;
    if EventsPaired(events) {
      RenumberedPaired(events, e, names);
    }
  }

  lemma OccursMore<I, O>(events: seq<Event<I, O>>, k: nat, id: int)
    requires k < |events|
    ensures Occurs(events[..k + 1], events[k].id)
    ensures Occurs(events[..k], id) ==> Occurs(events[..k + 1], id)
  {
    assert events[..k + 1][k] == events[k];
    if i :| 0 <= i < |events[..k]| && events[..k][i].id == id {
      assert events[..k + 1][i].id == id;
    }
  }

  lemma RenumberOne<I, O>(events: seq<Event<I, O>>, k: nat, e: seq<Event<I, O>>, v: Event<I, O>, names: seq<int>, names': seq<int>)
    requires k < |events| && Renumbered(events[..k], e, names)
    requires names' == names || (names' == names + [events[k].id] && events[k].id !in names)
    requires Renames(events[k], v, names')
    ensures Renumbered(events[..k + 1], e + [v], names')
  {
    hide Occurs;
    var longer := events[..k + 1];
    forall i | 0 <= i < |longer| ensures Renames(longer[i], (e + [v])[i], names') {
      assert i < k ==> longer[i] == events[..k][i] && Renames(events[..k][i], e[i], names);
    }
    forall x | 0 <= x < |names'| ensures Occurs(longer, names'[x]) {
      OccursMore(events, k, names'[x]);
    }
  }

  function Converted<I, O>(events: seq<Event<I, O>>): (es: seq<Entry<I, O>>)
    requires forall i :: 0 <= i < |events| ==> events[i].id >= 0
    ensures |es| == |events|
  {
    seq(|events|, i requires 0 <= i < |events| => ToEntry(events[i], i))
  }

  function ToEntry<I, O>(v: Event<I, O>, time: int): Entry<I, O>
    requires v.id >= 0
  {
    if v.CallEvent? then Call(v.input, v.id, time) else Return(v.output, v.id, time)
  }

  lemma RenumberedPair<I, O>(events: seq<Event<I, O>>, e: seq<Event<I, O>>, names: seq<int>, x: nat)
    requires EventsPaired(events) && Renumbered(events, e, names) && x < |names|
    requires forall i :: 0 <= i < |e| ==> e[i].id >= 0
    ensures HasPair(Converted(e), x)
  {
    var es := Converted(e);
    assert Occurs(events, names[x]);
    assert Answered(events, names[x]);
    var i, j :| 0 <= i < j < |events| && events[i].CallEvent? && events[j].ReturnEvent? && events[i].id == events[j].id == names[x];
    assert Renames(events[i], e[i], names) && Renames(events[j], e[j], names);
    assert IsCall(es, x, i) && IsReturn(es, x, j);
  }

  lemma RenumberedPaired<I, O>(events: seq<Event<I, O>>, e: seq<Event<I, O>>, names: seq<int>)
    requires EventsPaired(events) && Renumbered(events, e, names)
    ensures forall i :: 0 <= i < |e| ==> e[i].id >= 0
    ensures Paired(Converted(e), |names|) && WellFormed(Converted(e))
  {
    hide Answered, Occurs, HasPair;
    forall i | 0 <= i < |e| ensures 0 <= e[i].id < |names| {
      assert Renames(events[i], e[i], names);
    }
    var es := Converted(e);
    forall i, j | 0 <= i < j < |es| ensures !SameSlot(es[i], es[j]) {
      assert !SameEvent(events[i], events[j]);
      assert Renames(events[i], e[i], names) && Renames(events[j], e[j], names);
    }
    forall x: nat | x < |names| ensures HasPair(es, x) {
      RenumberedPair(events, e, names, x);
    }
    assert Paired(es, |names|);
    PairedSize(es, |names|);
  }

  method ConvertEntries<I, O>(events: seq<Event<I, O>>) returns (entries: seq<Entry<I, O>>)
    requires forall i :: 0 <= i < |events| ==> events[i].id >= 0
    ensures entries == Converted(events)
  {
    entries := [];
    for i := 0 to |events|
      invariant |entries| == i
      invariant forall k :: 0 <= k < i ==> entries[k] == ToEntry(events[k], k)
    {
      var elem := events[i];
      if elem.ReturnEvent? {
        entries := entries + [Return(elem.output, elem.id, i)];
      } else {
        entries := entries + [Call(elem.input, elem.id, i)];
      }
    }
  }
}
