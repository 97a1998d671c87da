/**
 `checkOperations` of labs/src/porcupine/checker.go with the key-value model of
 labs/src/models/kv.go, the partitions being checked one after another.
 */
module CheckOperations {
  import opened Linearizability
  import opened Entries
  import opened KvModel
  import Checker

  lemma PartTimely(history: seq<KvOperation>, key: string)
    requires Timely(history)
    ensures Timely(OfKey(history, key))
  {
    hide Positions;
    var f := Positions(history, key);
    forall i | 0 <= i < |f| ensures OfKey(history, key)[i].call <= OfKey(history, key)[i].ret {
    }
  }

  /** One partition: the entries stand for its operations, and the search decides them. */
  method CheckPart(part: seq<KvOperation>) returns (ok: bool)
    requires Timely(part)
    ensures ok <==> Linearizable(OneKey(), part)
  {
    hide *;
    OneKeyIsLawful();
    var entries := MakeEntries(part);
    PairedSize(entries, |part|);
    var longest;
    ok, longest := Checker.CheckSingle(OneKey(), entries, false);
    SameVerdict(OneKey(), part, Operations(entries, |part|));
  }

  lemma SameVerdict<S, I, O>(m: Model<S, I, O>, a: seq<Operation<I, O>>, b: seq<Operation<I, O>>)
    requires SameHistory(a, b)
    ensures Linearizable(m, a) <==> Linearizable(m, b)
  {
    hide Linearization, SameHistory;
    forall p ensures Linearization(m, a, p) <==> Linearization(m, b, p) {
      SameLinearizations(m, a, b, p);
    }
  }

  /**
   A history over any number of keys passes exactly when it is linearizable against the whole
   key-value store.
   */
  method CheckKv(history: seq<KvOperation>) returns (ok: bool)
    requires Timely(history)
    ensures ok <==> Linearizable(WholeStore(), history)
  {
    hide Linearizable, OfKey, Timely, Has, WholeStore, OneKey;
    var parts, keys := Partition(history);
    ok := true;
    for i := 0 to |parts|
      invariant ok <==> forall k :: 0 <= k < i ==> Linearizable(OneKey(), parts[k])
    {
      PartTimely(history, keys[i]);
      var good := CheckPart(parts[i]);
      ok := ok && good;
    }
  }
}
