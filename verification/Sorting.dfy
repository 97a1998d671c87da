/** Insertion and sorting, which stand for the library's `sort.Sort` and `sort.Ints`. */
module Sorting {

  /** The list with x put in at position j. */
  function InsertAt<T>(s: seq<T>, j: nat, x: T): (r: seq<T>)
    requires j <= |s|
    ensures |r| == |s| + 1
    ensures forall i :: 0 <= i < |r| ==> r[i] == if i < j then s[i] else if i == j then x else s[i - 1]
  {
    s[..j] + [x] + s[j..]
  }

  lemma InsertAtSame<T>(s: seq<T>, j: nat, x: T)
    requires j <= |s|
    ensures multiset(InsertAt(s, j, x)) == multiset(s) + multiset{x}
    ensures forall y :: y in InsertAt(s, j, x) <==> y in s || y == x
  {
    assert s == s[..j] + s[j..];
  }

  // ---------------------------------------------------------------- numbers

  predicate Sorted(s: seq<nat>) {
    forall i, j :: 0 <= i < j < |s| ==> s[i] <= s[j]
  }

  function Insert(x: nat, s: seq<nat>): seq<nat> {
    if s == [] || x <= s[0] then [x] + s else [s[0]] + Insert(x, s[1..])
  }

  /** `sort.Ints`. */
  function SortInts(s: seq<nat>): (r: seq<nat>)
    ensures |r| == |s|
  {
    if s == [] then [] else InsertLength(s[0], SortInts(s[1..])); Insert(s[0], SortInts(s[1..]))
  }

  lemma InsertLength(x: nat, s: seq<nat>)
    ensures |Insert(x, s)| == |s| + 1
  {
  }

  lemma {:induction false} InsertMultiset(x: nat, s: seq<nat>)
    ensures multiset(Insert(x, s)) == multiset{x} + multiset(s)
  {
    if s != [] && x > s[0] {
      InsertMultiset(x, s[1..]);
      assert s == [s[0]] + s[1..];
    }
  }

  lemma {:induction false} InsertSorted(x: nat, s: seq<nat>)
    requires Sorted(s)
    ensures Sorted(Insert(x, s))
  {
    if s != [] && x > s[0] {
      InsertSorted(x, s[1..]);
      InsertMultiset(x, s[1..]);
      var r := Insert(x, s[1..]);
      forall j | 0 <= j < |r| ensures s[0] <= r[j] {
        assert r[j] in multiset(r);
        assert r[j] == x || r[j] in s[1..];
      }
    }
  }

  lemma {:induction false} SortIntsSorted(s: seq<nat>)
    ensures Sorted(SortInts(s)) && multiset(SortInts(s)) == multiset(s)
  {
    if s != [] {
      SortIntsSorted(s[1..]);
      InsertSorted(s[0], SortInts(s[1..]));
      InsertMultiset(s[0], SortInts(s[1..]));
      assert s == [s[0]] + s[1..];
    }
  }
}
