/** The order of strings by their first difference, over any order of their elements. */
module Lexicographic {

  predicate Less<T(==)>(lt: (T, T) -> bool, a: seq<T>, b: seq<T>) {
    b != [] && (a == [] || lt(a[0], b[0]) || (a[0] == b[0] && Less(lt, a[1..], b[1..])))
  }

  /** A strict total order of the elements. */
  ghost predicate Strict<T(!new)>(lt: (T, T) -> bool) {
    && (forall x :: !lt(x, x))
    && (forall x, y :: lt(x, y) || lt(y, x) || x == y)
    && (forall x, y, z :: lt(x, y) && lt(y, z) ==> lt(x, z))
  }

  lemma {:induction false} LessTotal<T(!new)>(lt: (T, T) -> bool, a: seq<T>, b: seq<T>)
    requires Strict(lt)
    ensures Less(lt, a, b) || Less(lt, b, a) || a == b
    ensures !(Less(lt, a, b) && Less(lt, b, a)) && !Less(lt, a, a)
    decreases |a|
  {
    if a != [] {
      LessTotal(lt, a[1..], if b == [] then [] else b[1..]);
      assert b != [] ==> a == [a[0]] + a[1..] && b == [b[0]] + b[1..];
    }
  }

  /** Not being less carries over. */
  lemma {:induction false} NotLessTransitive<T(!new)>(lt: (T, T) -> bool, a: seq<T>, b: seq<T>, c: seq<T>)
    requires Strict(lt) && !Less(lt, b, a) && !Less(lt, c, b)
    ensures !Less(lt, c, a)
    decreases |a|
  {
    if a != [] && b != [] && c != [] && a[0] == b[0] == c[0] {
      NotLessTransitive(lt, a[1..], b[1..], c[1..]);
    }
  }
}
