/**
 labs/src/porcupine/bitset.go: a finite set of ids held in 64-bit words.  Bits 0 to 63 are in
 the first word, the next 64 in the second, and so on.
 */
module Bitset {

  // The operators on words are named, so that a proof about masks need not look into them.

  function Or(x: bv64, y: bv64): bv64 {
    x | y
  }

  function AndNot(x: bv64, y: bv64): bv64 {
    x & !y
  }

  function Double(x: bv64): bv64 {
    x << 1
  }

  function Half(x: bv64): bv64 {
    x >> 1
  }

  predicate Meets(x: bv64, y: bv64) {
    x & y != 0
  }

  /** One shifted left `minor` times. */
  function Mask(minor: nat): bv64 {
    if minor == 0 then 1 else Double(Mask(minor - 1))
  }

  predicate Bit(w: bv64, minor: nat) {
    Meets(w, Mask(minor))
  }

  function With(w: bv64, minor: nat): bv64 {
    Or(w, Mask(minor))
  }

  function Without(w: bv64, minor: nat): bv64 {
    AndNot(w, Mask(minor))
  }

  /** `get`. */
  predicate Member(words: seq<bv64>, pos: nat) {
    pos < 64 * |words| && Bit(words[pos / 64], pos % 64)
  }

  /** The set that the words stand for. */
  ghost function SetOf(words: seq<bv64>): set<nat> {
    set pos: nat | pos < 64 * |words| && Member(words, pos)
  }

  function Added(words: seq<bv64>, pos: nat): seq<bv64>
    requires pos < 64 * |words|
  {
    words[pos / 64 := With(words[pos / 64], pos % 64)]
  }

  function Removed(words: seq<bv64>, pos: nat): seq<bv64>
    requires pos < 64 * |words|
  {
    words[pos / 64 := Without(words[pos / 64], pos % 64)]
  }

  // ---------------------------------------------------------------- words

  lemma DoubleApart(x: bv64, y: bv64)
    ensures !Meets(x, y) ==> !Meets(Double(x), Double(y))
    ensures !Meets(1, Double(y))
  {
  }

  lemma MeetsSymmetric(x: bv64, y: bv64)
    ensures Meets(x, y) <==> Meets(y, x)
  {
  }

  lemma MeetsIs(x: bv64, y: bv64)
    ensures Meets(x, y) <==> x & y != 0
  {
  }

  lemma OrIs(x: bv64, y: bv64)
    ensures Or(x, y) == x | y
  {
  }

  lemma AndNotIs(x: bv64, y: bv64)
    ensures AndNot(x, y) == x & !y
  {
  }

  lemma RawOr(w: bv64, x: bv64, y: bv64, o: bv64)
    requires x & y == 0 && o == w | x
    ensures o & y == w & y
  {
  }

  lemma RawAndNot(w: bv64, x: bv64, y: bv64, o: bv64)
    requires x & y == 0 && o == w & !x
    ensures o & y == w & y
  {
  }

  lemma OrMeets(w: bv64, x: bv64, y: bv64)
    requires !Meets(x, y)
    ensures Meets(Or(w, x), y) <==> Meets(w, y)
  {
    hide *;
    MeetsIs(x, y);
    MeetsIs(w, y);
    MeetsIs(Or(w, x), y);
    OrIs(w, x);
    RawOr(w, x, y, Or(w, x));
  }

  lemma OrMeetsSame(w: bv64, x: bv64)
    requires Meets(x, x)
    ensures Meets(Or(w, x), x)
  {
  }

  lemma AndNotMeets(w: bv64, x: bv64, y: bv64)
    requires !Meets(x, y)
    ensures Meets(AndNot(w, x), y) <==> Meets(w, y)
  {
    hide *;
    MeetsIs(x, y);
    MeetsIs(w, y);
    MeetsIs(AndNot(w, x), y);
    AndNotIs(w, x);
    RawAndNot(w, x, y, AndNot(w, x));
  }

  lemma AndNotMeetsSame(w: bv64, x: bv64)
    ensures !Meets(AndNot(w, x), x)
  {
  }

  const TopBit: bv64 := 0x8000_0000_0000_0000

  lemma DoubleNonzero(x: bv64)
    requires Meets(x, x) && !Meets(x, TopBit)
    ensures Meets(Double(x), Double(x))
  {
  }

  /** The mask lies in the word as a whole or not at all. */
  predicate AllOrNothing(v: bv64, mask: bv64) {
    v & mask == 0 || v & mask == mask
  }

  lemma DoubleAllOrNothing(v: bv64, mask: bv64)
    ensures AllOrNothing(Half(v), mask) ==> AllOrNothing(v, Double(mask))
    ensures AllOrNothing(v, 1)
  {
  }

  predicate SameUnder(v: bv64, w: bv64, mask: bv64) {
    v & mask == w & mask
  }

  lemma MeetsSameUnder(v: bv64, w: bv64, mask: bv64)
    requires AllOrNothing(v, mask) && AllOrNothing(w, mask) && (Meets(v, mask) <==> Meets(w, mask))
    ensures SameUnder(v, w, mask)
  {
  }

  lemma SameUnderOr(v: bv64, w: bv64, x: bv64, y: bv64)
    requires SameUnder(v, w, x) && SameUnder(v, w, y)
    ensures SameUnder(v, w, Or(x, y))
  {
  }

  lemma SameUnderNone(v: bv64, w: bv64)
    ensures SameUnder(v, w, 0)
  {
  }

  lemma SameUnderAll(v: bv64, w: bv64)
    requires SameUnder(v, w, 0xFFFF_FFFF_FFFF_FFFF)
    ensures v == w
  {
  }

  lemma ZeroMeets(mask: bv64)
    ensures !Meets(0, mask)
  {
  }

  // ---------------------------------------------------------------- masks

  lemma MaskIs(a: nat)
    ensures Mask(0) == 1 && Mask(a + 1) == Double(Mask(a))
  {
    hide Double;
  }

  lemma {:induction false} MasksApart(a: nat, b: nat)
    requires a < b
    ensures !Meets(Mask(a), Mask(b))
  {
    hide *;
    MaskIs(b - 1);
    DoubleApart(0, Mask(b - 1));
    if a > 0 {
      MasksApart(a - 1, b - 1);
      MaskIs(a - 1);
      DoubleApart(Mask(a - 1), Mask(b - 1));
    }
  }

  function NextDigit(x: bv64, digit: bv64): bv64 {
    (x << 4) | digit
  }

  lemma FourDoubles(x: bv64)
    ensures Double(Double(Double(Double(x)))) == NextDigit(x, 0)
  {
  }

  lemma MaskFour(a: nat)
    ensures Mask(a + 4) == NextDigit(Mask(a), 0)
  {
    hide *;
    MaskIs(a);
    MaskIs(a + 1);
    MaskIs(a + 2);
    MaskIs(a + 3);
    FourDoubles(Mask(a));
  }

  lemma TopMask()
    ensures Mask(63) == TopBit
  {
    assert Mask(3) == 8;
    hide Mask;
    MaskFour(3);
    MaskFour(7);
    MaskFour(11);
    MaskFour(15);
    MaskFour(19);
    MaskFour(23);
    MaskFour(27);
    MaskFour(31);
    MaskFour(35);
    MaskFour(39);
    MaskFour(43);
    MaskFour(47);
    MaskFour(51);
    MaskFour(55);
    MaskFour(59);
  }

  lemma {:induction false} MaskNonzero(a: nat)
    requires a < 64
    ensures Meets(Mask(a), Mask(a))
  {
    if a > 0 {
      hide *;
      MaskNonzero(a - 1);
      MasksApart(a - 1, 63);
      TopMask();
      MaskIs(a - 1);
      DoubleNonzero(Mask(a - 1));
    }
  }

  /** A mask selects one bit. */
  lemma {:induction false} OneBit(v: bv64, a: nat)
    ensures AllOrNothing(v, Mask(a))
    decreases a
  {
    hide *;
    if a == 0 {
      MaskIs(0);
      DoubleAllOrNothing(v, 0);
    } else {
      OneBit(Half(v), a - 1);
      MaskIs(a - 1);
      DoubleAllOrNothing(v, Mask(a - 1));
    }
  }

  lemma DifferentMasks(a: nat, b: nat)
    requires a != b
    ensures !Meets(Mask(a), Mask(b))
  {
    hide *;
    if a < b {
      MasksApart(a, b);
    } else {
      MasksApart(b, a);
      MeetsSymmetric(Mask(a), Mask(b));
    }
  }

  lemma WithBit(w: bv64, a: nat, b: nat)
    requires a < 64 && b < 64
    ensures Bit(With(w, a), b) <==> Bit(w, b) || a == b
    ensures Bit(Without(w, a), b) <==> Bit(w, b) && a != b
  {
    hide Mask, Meets, Or, AndNot;
    if a == b {
      MaskNonzero(a);
      OrMeetsSame(w, Mask(a));
      AndNotMeetsSame(w, Mask(a));
    } else {
      DifferentMasks(a, b);
      OrMeets(w, Mask(a), Mask(b));
      AndNotMeets(w, Mask(a), Mask(b));
    }
  }

  // ---------------------------------------------------------------- a word is its bits

  /** The lowest k bits. */
  function LowMask(k: nat): bv64 {
    if k == 0 then 0 else Or(LowMask(k - 1), Mask(k - 1))
  }

  lemma LowMaskIs(k: nat)
    ensures LowMask(0) == 0 && LowMask(k + 1) == Or(LowMask(k), Mask(k))
  {
    hide Or, Mask;
  }

  lemma OrDoubles(low: bv64, mask: bv64)
    ensures Or(Or(Double(low), 1), Double(mask)) == Or(Double(Or(low, mask)), 1)
    ensures Or(0, 1) == Or(Double(0), 1)
  {
  }

  lemma {:induction false} LowMaskDoubles(k: nat)
    ensures LowMask(k + 1) == Or(Double(LowMask(k)), 1)
  {
    hide *;
    LowMaskIs(k);
    MaskIs(k);
    if k == 0 {
      OrDoubles(0, 0);
    } else {
      LowMaskDoubles(k - 1);
      LowMaskIs(k - 1);
      MaskIs(k - 1);
      OrDoubles(LowMask(k - 1), Mask(k - 1));
    }
  }

  lemma FourOnes(x: bv64)
    ensures Or(Double(Or(Double(Or(Double(Or(Double(x), 1)), 1)), 1)), 1) == NextDigit(x, 15)
  {
  }

  lemma LowMaskFour(k: nat)
    ensures LowMask(k + 4) == NextDigit(LowMask(k), 15)
  {
    hide *;
    LowMaskDoubles(k);
    LowMaskDoubles(k + 1);
    LowMaskDoubles(k + 2);
    LowMaskDoubles(k + 3);
    FourOnes(LowMask(k));
  }

  lemma AllBits()
    ensures LowMask(64) == 0xFFFF_FFFF_FFFF_FFFF
  {
    hide LowMask, Or, Mask;
    LowMaskIs(0);
    LowMaskFour(0);
    LowMaskFour(4);
    LowMaskFour(8);
    LowMaskFour(12);
    LowMaskFour(16);
    LowMaskFour(20);
    LowMaskFour(24);
    LowMaskFour(28);
    LowMaskFour(32);
    LowMaskFour(36);
    LowMaskFour(40);
    LowMaskFour(44);
    LowMaskFour(48);
    LowMaskFour(52);
    LowMaskFour(56);
    LowMaskFour(60);
  }

  lemma {:induction false} SameLow(v: bv64, w: bv64, k: nat)
    requires k <= 64 && forall a: nat :: a < 64 ==> (Bit(v, a) <==> Bit(w, a))
    ensures SameUnder(v, w, LowMask(k))
    decreases k
  {
    hide Mask, Meets, Or, LowMask, SameUnder, AllOrNothing;
    if k == 0 {
      LowMaskIs(0);
      SameUnderNone(v, w);
    } else {
      var a := k - 1;
      SameLow(v, w, a);
      OneBit(v, a);
      OneBit(w, a);
      assert Bit(v, a) <==> Bit(w, a);
      MeetsSameUnder(v, w, Mask(a));
      LowMaskIs(a);
      SameUnderOr(v, w, LowMask(a), Mask(a));
    }
  }

  lemma SameWord(v: bv64, w: bv64)
    requires forall a: nat :: a < 64 ==> (Bit(v, a) <==> Bit(w, a))
    ensures v == w
  {
    hide *;
    SameLow(v, w, 64);
    AllBits();
    SameUnderAll(v, w);
  }

  // ---------------------------------------------------------------- the representation

  lemma AddedMember(words: seq<bv64>, pos: nat, x: nat)
    requires pos < 64 * |words|
    ensures Member(Added(words, pos), x) <==> Member(words, x) || x == pos
  {
    hide Bit, With, Without;
    if x < 64 * |words| && x / 64 == pos / 64 {
      WithBit(words[x / 64], pos % 64, x % 64);
    }
  }

  lemma RemovedMember(words: seq<bv64>, pos: nat, x: nat)
    requires pos < 64 * |words|
    ensures Member(Removed(words, pos), x) <==> Member(words, x) && x != pos
  {
    hide Bit, With, Without;
    if x < 64 * |words| && x / 64 == pos / 64 {
      WithBit(words[x / 64], pos % 64, x % 64);
    }
  }

  lemma AddedSet(words: seq<bv64>, pos: nat)
    requires pos < 64 * |words|
    ensures SetOf(Added(words, pos)) == SetOf(words) + {pos}
  {
    hide Member, Added;
    assert |Added(words, pos)| == |words| by { AddedSize(words, pos); }
    forall x: nat ensures x in SetOf(Added(words, pos)) <==> x in SetOf(words) + {pos} {
      AddedMember(words, pos, x);
      MemberBound(words, x);
    }
  }

  lemma RemovedSet(words: seq<bv64>, pos: nat)
    requires pos < 64 * |words|
    ensures SetOf(Removed(words, pos)) == SetOf(words) - {pos}
  {
    hide Member, Removed;
    assert |Removed(words, pos)| == |words| by { AddedSize(words, pos); }
    forall x: nat ensures x in SetOf(Removed(words, pos)) <==> x in SetOf(words) - {pos} {
      RemovedMember(words, pos, x);
      MemberBound(words, x);
    }
  }

  lemma AddedSize(words: seq<bv64>, pos: nat)
    requires pos < 64 * |words|
    ensures |Added(words, pos)| == |words| == |Removed(words, pos)|
  {
  }

  lemma MemberBound(words: seq<bv64>, x: nat)
    ensures Member(words, x) ==> x < 64 * |words|
  {
  }

  /** The words are determined by the set: equality of words is equality of sets. */
  lemma SameSetSameWords(a: seq<bv64>, b: seq<bv64>)
    requires |a| == |b|
    ensures a == b <==> SetOf(a) == SetOf(b)
  {
    hide *;
    if SetOf(a) == SetOf(b) {
      forall i | 0 <= i < |a| ensures a[i] == b[i] {
        forall m: nat | m < 64 ensures Bit(a[i], m) <==> Bit(b[i], m) {
          BitMember(a, i, m);
          BitMember(b, i, m);
        }
        SameWord(a[i], b[i]);
      }
      assert a == b;
    }
  }

  lemma BitMember(a: seq<bv64>, i: nat, m: nat)
    requires i < |a| && m < 64
    ensures Bit(a[i], m) <==> 64 * i + m in SetOf(a)
  {
    hide Bit;
    var pos := 64 * i + m;
    assert pos / 64 == i && pos % 64 == m;
  }

  // ---------------------------------------------------------------- counting and hashing

  /** `bits.OnesCount64`. */
  function OnesCount64(w: bv64): nat {
    |set m: nat | m < 64 && Bit(w, m)|
  }

  lemma {:induction false} ShiftedSize(a: set<nat>, b: set<nat>, d: nat)
    requires forall x :: x in b <==> x >= d && x - d in a
    ensures |a| == |b|
    decreases |a|
  {
    if a == {} {
      assert forall x :: x in b ==> x - d in a;
      assert b == {};
    } else {
      var x :| x in a;
      assert x + d in b;
      ShiftedSize(a - {x}, b - {x + d}, d);
    }
  }

  ghost function TopPart(words: seq<bv64>, w: bv64): set<nat> {
    set pos: nat | pos < 64 * |words| + 64 && pos >= 64 * |words| && Member(words + [w], pos)
  }

  lemma TopPartSize(words: seq<bv64>, w: bv64)
    ensures |TopPart(words, w)| == OnesCount64(w)
  {
    hide Bit;
    var base := 64 * |words|;
    var ones := set m: nat | m < 64 && Bit(w, m);
    forall pos: nat ensures pos in TopPart(words, w) <==> pos >= base && pos - base in ones {
      if base <= pos < base + 64 {
        assert pos / 64 == |words| && pos % 64 == pos - base;
      }
    }
    ShiftedSize(ones, TopPart(words, w), base);
  }

  lemma OneMoreWord(words: seq<bv64>, w: bv64)
    ensures |SetOf(words + [w])| == |SetOf(words)| + OnesCount64(w)
  {
    hide Bit, OnesCount64;
    TopPartSize(words, w);
    forall pos: nat ensures pos in SetOf(words + [w]) <==> pos in SetOf(words) + TopPart(words, w) {
      if pos < 64 * |words| {
        assert (words + [w])[pos / 64] == words[pos / 64];
      }
    }
    assert SetOf(words + [w]) == SetOf(words) + TopPart(words, w);
    assert SetOf(words) !! TopPart(words, w);
  }

  /** Every word mixed in, one after the other. */
  function Mix(start: bv64, words: seq<bv64>): bv64 {
    if words == [] then start else Mix(start, words[..|words| - 1]) ^ words[|words| - 1]
  }

  /** The population count mixed with every word. */
  ghost function HashOf(words: seq<bv64>): bv64 {
    Mix(ToWord(|SetOf(words)|), words)
  }

  function ToWord(n: nat): bv64 {
    (n % 0x1_0000_0000_0000_0000) as bv64
  }

  // ---------------------------------------------------------------- the operations

  /** As many words as n ids need, all clear. */
  method NewBitset(n: nat) returns (b: array<bv64>)
    ensures fresh(b) && n <= 64 * b.Length < n + 64 && SetOf(b[..]) == {}
  {
    var extra := if n % 64 != 0 then 1 else 0;
    b := new bv64[n / 64 + extra](_ => 0);
    forall pos: nat | pos < 64 * b.Length ensures !Member(b[..], pos) {
      ZeroMeets(Mask(pos % 64));
    }
  }

  method Clone(b: array<bv64>) returns (c: array<bv64>)
    ensures fresh(c) && c[..] == b[..]
  {
    c := new bv64[b.Length](i requires 0 <= i < b.Length reads b => b[i]);
  }

  method Set(b: array<bv64>, pos: nat)
    requires pos < 64 * b.Length
    modifies b
    ensures b[..] == Added(old(b[..]), pos)
    ensures SetOf(b[..]) == SetOf(old(b[..])) + {pos}
  {
    hide With, Without, Bit;
    AddedSet(b[..], pos);
    b[pos / 64] := With(b[pos / 64], pos % 64);
    assert b[..] == Added(old(b[..]), pos);
  }

  method Clear(b: array<bv64>, pos: nat)
    requires pos < 64 * b.Length
    modifies b
    ensures b[..] == Removed(old(b[..]), pos)
    ensures SetOf(b[..]) == SetOf(old(b[..])) - {pos}
  {
    hide With, Without, Bit;
    RemovedSet(b[..], pos);
    b[pos / 64] := Without(b[pos / 64], pos % 64);
    assert b[..] == Removed(old(b[..]), pos);
  }

  method Get(b: array<bv64>, pos: nat) returns (r: bool)
    requires pos < 64 * b.Length
    ensures r <==> pos in SetOf(b[..])
  {
    r := Bit(b[pos / 64], pos % 64);
  }

  method Popcnt(b: seq<bv64>) returns (total: nat)
    ensures total == |SetOf(b)|
  {
    hide OnesCount64, Member;
    total := 0;
    assert SetOf([]) == {};
    for i := 0 to |b|
      invariant total == |SetOf(b[..i])|
    {
      assert b[..i + 1] == b[..i] + [b[i]];
      OneMoreWord(b[..i], b[i]);
      total := total + OnesCount64(b[i]);
    }
    assert b[..|b|] == b;
  }

  /** The same set, in as many words, always has the same hash. */
  method Hash(b: seq<bv64>) returns (hash: bv64)
    ensures hash == HashOf(b)
    ensures forall c: seq<bv64> :: |c| == |b| && SetOf(c) == SetOf(b) ==> HashOf(c) == hash
  {
    hide SetOf, ToWord;
    var total := Popcnt(b);
    hash := ToWord(total);
    for i := 0 to |b|
      invariant hash == Mix(ToWord(total), b[..i])
    {
      assert b[..i + 1][..i] == b[..i];
      hash := hash ^ b[i];
    }
    assert b[..|b|] == b;
    hide Mix;
    forall c: seq<bv64> | |c| == |b| && SetOf(c) == SetOf(b) ensures HashOf(c) == hash {
      SameSetSameWords(b, c);
    }
  }

  method Equals(b: seq<bv64>, b2: seq<bv64>) returns (r: bool)
    ensures r <==> b == b2
    ensures r <==> |b| == |b2| && SetOf(b) == SetOf(b2)
  {
    if |b| == |b2| {
      SameSetSameWords(b, b2);
    }
    if |b| != |b2| {
      return false;
    }
    for i := 0 to |b|
      invariant forall k :: 0 <= k < i ==> b[k] == b2[k]
    {
      if b[i] != b2[i] {
        return false;
      }
    }
    return true;
  }
}
