/** `Signature`: a growable bitset of component ids. A word is its 64 bits, least significant first. */
module Signatures {

  const BITS: nat := 64

  type Word = w: seq<bool> | |w| == BITS witness Repeat(false, BITS)
  type Words = seq<Word>

  const ZERO: Word := Repeat(false, BITS)

  function Repeat(b: bool, n: nat): (r: seq<bool>)
    ensures |r| == n && forall k :: 0 <= k < n ==> r[k] == b
  {
    if n == 0 then [] else Repeat(b, n - 1) + [b]
  }

  function And(a: Word, b: Word): Word {
    seq(BITS, k requires 0 <= k < BITS => a[k] && b[k])
  }

  function Or(a: Word, b: Word): Word {
    seq(BITS, k requires 0 <= k < BITS => a[k] || b[k])
  }

  function Not(a: Word): Word {
    seq(BITS, k requires 0 <= k < BITS => !a[k])
  }

  /** Whether bit `i` is 1. Bits past the last word are 0. */
  predicate Has(words: Words, i: nat) {
    i / BITS < |words| && words[i / BITS][i % BITS]
  }

  function Bits(words: Words): set<nat> {
    set i | 0 <= i < BITS * |words| && Has(words, i)
  }

  lemma BitsHas(words: Words)
    ensures forall i: nat :: i in Bits(words) <==> Has(words, i)
  {
  }

  function Resized(words: Words, n: nat): (r: Words)
    ensures |r| == if |words| < n then n else |words|
    ensures forall i: nat :: Has(r, i) <==> Has(words, i)
  {
    words + seq(if |words| < n then n - |words| else 0, _ => ZERO)
  }

  // ---------------------------------------------------------------- the operations on words

  function SetBit(words: Words, index: nat): Words {
    var w := Resized(words, index / BITS + 1);
    w[index / BITS := w[index / BITS][index % BITS := true]]
  }

  function UnsetBit(words: Words, index: nat): Words {
    if index / BITS >= |words| then words
    else words[index / BITS := words[index / BITS][index % BITS := false]]
  }

  function Union(a: Words, b: Words): Words {
    var r := Resized(a, |b|);
    seq(|r|, k requires 0 <= k < |r| => if k < |b| then Or(r[k], b[k]) else r[k])
  }

  function Remove(a: Words, b: Words): Words {
    seq(|a|, k requires 0 <= k < |a| => if k < |b| then And(a[k], Not(b[k])) else a[k])
  }

  predicate Contains(a: Words, b: Words) {
    forall k :: 0 <= k < |a| && k < |b| ==> And(a[k], b[k]) == b[k]
  }

  predicate IsDisjoint(a: Words, b: Words) {
    forall k :: 0 <= k < |a| && k < |b| ==> And(a[k], b[k]) == ZERO
  }

  predicate IsEmpty(a: Words) {
    forall k :: 0 <= k < |a| ==> a[k] == ZERO
  }

  // ---------------------------------------------------------------- what they mean

  lemma SetBitHas(words: Words, index: nat, i: nat)
    ensures Has(SetBit(words, index), i) <==> i == index || Has(words, i)
  {
  }

  lemma UnsetBitHas(words: Words, index: nat, i: nat)
    ensures Has(UnsetBit(words, index), i) <==> i != index && Has(words, i)
  {
  }

  lemma UnionHas(a: Words, b: Words, i: nat)
    ensures Has(Union(a, b), i) <==> Has(a, i) || Has(b, i)
  {
  }

  lemma RemoveHas(a: Words, b: Words, i: nat)
    ensures Has(Remove(a, b), i) <==> Has(a, i) && !Has(b, i)
  {
  }

  /** The four updates are the set operations. */
  lemma UpdateBits(a: Words, b: Words, index: nat)
    ensures Bits(SetBit(a, index)) == Bits(a) + {index}
    ensures Bits(UnsetBit(a, index)) == Bits(a) - {index}
    ensures Bits(Union(a, b)) == Bits(a) + Bits(b)
    ensures Bits(Remove(a, b)) == Bits(a) - Bits(b)
  {
    BitsHas(a);
    BitsHas(b);
    BitsHas(SetBit(a, index));
    BitsHas(UnsetBit(a, index));
    BitsHas(Union(a, b));
    BitsHas(Remove(a, b));
    forall i: nat { SetBitHas(a, index, i); }
    forall i: nat { UnsetBitHas(a, index, i); }
    forall i: nat { UnionHas(a, b, i); }
    forall i: nat { RemoveHas(a, b, i); }
  }

  /** `contains` compares the words the two have in common, and nothing more. */
  lemma ContainsIff(a: Words, b: Words)
    ensures Contains(a, b) <==> forall i: nat :: i < BITS * |a| && Has(b, i) ==> Has(a, i)
  {
    if Contains(a, b) {
      forall i: nat | i < BITS * |a| && Has(b, i) ensures Has(a, i) {
        assert And(a[i / BITS], b[i / BITS])[i % BITS] == b[i / BITS][i % BITS];
      }
    }
    if forall i: nat :: i < BITS * |a| && Has(b, i) ==> Has(a, i) {
      forall k | 0 <= k < |a| && k < |b| ensures And(a[k], b[k]) == b[k] {
        forall m | 0 <= m < BITS ensures And(a[k], b[k])[m] == b[k][m] {
          var i := BITS * k + m;
          assert i / BITS == k && i % BITS == m;
          assert Has(b, i) <==> b[k][m];
          assert Has(a, i) <==> a[k][m];
        }
      }
    }
  }

  /** The words of `b` past the first `n` are zero. */
  predicate NothingBeyond(b: Words, n: nat) {
    forall k :: n <= k < |b| ==> b[k] == ZERO
  }

  ghost predicate Subset(b: Words, a: Words) {
    forall i: nat :: Has(b, i) ==> Has(a, i)
  }

  lemma NothingBeyondHas(b: Words, n: nat)
    ensures NothingBeyond(b, n) <==> forall i: nat :: Has(b, i) ==> i < BITS * n
  {
    if NothingBeyond(b, n) {
      forall i: nat | i / BITS < |b| && i >= BITS * n ensures !Has(b, i) {
        assert b[i / BITS] == ZERO;
      }
    }
    if k :| n <= k < |b| && b[k] != ZERO {
      var m :| 0 <= m < BITS && b[k][m] != ZERO[m];
      var i := BITS * k + m;
      assert i / BITS == k && i % BITS == m;
      assert Has(b, i);
    }
  }

  /** For signatures of `n` words, `contains(_, b)` is the subset test exactly when `b` has no bit past them. */
  lemma ContainsExactIff(b: Words, n: nat)
    ensures (forall a: Words :: |a| == n ==> (Contains(a, b) <==> Subset(b, a))) <==> NothingBeyond(b, n)
  {
    NothingBeyondHas(b, n);
    if NothingBeyond(b, n) {
      forall a: Words | |a| == n ensures Contains(a, b) <==> Subset(b, a) { ContainsIff(a, b); }
    } else {
      var i: nat :| Has(b, i) && i >= BITS * n;
      var full: Word := seq(BITS, _ => true);
      var a: Words := seq(n, _ => full);
      ContainsIff(a, b);
      assert Contains(a, b) && !Has(a, i);
    }
  }

  lemma IsEmptyIff(a: Words)
    ensures IsEmpty(a) <==> Bits(a) == {}
  {
    BitsHas(a);
    NothingBeyondHas(a, 0);
    assert IsEmpty(a) <==> NothingBeyond(a, 0);
    if Bits(a) == {} {
      assert forall i: nat :: !Has(a, i);
    }
  }

  lemma IsDisjointIff(a: Words, b: Words)
    ensures IsDisjoint(a, b) <==> forall i: nat :: !(Has(a, i) && Has(b, i))
  {
    if IsDisjoint(a, b) {
      forall i: nat | i / BITS < |a| && i / BITS < |b| ensures !(Has(a, i) && Has(b, i)) {
        assert And(a[i / BITS], b[i / BITS])[i % BITS] == ZERO[i % BITS];
      }
    }
    if forall i: nat :: !(Has(a, i) && Has(b, i)) {
      forall k | 0 <= k < |a| && k < |b| ensures And(a[k], b[k]) == ZERO {
        forall m | 0 <= m < BITS ensures !And(a[k], b[k])[m] {
          var i := BITS * k + m;
          assert i / BITS == k && i % BITS == m;
          assert !(Has(a, i) && Has(b, i));
        }
      }
    }
  }

  // ---------------------------------------------------------------- normal form

  /** No zero word at the end. */
  predicate Normal(words: Words) {
    words != [] ==> words[|words| - 1] != ZERO
  }

  lemma SetBitNormal(words: Words, index: nat)
    requires Normal(words)
    ensures Normal(SetBit(words, index))
  {
    var w := SetBit(words, index);
    assert w[index / BITS][index % BITS];
    assert w[index / BITS] != ZERO;
    if |words| > index / BITS + 1 {
      assert w[|w| - 1] == words[|words| - 1];
    }
  }

  lemma UnionNormal(a: Words, b: Words)
    requires Normal(a) && Normal(b)
    ensures Normal(Union(a, b))
  {
  }

  /** `unset` and `remove` leave the number of words as it is, zero words or not. */
  lemma LengthsStay(a: Words, b: Words, index: nat)
    ensures |UnsetBit(a, index)| == |a| && |Remove(a, b)| == |a|
  {
  }

  /** Words are in normal form exactly if there are none or the last one has a bit. */
  lemma NormalIff(words: Words)
    ensures Normal(words) <==> words == [] || exists i: nat :: Has(words, i) && i / 64 == |words| - 1
  {
    if words != [] {
      var last := |words| - 1;
      if words[last] != ZERO {
        var m :| 0 <= m < BITS && words[last][m] != ZERO[m];
        var i := BITS * last + m;
        assert i / BITS == last && i % BITS == m;
        assert Has(words, i) && i / 64 == last;
      }
      if i: nat :| Has(words, i) && i / 64 == last {
        assert words[last][i % BITS] && !ZERO[i % BITS];
      }
    }
  }

  /** So they leave a signature in normal form exactly if a bit of its last word stays. */
  lemma StaysNormalIff(a: Words, b: Words, index: nat)
    ensures Normal(UnsetBit(a, index)) <==> a == [] || exists i: nat :: i != index && Has(a, i) && i / 64 == |a| - 1
    ensures Normal(Remove(a, b)) <==> a == [] || exists i: nat :: Has(a, i) && !Has(b, i) && i / 64 == |a| - 1
  {
    NormalIff(UnsetBit(a, index));
    NormalIff(Remove(a, b));
    LengthsStay(a, b, index);
    forall i: nat { UnsetBitHas(a, index, i); }
    forall i: nat { RemoveHas(a, b, i); }
  }

  /** Word-by-word equality of signatures in normal form is equality of the sets. */
  lemma NormalUnique(a: Words, b: Words)
    requires Normal(a) && Normal(b)
    ensures a == b <==> forall i: nat :: Has(a, i) <==> Has(b, i)
  {
    if forall i: nat :: Has(a, i) <==> Has(b, i) {
      NormalNotLonger(a, b);
      NormalNotLonger(b, a);
      forall k | 0 <= k < |a| ensures a[k] == b[k] {
        forall m | 0 <= m < BITS ensures a[k][m] == b[k][m] {
          var i := BITS * k + m;
          assert i / BITS == k && i % BITS == m;
          assert Has(a, i) <==> Has(b, i);
        }
      }
    }
  }

  lemma NormalNotLonger(a: Words, b: Words)
    requires Normal(a) && forall i: nat :: Has(a, i) ==> Has(b, i)
    ensures |a| <= |b|
  {
    if a != [] {
      var n := |a| - 1;
      var m :| 0 <= m < BITS && a[n][m] != ZERO[m];
      var i := BITS * n + m;
      assert i / BITS == n && i % BITS == m;
      assert Has(a, i);
    }
  }

  /** How many words a signature in normal form has for these elements. */
  ghost function WordsFor(types: set<nat>): (n: nat)
    ensures forall ty :: ty in types ==> ty < BITS * n
    ensures n > 0 ==> exists ty :: ty in types && BITS * (n - 1) <= ty
  {
    if types == {} then 0
    else
      HasLargest(types);
      var most: nat :| IsLargest(types, most);
      assert BITS * (most / BITS) <= most;
      most / BITS + 1
  }

  ghost predicate IsLargest(types: set<nat>, most: nat) {
    most in types && forall ty :: ty in types ==> ty <= most
  }

  lemma HasLargest(types: set<nat>)
    requires types != {}
    ensures exists most: nat :: IsLargest(types, most)
  {
    var most := Largest(types);
  }

  lemma {:induction false} Largest(types: set<nat>) returns (most: nat)
    requires types != {}
    ensures IsLargest(types, most)
  {
    var some :| some in types;
    most := some;
    if types != {some} {
      var rest := Largest(types - {some});
      most := if rest > some then rest else some;
      assert forall ty :: ty in types ==> ty == some || ty in types - {some};
    }
  }

  /** A signature in normal form has as many words as its set needs. */
  lemma NormalWords(words: Words)
    requires Normal(words)
    ensures |words| == WordsFor(Bits(words))
  {
    BitsHas(words);
    var n := WordsFor(Bits(words));
    if n > 0 {
      var ty :| ty in Bits(words) && BITS * (n - 1) <= ty;
      assert Has(words, ty);
    }
    if words != [] {
      var last := |words| - 1;
      var m :| 0 <= m < BITS && words[last][m] != ZERO[m];
      var i := BITS * last + m;
      assert i / BITS == last && i % BITS == m;
      assert Has(words, i) && i in Bits(words);
    }
  }

  // ---------------------------------------------------------------- counting

  function Ones(w: seq<bool>): nat {
    if w == [] then 0 else Ones(w[..|w| - 1]) + if w[|w| - 1] then 1 else 0
  }

  function CountOnes(words: Words): nat {
    if words == [] then 0 else CountOnes(words[..|words| - 1]) + Ones(words[|words| - 1])
  }

  /** The positions of the ones of a word that starts at bit `base`. */
  ghost function Positions(w: seq<bool>, base: nat): (r: set<nat>)
    ensures |r| == Ones(w)
    ensures forall i :: i in r <==> base <= i < base + |w| && w[i - base]
  {
    if w == [] then {}
    else
      var init := Positions(w[..|w| - 1], base);
      if w[|w| - 1] then init + {base + |w| - 1} else init
  }

  /** `count_ones` is the cardinality of the set. */
  lemma {:induction false} CountOnesIsCardinality(words: Words)
    ensures CountOnes(words) == |Bits(words)|
  {
    if words != [] {
      var n := |words| - 1;
      CountOnesIsCardinality(words[..n]);
      var init, last := Bits(words[..n]), Positions(words[n], BITS * n);
      BitsHas(words);
      BitsHas(words[..n]);
      forall i: nat ensures i in Bits(words) <==> i in init || i in last {
        if BITS * n <= i < BITS * n + BITS {
          assert i / BITS == n && i % BITS == i - BITS * n;
        }
      }
      assert Bits(words) == init + last;
      assert init !! last;
    }
  }

  // ---------------------------------------------------------------- the object

  class Signature {
    var words: Words

    constructor ()
      ensures words == [] && Normal(words)
    {
      words := [];
    }

    method Set(index: nat)
      modifies this
      ensures words == SetBit(old(words), index)
      ensures Bits(words) == old(Bits(words)) + {index}
      ensures old(Normal(words)) ==> Normal(words)
    {
      UpdateBits(words, [], index);
      if Normal(words) { SetBitNormal(words, index); }
      var word := index / BITS;
      if word >= |words| {
        words := Resized(words, word + 1);
      }
      words := words[word := words[word][index % BITS := true]];
      assert words == SetBit(old(words), index);
    }

    method Unset(index: nat)
      modifies this
      ensures words == UnsetBit(old(words), index)
      ensures Bits(words) == old(Bits(words)) - {index}
    {
      UpdateBits(words, [], index);
      var word := index / BITS;
      if word >= |words| {
        return;
      }
      words := words[word := words[word][index % BITS := false]];
    }

    method UnionWith(other: Words)
      modifies this
      ensures words == Union(old(words), other)
      ensures Bits(words) == old(Bits(words)) + Bits(other)
      ensures old(Normal(words)) && Normal(other) ==> Normal(words)
    {
      UpdateBits(words, other, 0);
      if Normal(words) && Normal(other) { UnionNormal(words, other); }
      OrInto(other);
    }

    method OrInto(other: Words)
      modifies this
      ensures words == Union(old(words), other)
    {
      if |words| < |other| {
        words := Resized(words, |other|);
      }
      ghost var wide := words;
      assert wide == Resized(old(words), |other|);
      for k := 0 to |other|
        invariant |words| == |wide|
        invariant forall m :: 0 <= m < |words| ==> words[m] == if m < k then Or(wide[m], other[m]) else wide[m]
      {
        words := words[k := Or(words[k], other[k])];
      }
    }

    method RemoveAll(other: Words)
      modifies this
      ensures words == Remove(old(words), other)
      ensures Bits(words) == old(Bits(words)) - Bits(other)
    {
      UpdateBits(words, other, 0);
      ghost var difference := Remove(words, other);
      var n := if |words| < |other| then |words| else |other|;
      for k := 0 to n
        invariant |words| == |difference|
        invariant forall m :: 0 <= m < |words| ==> words[m] == if m < k then difference[m] else old(words)[m]
      {
        words := words[k := And(words[k], Not(other[k]))];
      }
      assert words == difference;
    }
  }
}
