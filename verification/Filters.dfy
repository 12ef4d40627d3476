/** Archetypal query filters: what `apply_archetypal` computes on words, and what it means on sets. */
module Filters {
  import opened Signatures

  datatype Filter =
    | Trivial
    | With(signature: Words)
    | Without(signature: Words)
    | Or(group: seq<Filter>)
    | Not(group: seq<Filter>)

  predicate ApplyArchetypal(f: Filter, sig: Words) {
    match f
    case Trivial => true
    case With(s) => Contains(sig, s)
    case Without(s) => IsDisjoint(sig, s)
    case Or(group) => exists g <- group :: ApplyArchetypal(g, sig)
    case Not(group) => exists g <- group :: !ApplyArchetypal(g, sig)
  }

  /** The filter as a predicate on the component set of an entity. */
  predicate Matches(f: Filter, types: set<nat>) {
    match f
    case Trivial => true
    case With(s) => Bits(s) <= types
    case Without(s) => Bits(s) !! types
    case Or(group) => exists g <- group :: Matches(g, types)
    case Not(group) => exists g <- group :: !Matches(g, types)
  }

  /** The part of a signature that `contains` looks at, for a receiver of `n` words. */
  function Clip(s: Words, n: nat): Words {
    if |s| <= n then s else s[..n]
  }

  /** The filter with every `With` cut off after `n` words. */
  function Clipped(f: Filter, n: nat): Filter
    decreases f
  {
    match f
    case Trivial => Trivial
    case With(s) => With(Clip(s, n))
    case Without(s) => Without(s)
    case Or(group) => Or(seq(|group|, k requires 0 <= k < |group| => Clipped(group[k], n)))
    case Not(group) => Not(seq(|group|, k requires 0 <= k < |group| => Clipped(group[k], n)))
  }

  lemma ContainsIsSubset(sig: Words, s: Words)
    requires NothingBeyond(s, |sig|)
    ensures Contains(sig, s) <==> Bits(s) <= Bits(sig)
  {
    ContainsIff(sig, s);
    NothingBeyondHas(s, |sig|);
    BitsHas(sig);
    BitsHas(s);
  }

  /** `contains` is the subset test for what it looks at. */
  lemma ContainsClip(sig: Words, s: Words)
    ensures Contains(sig, s) <==> Bits(Clip(s, |sig|)) <= Bits(sig)
  {
    ContainsIsSubset(sig, Clip(s, |sig|));
  }

  /** Nested filters evaluate on words to their set-level meaning, with `With` cut off after the table's words. */
  lemma {:induction false} FilterMeaning(f: Filter, sig: Words)
    ensures ApplyArchetypal(f, sig) <==> Matches(Clipped(f, |sig|), Bits(sig))
    decreases f
  {
    match f
    case Trivial =>
    case With(s) => ContainsClip(sig, s);
    case Without(s) =>
      IsDisjointIff(sig, s);
      BitsHas(sig);
      BitsHas(s);
    case Or(group) =>
      var clipped := Clipped(f, |sig|).group;
      forall k | 0 <= k < |group|
        ensures group[k] in group && clipped[k] in clipped
        ensures ApplyArchetypal(group[k], sig) <==> Matches(clipped[k], Bits(sig))
      {
        FilterMeaning(group[k], sig);
      }
      assert forall g :: g in clipped ==> exists k :: 0 <= k < |group| && clipped[k] == g;
    case Not(group) =>
      var clipped := Clipped(f, |sig|).group;
      forall k | 0 <= k < |group|
        ensures group[k] in group && clipped[k] in clipped
        ensures ApplyArchetypal(group[k], sig) <==> Matches(clipped[k], Bits(sig))
      {
        FilterMeaning(group[k], sig);
      }
      assert forall g :: g in clipped ==> exists k :: 0 <= k < |group| && clipped[k] == g;
  }

  /** `apply_archetypal` of a tuple: every filter applies. */
  predicate GroupApplies(group: seq<Filter>, sig: Words) {
    forall g <- group :: ApplyArchetypal(g, sig)
  }

  /** A tuple applies exactly when each of its filters, so cut off, matches the set. */
  lemma GroupMeaning(group: seq<Filter>, sig: Words)
    ensures GroupApplies(group, sig) <==> forall g <- group :: Matches(Clipped(g, |sig|), Bits(sig))
  {
    forall g | g in group ensures ApplyArchetypal(g, sig) <==> Matches(Clipped(g, |sig|), Bits(sig)) {
      FilterMeaning(g, sig);
    }
  }

  // ---------------------------------------------------------------- the cut as a question about sets

  /** Words are 64 bits wide: `i` is in the word of one of these components or in an earlier one. */
  predicate InReach(i: nat, types: set<nat>) {
    exists ty <- types :: i / 64 <= ty / 64
  }

  lemma ReachIsWords(types: set<nat>)
    ensures forall i: nat :: InReach(i, types) <==> i < BITS * WordsFor(types)
  {
    var n := WordsFor(types);
    forall i: nat ensures InReach(i, types) <==> i < BITS * n {
      if n > 0 {
        var last :| last in types && BITS * (n - 1) <= last;
        assert last / 64 >= n - 1;
        if i < BITS * n { assert i / 64 <= n - 1; }
      }
      if ty :| ty in types && i / 64 <= ty / 64 { assert ty < BITS * n && ty / 64 < n; }
    }
  }

  /** The filter as a predicate on sets, where a `With` asks only for what is in reach. */
  predicate MatchesInReach(f: Filter, types: set<nat>) {
    match f
    case Trivial => true
    case With(s) => forall i <- Bits(s) :: InReach(i, types) ==> i in types
    case Without(s) => Bits(s) !! types
    case Or(group) => exists g <- group :: MatchesInReach(g, types)
    case Not(group) => exists g <- group :: !MatchesInReach(g, types)
  }

  lemma ClipBits(s: Words, n: nat)
    ensures forall i: nat :: Has(Clip(s, n), i) <==> Has(s, i) && i < BITS * n
  {
  }

  /** Cutting off after the words of a set is asking for what is in its reach. */
  lemma {:induction false} ClippedIsInReach(f: Filter, types: set<nat>)
    ensures Matches(Clipped(f, WordsFor(types)), types) <==> MatchesInReach(f, types)
    decreases f
  {
    var n := WordsFor(types);
    match f
    case Trivial =>
    case With(s) =>
      ClipBits(s, n);
      ReachIsWords(types);
      BitsHas(s);
      BitsHas(Clip(s, n));
    case Without(s) =>
    case Or(group) =>
      var clipped := Clipped(f, n).group;
      forall k | 0 <= k < |group|
        ensures group[k] in group && clipped[k] in clipped
        ensures Matches(clipped[k], types) <==> MatchesInReach(group[k], types)
      {
        ClippedIsInReach(group[k], types);
      }
      assert forall g :: g in clipped ==> exists k :: 0 <= k < |group| && clipped[k] == g;
    case Not(group) =>
      var clipped := Clipped(f, n).group;
      forall k | 0 <= k < |group|
        ensures group[k] in group && clipped[k] in clipped
        ensures Matches(clipped[k], types) <==> MatchesInReach(group[k], types)
      {
        ClippedIsInReach(group[k], types);
      }
      assert forall g :: g in clipped ==> exists k :: 0 <= k < |group| && clipped[k] == g;
  }

  /** A filter on the signature of an archetype is that question about its components. */
  lemma FilterInReach(f: Filter, sig: Words)
    requires Normal(sig)
    ensures ApplyArchetypal(f, sig) <==> MatchesInReach(f, Bits(sig))
  {
    NormalWords(sig);
    FilterMeaning(f, sig);
    ClippedIsInReach(f, Bits(sig));
  }

  // ---------------------------------------------------------------- when nothing is cut off

  /** No `With` in the filter names a component out of reach of these. */
  predicate Covered(f: Filter, types: set<nat>) {
    match f
    case Trivial => true
    case With(s) => forall i <- Bits(s) :: InReach(i, types)
    case Without(_) => true
    case Or(group) => forall g <- group :: Covered(g, types)
    case Not(group) => forall g <- group :: Covered(g, types)
  }

  /** Then the filter means what it says. */
  lemma {:induction false} CoveredIsWhole(f: Filter, types: set<nat>)
    requires Covered(f, types)
    ensures MatchesInReach(f, types) <==> Matches(f, types)
    decreases f
  {
    match f
    case Trivial =>
    case With(s) =>
    case Without(s) =>
    case Or(group) => forall g | g in group { CoveredIsWhole(g, types); }
    case Not(group) => forall g | g in group { CoveredIsWhole(g, types); }
  }
}
