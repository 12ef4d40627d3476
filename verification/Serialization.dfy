/**
 Reordering interleaved calls into a serial execution.

 A trace names, step by step, the system whose call moved. If every pair of systems that appears
 out of registration order in the trace is free of conflicts, the trace can be sorted without
 changing its effect, and a sorted trace is the systems called one after another.
 */
module Serialization {
  import opened Access
  import opened Systems

  type Trace = seq<nat>

  /** The local memories of all calls and the store they share. */
  datatype Joint = Joint(locals: seq<Memory>, store: Store)

  ghost predicate Fits(systems: seq<System>, trace: Trace, j: Joint) {
    |j.locals| == |systems| && forall k :: 0 <= k < |trace| ==> trace[k] < |systems|
  }

  function StepOf(systems: seq<System>, i: nat, j: Joint): Joint
    requires i < |systems| == |j.locals|
  {
    var (l, w) := Work(systems[i], j.locals[i], j.store);
    Joint(j.locals[i := l], w)
  }

  ghost function Effect(systems: seq<System>, trace: Trace, j: Joint): (r: Joint)
    requires Fits(systems, trace, j)
    ensures |r.locals| == |systems|
  {
    if trace == [] then j
    else StepOf(systems, trace[|trace| - 1], Effect(systems, trace[..|trace| - 1], j))
  }

  ghost predicate AllRespect(systems: seq<System>) {
    forall i :: 0 <= i < |systems| ==> Respects(systems[i])
  }

  ghost predicate Independent(systems: seq<System>, a: nat, b: nat)
    requires a < |systems| && b < |systems|
  {
    !SystemsConflict(systems[a].access, systems[b].access) && !SystemsConflict(systems[b].access, systems[a].access)
  }

  lemma StepsOfCommute(systems: seq<System>, a: nat, b: nat, j: Joint)
    requires a < |systems| == |j.locals| && b < |systems| && a != b
    requires Respects(systems[a]) && Respects(systems[b]) && Independent(systems, a, b)
    ensures StepOf(systems, a, StepOf(systems, b, j)) == StepOf(systems, b, StepOf(systems, a, j))
  {
    StepsCommute(systems[a], systems[b], j.locals[a], j.locals[b], j.store);
    var (la, _) := Work(systems[a], j.locals[a], j.store);
    var (lb, _) := Work(systems[b], j.locals[b], j.store);
    assert j.locals[a := la][b := lb] == j.locals[b := lb][a := la];
  }

  /** Moves `x` left past every larger element at the end of `s`. */
  function Insert(s: Trace, x: nat): (r: Trace)
    ensures multiset(r) == multiset(s) + multiset{x}
  {
    if s == [] || s[|s| - 1] <= x then s + [x]
    else
      assert s == s[..|s| - 1] + [s[|s| - 1]];
      Insert(s[..|s| - 1], x) + [s[|s| - 1]]
  }

  function Sort(s: Trace): (r: Trace)
    ensures multiset(r) == multiset(s)
  {
    if s == [] then []
    else
      assert s == s[..|s| - 1] + [s[|s| - 1]];
      Insert(Sort(s[..|s| - 1]), s[|s| - 1])
  }

  predicate Sorted(s: Trace) {
    forall i, j :: 0 <= i < j < |s| ==> s[i] <= s[j]
  }

  lemma SameElements(s: Trace, t: Trace, y: nat)
    requires multiset(s) == multiset(t)
    ensures y in s <==> y in t
  {
    assert y in s <==> y in multiset(s);
    assert y in t <==> y in multiset(t);
  }

  lemma {:induction false} InsertSorted(s: Trace, x: nat)
    requires Sorted(s)
    ensures Sorted(Insert(s, x))
  {
    if s != [] && s[|s| - 1] > x {
      var init, last := s[..|s| - 1], s[|s| - 1];
      InsertSorted(init, x);
      var r := Insert(init, x);
      forall k | 0 <= k < |r| ensures r[k] <= last {
        assert r[k] in multiset(r);
        assert r[k] == x || r[k] in init;
      }
    }
  }

  lemma {:induction false} SortSorted(s: Trace)
    ensures Sorted(Sort(s))
  {
    if s != [] {
      SortSorted(s[..|s| - 1]);
      InsertSorted(Sort(s[..|s| - 1]), s[|s| - 1]);
    }
  }

  lemma FitsSameElements(systems: seq<System>, s: Trace, t: Trace, j: Joint)
    requires Fits(systems, s, j) && multiset(s) == multiset(t)
    ensures Fits(systems, t, j)
  {
    forall k | 0 <= k < |t| ensures t[k] < |systems| {
      SameElements(s, t, t[k]);
    }
  }

  lemma {:induction false} InsertEffect(systems: seq<System>, s: Trace, x: nat, j: Joint)
    requires Fits(systems, s + [x], j) && Fits(systems, s, j) && x < |systems|
    requires AllRespect(systems)
    requires forall k :: 0 <= k < |s| && s[k] > x ==> Independent(systems, s[k], x)
    ensures Fits(systems, Insert(s, x), j)
    ensures Effect(systems, Insert(s, x), j) == StepOf(systems, x, Effect(systems, s, j))
  {
    FitsSameElements(systems, s + [x], Insert(s, x), j);
    if s == [] || s[|s| - 1] <= x {
      assert (s + [x])[..|s|] == s;
    } else {
      var init, y := s[..|s| - 1], s[|s| - 1];
      InsertEffect(systems, init, x, j);
      assert Insert(s, x)[..|Insert(s, x)| - 1] == Insert(init, x);
      StepsOfCommute(systems, x, y, Effect(systems, init, j));
    }
  }

  /** Every pair of positions out of registration order belongs to independent systems. */
  ghost predicate InversionsIndependent(systems: seq<System>, trace: Trace) {
    forall p, q :: 0 <= p < q < |trace| && trace[q] < trace[p] < |systems| ==> Independent(systems, trace[p], trace[q])
  }

  lemma InversionsOfPrefix(systems: seq<System>, init: Trace, x: nat)
    requires InversionsIndependent(systems, init + [x])
    ensures InversionsIndependent(systems, init)
  {
    var trace := init + [x];
    forall p, q | 0 <= p < q < |init| && init[q] < init[p] < |systems| ensures Independent(systems, init[p], init[q]) {
      assert trace[p] == init[p] && trace[q] == init[q];
    }
  }

  lemma LastIsIndependentOfLarger(systems: seq<System>, init: Trace, x: nat, s: Trace)
    requires InversionsIndependent(systems, init + [x])
    requires x < |systems| && multiset(s) == multiset(init) && forall k :: 0 <= k < |init| ==> init[k] < |systems|
    ensures forall k :: 0 <= k < |s| && s[k] > x ==> s[k] < |systems| && Independent(systems, s[k], x)
  {
    forall k | 0 <= k < |s| && s[k] > x ensures s[k] < |systems| && Independent(systems, s[k], x) {
      SameElements(s, init, s[k]);
      var p :| 0 <= p < |init| && init[p] == s[k];
      assert (init + [x])[p] == s[k] && (init + [x])[|init|] == x;
    }
  }

  lemma SortFits(systems: seq<System>, trace: Trace, j: Joint)
    requires Fits(systems, trace, j)
    ensures Fits(systems, Sort(trace), j)
  {
    FitsSameElements(systems, trace, Sort(trace), j);
  }

  lemma FitsPrefix(systems: seq<System>, init: Trace, x: nat, j: Joint)
    requires Fits(systems, init + [x], j)
    ensures Fits(systems, init, j) && x < |systems|
    ensures forall k :: 0 <= k < |init| ==> init[k] < |systems|
  {
    assert (init + [x])[|init|] == x;
    forall k | 0 <= k < |init| ensures init[k] < |systems| { assert (init + [x])[k] == init[k]; }
  }

  lemma EffectOfLast(systems: seq<System>, init: Trace, x: nat, j: Joint)
    requires Fits(systems, init + [x], j) && Fits(systems, init, j) && x < |systems|
    ensures Effect(systems, init + [x], j) == StepOf(systems, x, Effect(systems, init, j))
  {
  }

  lemma {:induction false} SortEffect(systems: seq<System>, trace: Trace, j: Joint)
    requires Fits(systems, trace, j) && Fits(systems, Sort(trace), j)
    requires AllRespect(systems)
    requires InversionsIndependent(systems, trace)
    ensures Effect(systems, Sort(trace), j) == Effect(systems, trace, j)
  {
    if trace != [] {
      var init, x := trace[..|trace| - 1], trace[|trace| - 1];
      assert trace == init + [x];
      FitsPrefix(systems, init, x, j);
      SortFits(systems, init, j);
      InversionsOfPrefix(systems, init, x);
      SortEffect(systems, init, j);
      LastIsIndependentOfLarger(systems, init, x, Sort(init));
      InsertEffect(systems, Sort(init), x, j);
      EffectOfLast(systems, init, x, j);
    }
  }

  // ---------------------------------------------------------------- a sorted trace is a serial run

  /** The call of `i` moving `k` times in a row. */
  lemma {:induction false} TailEffect(systems: seq<System>, trace: Trace, i: nat, k: nat, j: Joint)
    requires Fits(systems, trace, j) && i < |systems| && k <= |trace|
    requires forall m :: |trace| - k <= m < |trace| ==> trace[m] == i
    ensures var before := Effect(systems, trace[..|trace| - k], j);
            var (l, w) := WorkTimes(systems[i], before.locals[i], before.store, k);
            Effect(systems, trace, j) == Joint(before.locals[i := l], w)
    decreases k
  {
    if k == 0 {
      assert trace[..|trace|] == trace;
    } else {
      var init := trace[..|trace| - 1];
      TailEffect(systems, init, i, k - 1, j);
      assert init[..|init| - (k - 1)] == trace[..|trace| - k];
    }
  }

  lemma {:induction false} UntouchedLocal(systems: seq<System>, trace: Trace, i: nat, j: Joint)
    requires Fits(systems, trace, j) && i < |systems| && i !in trace
    ensures Effect(systems, trace, j).locals[i] == j.locals[i]
  {
    if trace != [] {
      UntouchedLocal(systems, trace[..|trace| - 1], i, j);
    }
  }

  lemma {:induction false} SortedTail(trace: Trace, x: nat) returns (k: nat)
    requires Sorted(trace) && forall m :: 0 <= m < |trace| ==> trace[m] <= x
    ensures k <= |trace|
    ensures forall m :: |trace| - k <= m < |trace| ==> trace[m] == x
    ensures forall m :: 0 <= m < |trace| - k ==> trace[m] < x
  {
    if trace == [] || trace[|trace| - 1] < x {
      k := 0;
    } else {
      k := SortedTail(trace[..|trace| - 1], x);
      k := k + 1;
    }
  }

  function StartAll(systems: seq<System>, w: Store): (j: Joint)
    ensures |j.locals| == |systems|
  {
    Joint(seq(|systems|, i requires 0 <= i < |systems| => systems[i].start), w)
  }

  /** A sorted trace of called systems among the first `m`, all calls finished, is a serial run of them. */
  lemma {:induction false} SortedTraceIsSerial(
      systems: seq<System>, called: set<nat>, trace: Trace, m: nat, w: Store)
    returns (stores: seq<Store>)
    requires m <= |systems| && Fits(systems, trace, StartAll(systems, w))
    requires Sorted(trace) && forall k :: 0 <= k < |trace| ==> trace[k] < m && trace[k] in called
    requires forall i :: 0 <= i < m && i in called ==>
      systems[i].done(Effect(systems, trace, StartAll(systems, w)).locals[i])
    ensures CalledInOrder(systems[..m], called, stores)
    ensures stores[0] == w && stores[m] == Effect(systems, trace, StartAll(systems, w)).store
    decreases m
  {
    var j := StartAll(systems, w);
    if m == 0 {
      stores := [w];
    } else {
      var i := m - 1;
      var k := SortedTail(trace, i);
      var front := trace[..|trace| - k];
      assert k > 0 ==> trace[|trace| - 1] == i;
      assert i !in called ==> front == trace;
      TailEffect(systems, trace, i, k, j);
      UntouchedLocal(systems, front, i, j);
      var before, after := Effect(systems, front, j), Effect(systems, trace, j).store;
      stores := SortedTraceIsSerial(systems, called, front, i, w);
      if i in called { EnoughStepsReturn(systems[i], before.store, k); }
      stores := stores + [after];
      forall n | 0 <= n < m
        ensures if n in called then CallReturns(systems[..m][n], stores[n], stores[n + 1])
          else stores[n + 1] == stores[n]
      {
        if n < i {
          assert systems[..m][n] == systems[..i][n];
        }
      }
    }
  }

  lemma SortWithin(trace: Trace, called: set<nat>)
    requires forall k :: 0 <= k < |trace| ==> trace[k] in called
    ensures forall k :: 0 <= k < |Sort(trace)| ==> Sort(trace)[k] in called
  {
    forall k | 0 <= k < |Sort(trace)| ensures Sort(trace)[k] in called {
      SameElements(Sort(trace), trace, Sort(trace)[k]);
    }
  }

  /** Interleaved calls whose out-of-order pairs are independent have the effect of the serial run. */
  lemma InterleavingIsSerial(systems: seq<System>, called: set<nat>, trace: Trace, w: Store)
    requires Fits(systems, trace, StartAll(systems, w))
    requires AllRespect(systems)
    requires InversionsIndependent(systems, trace)
    requires forall k :: 0 <= k < |trace| ==> trace[k] in called
    requires forall i :: 0 <= i < |systems| && i in called ==>
      systems[i].done(Effect(systems, trace, StartAll(systems, w)).locals[i])
    ensures SerialRun(systems, called, w, Effect(systems, trace, StartAll(systems, w)).store)
  {
    var j := StartAll(systems, w);
    SortFits(systems, trace, j);
    SortEffect(systems, trace, j);
    SortSorted(trace);
    SortWithin(trace, called);
    var stores := SortedTraceIsSerial(systems, called, Sort(trace), |systems|, w);
    assert systems[..|systems|] == systems;
  }
}
