/**
 Systems as the scheduler sees them: a declared access list and a call that runs in atomic steps
 over its own local memory and the shared store.
 */
module Systems {
  import opened Access

  type Value = seq<int>
  type Memory = seq<int>
  type Store = map<AccessType, Value>

  /** A call starts from `start` and takes `step`s until `done`. */
  datatype System = System(
    access: seq<AccessDesc>, start: Memory, done: Memory -> bool, step: (Memory, Store) -> (Memory, Store))

  predicate Same(w: Store, w': Store, cell: AccessType) {
    (cell in w <==> cell in w') && (cell in w ==> w[cell] == w'[cell])
  }

  /** One step of a call. A finished call stands still. */
  function Work(s: System, l: Memory, w: Store): (Memory, Store) {
    if s.done(l) then (l, w) else s.step(l, w)
  }

  /** The system writes only what it declares as mutable, and what it does depends only on what it declares. */
  ghost predicate Respects(s: System) {
    && (forall l, w, c :: !MayWrite(s.access, c) ==> Same(w, s.step(l, w).1, c))
    && (forall l, w, w' :: (forall c :: MayRead(s.access, c) ==> Same(w, w', c)) ==>
          && s.step(l, w).0 == s.step(l, w').0
          && forall c :: MayWrite(s.access, c) ==> Same(s.step(l, w).1, s.step(l, w').1, c))
  }

  /** `bound` is an upper limit on the remaining steps of a call. */
  ghost predicate Terminates(s: System, bound: Memory -> nat) {
    forall l, w :: !s.done(l) ==> bound(s.step(l, w).0) < bound(l)
  }

  lemma StoresEqual(w: Store, w': Store)
    requires forall c :: Same(w, w', c)
    ensures w == w'
  {
    assert w.Keys == w'.Keys by {
      forall c ensures c in w <==> c in w' { assert Same(w, w', c); }
    }
    forall c | c in w ensures w[c] == w'[c] { assert Same(w, w', c); }
  }

  /** What a step of `b` leaves for `a` to see, if the two do not conflict. */
  lemma UnaffectedBy(a: System, b: System, la: Memory, lb: Memory, w: Store)
    requires Respects(a) && Respects(b) && !SystemsConflict(b.access, a.access)
    ensures var w' := Work(b, lb, w).1;
      && Work(a, la, w').0 == Work(a, la, w).0
      && forall c :: MayWrite(a.access, c) ==> Same(Work(a, la, w).1, Work(a, la, w').1, c)
  {
    var w' := Work(b, lb, w).1;
    forall c | MayRead(a.access, c) ensures Same(w, w', c) {
      if MayWrite(b.access, c) {
        NonConflictingFootprints(b.access, a.access, c);
      }
    }
  }

  /** Steps of non-conflicting systems commute. */
  lemma StepsCommute(a: System, b: System, la: Memory, lb: Memory, w: Store)
    requires Respects(a) && Respects(b)
    requires !SystemsConflict(a.access, b.access) && !SystemsConflict(b.access, a.access)
    ensures var (la', wa) := Work(a, la, w);
            var (lb', wb) := Work(b, lb, w);
            Work(b, lb, wa) == (lb', Work(a, la, wb).1) && Work(a, la, wb).0 == la'
  {
    var (la', wa) := Work(a, la, w);
    var (lb', wb) := Work(b, lb, w);
    UnaffectedBy(a, b, la, lb, w);
    UnaffectedBy(b, a, lb, la, w);
    forall c ensures Same(Work(b, lb, wa).1, Work(a, la, wb).1, c) {
      if MayWrite(a.access, c) {
        NonConflictingFootprints(a.access, b.access, c);
      }
      assert MayWrite(b.access, c) || Same(wa, Work(b, lb, wa).1, c);
      assert MayWrite(a.access, c) || Same(wb, Work(a, la, wb).1, c);
      assert MayWrite(a.access, c) || Same(w, wa, c);
      assert MayWrite(b.access, c) || Same(w, wb, c);
    }
    StoresEqual(Work(b, lb, wa).1, Work(a, la, wb).1);
  }

  // ---------------------------------------------------------------- calls one after another

  /** `k` steps of a call. */
  function WorkTimes(s: System, l: Memory, w: Store, k: nat): (Memory, Store) {
    if k == 0 then (l, w)
    else
      var (l', w') := WorkTimes(s, l, w, k - 1);
      Work(s, l', w')
  }

  /** The call of `s` on store `w`, run alone, returns after `k` steps leaving `w'`. */
  ghost predicate ReturnsAfter(s: System, w: Store, k: nat, w': Store) {
    && s.done(WorkTimes(s, s.start, w, k).0)
    && (forall j: nat :: j < k ==> !s.done(WorkTimes(s, s.start, w, j).0))
    && w' == WorkTimes(s, s.start, w, k).1
  }

  ghost predicate CallReturns(s: System, w: Store, w': Store) {
    exists k: nat :: ReturnsAfter(s, w, k, w')
  }

  /** `stores` lists the store before the first system, between each two, and after the last. */
  ghost predicate CalledInOrder(systems: seq<System>, called: set<nat>, stores: seq<Store>) {
    |stores| == |systems| + 1 && forall i :: 0 <= i < |systems| ==>
      if i in called then CallReturns(systems[i], stores[i], stores[i + 1]) else stores[i + 1] == stores[i]
  }

  /** Calling the systems in `called` one by one in registration order takes store `w` to `w'`. */
  ghost predicate SerialRun(systems: seq<System>, called: set<nat>, w: Store, w': Store) {
    exists stores :: CalledInOrder(systems, called, stores) && stores[0] == w && stores[|systems|] == w'
  }

  /** Steps past the end of a call change nothing, so any sufficient number of them completes the call. */
  lemma {:induction false} EnoughStepsReturn(s: System, w: Store, k: nat)
    requires s.done(WorkTimes(s, s.start, w, k).0)
    ensures CallReturns(s, w, WorkTimes(s, s.start, w, k).1)
  {
    if j: nat :| j < k && s.done(WorkTimes(s, s.start, w, j).0) {
      EnoughStepsReturn(s, w, j);
      DoneStandsStill(s, w, j, k);
    } else {
      assert ReturnsAfter(s, w, k, WorkTimes(s, s.start, w, k).1);
    }
  }

  lemma {:induction false} DoneStandsStill(s: System, w: Store, j: nat, k: nat)
    requires j <= k && s.done(WorkTimes(s, s.start, w, j).0)
    ensures WorkTimes(s, s.start, w, k) == WorkTimes(s, s.start, w, j)
    decreases k
  {
    if j < k {
      DoneStandsStill(s, w, j, k - 1);
    }
  }

  /** Serial execution is deterministic. */
  lemma SerialRunUnique(systems: seq<System>, called: set<nat>, w: Store, w1: Store, w2: Store)
    requires SerialRun(systems, called, w, w1) && SerialRun(systems, called, w, w2)
    ensures w1 == w2
  {
    var a :| CalledInOrder(systems, called, a) && a[0] == w && a[|systems|] == w1;
    var b :| CalledInOrder(systems, called, b) && b[0] == w && b[|systems|] == w2;
    CalledInOrderUnique(systems, called, a, b, |systems|);
  }

  lemma {:induction false} CalledInOrderUnique(
      systems: seq<System>, called: set<nat>, a: seq<Store>, b: seq<Store>, n: nat)
    requires CalledInOrder(systems, called, a) && CalledInOrder(systems, called, b) && a[0] == b[0] && n <= |systems|
    ensures a[n] == b[n]
  {
    if n > 0 {
      CalledInOrderUnique(systems, called, a, b, n - 1);
    }
    if n > 0 && n - 1 in called {
      assert CallReturns(systems[n - 1], a[n - 1], a[n]) && CallReturns(systems[n - 1], b[n - 1], b[n]);
      var j: nat :| ReturnsAfter(systems[n - 1], a[n - 1], j, a[n]);
      var k: nat :| ReturnsAfter(systems[n - 1], b[n - 1], k, b[n]);
      assert j == k;
    }
  }
}
