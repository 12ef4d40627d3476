/**
 Mutual exclusion in the code as written: whether two calls under way at the same time can belong to conflicting
 systems, or to one system that conflicts with a copy of itself.
 */
module Exclusion {
  import opened Widths
  import opened Access
  import opened ScheduleGraph
  import opened GraphFacts
  import opened Systems
  import opened Serialization
  import opened Runtime
  import opened Serializability
  import opened Termination
  import opened SeedScan

  /** The system declares a mutable access or the whole world: it conflicts with a copy of itself. */
  predicate Exclusive(access: seq<AccessDesc>) {
    exists d <- access :: d.mutable || d.ty.World?
  }

  lemma ExclusiveIff(access: seq<AccessDesc>)
    requires !SelfConflict(access)
    ensures SystemsConflict(access, access) <==> Exclusive(access)
  {
    if d :| d in access && (d.mutable || d.ty.World?) {
      var k :| 0 <= k < |access| && access[k] == d;
      assert Conflicts(access[k], access[k]);
    }
    if k, m :| 0 <= k < |access| && 0 <= m < |access| && Conflicts(access[k], access[m]) {
      assert k != m ==> Conflicts(access[m], access[k]);
      assert k == m;
      assert access[k] in access;
    }
  }

  lemma SharedIsIndependent(a: seq<AccessDesc>, b: seq<AccessDesc>)
    requires !Exclusive(a) && !Exclusive(b)
    ensures !SystemsConflict(a, b)
  {
    forall k, m | 0 <= k < |a| && 0 <= m < |b| ensures !Conflicts(a[k], b[m]) { assert a[k] in a && b[m] in b; }
  }

  // ---------------------------------------------------------------- two calls of one system

  /** Both tasks are inside the calls of their systems. */
  ghost predicate UnderWay(s: State, t: nat, u: nat) {
    t < u < |s.tasks| && s.tasks[t].phase.Calling? && s.tasks[u].phase.Calling?
  }

  lemma Begin(cfg: Config, w: Store, labels: seq<Label>, t: nat)
    requires WellFormed(cfg) && Run(cfg, Initial(cfg, w), labels)
    requires var s := After(cfg, Initial(cfg, w), labels); t < |s.tasks| && s.tasks[t].phase.Spawned?
    ensures Run(cfg, Initial(cfg, w), labels + [Act(t)])
    ensures var s, s' := After(cfg, Initial(cfg, w), labels), After(cfg, Initial(cfg, w), labels + [Act(t)]);
      && |s'.tasks| == |s.tasks| && s'.tasks[t].id == s.tasks[t].id && s'.tasks[t].phase.Calling?
      && forall u :: 0 <= u < |s.tasks| && u != t ==> s'.tasks[u] == s.tasks[u]
  {
    OneMore(cfg, Initial(cfg, w), labels, Act(t));
  }

  /** A system that can be started twice can have two calls under way at once. */
  lemma DoubleCall(cfg: Config, bounds: Bounds, w: Store, b: nat) returns (labels: seq<Label>, t: nat, u: nat)
    requires WellFormed(cfg) && AllTerminate(cfg.systems, bounds)
    requires b < |cfg.systems| && Preds(cfg.edges, b) != {} && !Blocked(EdgeRelation(cfg.edges), b)
    ensures Run(cfg, Initial(cfg, w), labels)
    ensures var s := After(cfg, Initial(cfg, w), labels); UnderWay(s, t, u) && s.tasks[t].id == s.tasks[u].id == b
  {
    var front := DrainBefore(cfg, bounds, w, b);
    var s := After(cfg, Initial(cfg, w), front);
    t :| 0 <= t < |s.tasks| && s.tasks[t] == Task(b, Spawned);
    u := |s.tasks|;
    OneMore(cfg, Initial(cfg, w), front, Scan);
    Begin(cfg, w, front + [Scan], t);
    Begin(cfg, w, front + [Scan] + [Act(t)], u);
    labels := front + [Scan] + [Act(t)] + [Act(u)];
  }

  // ---------------------------------------------------------------- graphs without chains

  /** No dependent of a system has dependents itself. */
  ghost predicate Flat(edges: Edges) {
    forall p, k :: 0 <= p < |edges| && 0 <= k < |edges| && k in edges[p] ==> edges[k] == []
  }

  /** Only systems with predecessors can have two tasks. */
  ghost predicate RootsOnce(cfg: Config, s: State) {
    forall t, u :: 0 <= t < u < |s.tasks| && s.tasks[t].id == s.tasks[u].id ==> Preds(cfg.edges, s.tasks[t].id) != {}
  }

  predicate FlatTask(cfg: Config, s: State, t: nat)
    requires t < |s.tasks|
  {
    var task := s.tasks[t];
    && task.id < |cfg.edges| && (Preds(cfg.edges, task.id) == {} ==> task.id < s.scan)
    && (task.phase.Releasing? ==> task.phase.next <= |cfg.edges[task.id]|)
  }

  /** A counter counts the pending predecessors until the system is started; then there are none. */
  predicate FlatCounter(cfg: Config, s: State, k: nat)
    requires k < |s.counters|
  {
    if HasTask(s, k) then Pending(cfg, s, k) == {} else s.counters[k] == |Pending(cfg, s, k)|
  }

  ghost predicate FlatInv(cfg: Config, s: State) {
    && Shaped(cfg, s) && s.scan <= |s.counters| && RootsOnce(cfg, s)
    && (forall t :: 0 <= t < |s.tasks| ==> FlatTask(cfg, s, t))
    && (forall k :: 0 <= k < |s.counters| ==> FlatCounter(cfg, s, k))
  }

  lemma FlatInitial(cfg: Config, w: Store)
    requires WellFormed(cfg)
    ensures FlatInv(cfg, Initial(cfg, w))
  {
    var s := Initial(cfg, w);
    forall k | 0 <= k < |s.counters| ensures FlatCounter(cfg, s, k) {
      assert Pending(cfg, s, k) == Preds(cfg.edges, k);
    }
  }

  /** A system with dependents has no predecessor, and so one task at most. */
  lemma OneTask(cfg: Config, s: State, p: nat, k: nat, t: nat, u: nat)
    requires WellFormed(cfg) && Flat(cfg.edges) && RootsOnce(cfg, s)
    requires p < |cfg.edges| && k in cfg.edges[p] && t < |s.tasks| && u < |s.tasks|
    requires s.tasks[t].id == p && s.tasks[u].id == p
    ensures t == u
  {
    assert Preds(cfg.edges, p) == {};
  }

  /** Changing one task's phase changes what is released only for that task's system. */
  lemma FlatReleases(cfg: Config, s: State, t: nat, phase: Phase, p: nat, k: nat)
    requires WellFormed(cfg) && Flat(cfg.edges) && RootsOnce(cfg, s) && t < |s.tasks|
    requires p < |cfg.edges| && k in cfg.edges[p]
    ensures Released(cfg, SetPhase(s, t, phase), p, k) <==>
      if p == s.tasks[t].id then Passed(phase, cfg.edges[p], k) else Released(cfg, s, p, k)
    ensures s.tasks[t].id == p ==> (Released(cfg, s, p, k) <==> Passed(s.tasks[t].phase, cfg.edges[p], k))
  {
    var s' := SetPhase(s, t, phase);
    assert s'.tasks[t].id == s.tasks[t].id && s'.tasks[t].phase == phase;
    forall u | 0 <= u < |s.tasks| && u != t
      ensures s'.tasks[u] == s.tasks[u] && (s.tasks[u].id == p ==> s.tasks[t].id != p)
    {
      if s.tasks[u].id == p && s.tasks[t].id == p { OneTask(cfg, s, p, k, t, u); }
    }
  }

  /** A task moves on without passing an edge. */
  lemma FlatQuietMove(cfg: Config, s: State, s': State, t: nat)
    requires WellFormed(cfg) && Flat(cfg.edges) && FlatInv(cfg, s) && t < |s.tasks|
    requires |s'.tasks| == |s.tasks| && |s'.counters| == |s.counters| && s'.scan == s.scan
    requires s'.tasks == s.tasks[t := s.tasks[t].(phase := s'.tasks[t].phase)]
    requires var id := s.tasks[t].id; s'.counters == s.counters[id := s'.counters[id]]
    requires FlatTask(cfg, s', t)
    requires var out := cfg.edges[s.tasks[t].id];
      forall k :: k in out ==> (Passed(s.tasks[t].phase, out, k) <==> Passed(s'.tasks[t].phase, out, k))
    ensures FlatInv(cfg, s')
  {
    var id := s.tasks[t].id;
    forall u | 0 <= u < |s'.tasks| ensures FlatTask(cfg, s', u) { assert FlatTask(cfg, s, u); }
    forall k | 0 <= k < |s'.counters| ensures FlatCounter(cfg, s', k) {
      assert FlatCounter(cfg, s, k);
      SetPhaseHasTask(s, t, s'.tasks[t].phase, k);
      assert HasTask(s', k) <==> HasTask(SetPhase(s, t, s'.tasks[t].phase), k);
      forall p | 0 <= p < |cfg.edges| && k in cfg.edges[p] ensures Released(cfg, s, p, k) <==> Released(cfg, s', p, k) {
        FlatReleases(cfg, s, t, s'.tasks[t].phase, p, k);
        assert Released(cfg, s', p, k) <==> Released(cfg, SetPhase(s, t, s'.tasks[t].phase), p, k);
      }
      PendingUnchanged(cfg, s, s', k);
      assert HasTask(s, id);
    }
  }

  /** Starting a system none of whose predecessors is pending. */
  lemma FlatSpawn(cfg: Config, s: State, id: nat)
    requires Shaped(cfg, s) && s.scan <= |s.counters| && RootsOnce(cfg, s) && id < |s.counters|
    requires forall t :: 0 <= t < |s.tasks| ==> FlatTask(cfg, s, t)
    requires forall k :: 0 <= k < |s.counters| && k != id ==> FlatCounter(cfg, s, k)
    requires Pending(cfg, s, id) == {}
    requires Preds(cfg.edges, id) == {} ==> id < s.scan && !HasTask(s, id)
    ensures FlatInv(cfg, Spawn(s, id))
  {
    var s' := Spawn(s, id);
    forall k | 0 <= k < |s'.counters| ensures FlatCounter(cfg, s', k) {
      if k != id { assert FlatCounter(cfg, s, k); }
      SpawnHasTask(s, id, k);
      forall p | 0 <= p < |cfg.edges| && k in cfg.edges[p] ensures Released(cfg, s, p, k) <==> Released(cfg, s', p, k) {
        SpawnReleases(cfg, s, id, p, k);
      }
      PendingUnchanged(cfg, s, s', k);
    }
    forall t | 0 <= t < |s'.tasks| ensures FlatTask(cfg, s', t) {
      if t < |s.tasks| { assert FlatTask(cfg, s, t); }
    }
  }

  lemma FlatScan(cfg: Config, s: State)
    requires WellFormed(cfg) && FlatInv(cfg, s) && Enabled(cfg, s, Scan)
    ensures FlatInv(cfg, Apply(cfg, s, Scan))
  {
    var s' := s.(scan := s.scan + 1);
    forall k | 0 <= k < |s'.counters|
      ensures FlatCounter(cfg, s', k) && Pending(cfg, s', k) == Pending(cfg, s, k)
    {
      assert FlatCounter(cfg, s, k);
      PendingUnchanged(cfg, s, s', k);
      assert HasTask(s', k) <==> HasTask(s, k);
    }
    forall t | 0 <= t < |s'.tasks|
      ensures FlatTask(cfg, s', t) && (Preds(cfg.edges, s.scan) == {} ==> s.tasks[t].id != s.scan)
    {
      assert FlatTask(cfg, s, t);
    }
    if s.counters[s.scan] == 0 {
      assert FlatCounter(cfg, s, s.scan);
      FlatSpawn(cfg, s', s.scan);
    }
  }

  lemma FlatBeforeDecrement(cfg: Config, s: State, t: nat)
    requires WellFormed(cfg) && Flat(cfg.edges) && FlatInv(cfg, s) && AtEdge(cfg, s, t)
    ensures var id := s.tasks[t].id; var d := cfg.edges[id][s.tasks[t].phase.next];
      && id in Pending(cfg, s, d) && !HasTask(s, d) && Preds(cfg.edges, d) != {}
      && 1 <= s.counters[d] == |Pending(cfg, s, d)| <= U32_MAX
  {
    var id, m := s.tasks[t].id, s.tasks[t].phase.next;
    var d := cfg.edges[id][m];
    assert FlatTask(cfg, s, t) && FlatCounter(cfg, s, d);
    assert d in cfg.edges[id] && d !in cfg.edges[id][..m];
    FlatReleases(cfg, s, t, Releasing(m + 1), id, d);
    assert id in Pending(cfg, s, d) && id in Preds(cfg.edges, d);
    PredsBounded(cfg, s, d);
  }

  lemma FlatDecrementReleases(cfg: Config, s: State, t: nat, p: nat, k: nat)
    requires WellFormed(cfg) && Flat(cfg.edges) && FlatInv(cfg, s) && AtEdge(cfg, s, t)
    requires p < |cfg.edges| && k in cfg.edges[p]
    ensures var m := s.tasks[t].phase.next; var d := cfg.edges[s.tasks[t].id][m];
      Released(cfg, Decrement(s, t, d, m), p, k) <==> Released(cfg, s, p, k) || (p == s.tasks[t].id && k == d)
  {
    var m := s.tasks[t].phase.next;
    var out := cfg.edges[s.tasks[t].id];
    assert out[..m + 1] == out[..m] + [out[m]];
    FlatReleases(cfg, s, t, Releasing(m + 1), p, k);
    assert Decrement(s, t, out[m], m).tasks == SetPhase(s, t, Releasing(m + 1)).tasks;
  }

  lemma FlatDecrementCounters(cfg: Config, s: State, t: nat, k: nat)
    requires WellFormed(cfg) && Flat(cfg.edges) && FlatInv(cfg, s) && AtEdge(cfg, s, t) && k < |s.counters|
    ensures var m := s.tasks[t].phase.next; var d := cfg.edges[s.tasks[t].id][m]; var s' := Decrement(s, t, d, m);
      if k == d then Pending(cfg, s', d) == Pending(cfg, s, d) - {s.tasks[t].id} else FlatCounter(cfg, s', k)
  {
    var m := s.tasks[t].phase.next;
    var d := cfg.edges[s.tasks[t].id][m];
    var s' := Decrement(s, t, d, m);
    forall p | 0 <= p < |cfg.edges| && k in cfg.edges[p]
      ensures Released(cfg, s', p, k) <==> Released(cfg, s, p, k) || (p == s.tasks[t].id && k == d)
    {
      FlatDecrementReleases(cfg, s, t, p, k);
    }
    if k != d {
      assert FlatCounter(cfg, s, k);
      DecrementHasTask(s, t, d, m, k);
      PendingUnchanged(cfg, s, s', k);
    }
  }

  lemma FlatRelease(cfg: Config, s: State, t: nat)
    requires WellFormed(cfg) && Flat(cfg.edges) && FlatInv(cfg, s) && AtEdge(cfg, s, t)
    ensures FlatInv(cfg, Apply(cfg, s, Act(t)))
  {
    var id, m := s.tasks[t].id, s.tasks[t].phase.next;
    var d := cfg.edges[id][m];
    var s' := Decrement(s, t, d, m);
    FlatBeforeDecrement(cfg, s, t);
    DecrementHasTask(s, t, d, m, d);
    forall u | 0 <= u < |s'.tasks| ensures FlatTask(cfg, s', u) { assert FlatTask(cfg, s, u); }
    forall k | 0 <= k < |s'.counters| && k != d ensures FlatCounter(cfg, s', k) { FlatDecrementCounters(cfg, s, t, k); }
    FlatDecrementCounters(cfg, s, t, d);
    assert s'.counters[d] == |Pending(cfg, s', d)|;
    if s'.counters[d] == 0 {
      FlatSpawn(cfg, s', d);
    } else {
      assert FlatCounter(cfg, s', d);
    }
  }

  /** Every step of the code as written keeps the counters of such a graph right. */
  lemma FlatStep(cfg: Config, s: State, l: Label)
    requires WellFormed(cfg) && Flat(cfg.edges) && FlatInv(cfg, s) && Enabled(cfg, s, l)
    ensures FlatInv(cfg, Apply(cfg, s, l))
  {
    match l
    case Scan => FlatScan(cfg, s);
    case Act(t) =>
      assert FlatTask(cfg, s, t);
      if AtEdge(cfg, s, t) {
        FlatRelease(cfg, s, t);
      } else {
        FlatQuietMove(cfg, s, Apply(cfg, s, l), t);
      }
  }

  lemma {:induction false} FlatRun(cfg: Config, w: Store, labels: seq<Label>)
    requires WellFormed(cfg) && Flat(cfg.edges) && Run(cfg, Initial(cfg, w), labels)
    ensures FlatInv(cfg, After(cfg, Initial(cfg, w), labels))
  {
    if labels == [] {
      FlatInitial(cfg, w);
    } else {
      var init := labels[..|labels| - 1];
      FlatRun(cfg, w, init);
      FlatStep(cfg, After(cfg, Initial(cfg, w), init), labels[|labels| - 1]);
    }
  }

  // ---------------------------------------------------------------- the exact condition

  /** No system that conflicts with an earlier one conflicts with a copy of itself. */
  predicate WaitersShare(systems: seq<System>) {
    forall i: nat, k: nat | i < k < |systems| :: Conflicting(systems, i, k) ==> !Exclusive(systems[k].access)
  }

  lemma EdgeIsConflict(cfg: Config, p: nat, k: nat)
    requires Scheduled(cfg) && NoSelfConflict(cfg.systems) && p < |cfg.edges| && k in cfg.edges[p]
    ensures Conflicting(cfg.systems, p, k)
  {
    EdgesConflict(AccessOf(cfg.systems), cfg.edges, p, k);
    SelfEdgeIffSelfConflict(AccessOf(cfg.systems), cfg.edges, p);
  }

  lemma SharingIsFlat(cfg: Config)
    requires Scheduled(cfg) && NoSelfConflict(cfg.systems) && WaitersShare(cfg.systems)
    ensures Flat(cfg.edges)
  {
    forall p, k | 0 <= p < |cfg.edges| && 0 <= k < |cfg.edges| && k in cfg.edges[p] ensures cfg.edges[k] == [] {
      EdgeIsConflict(cfg, p, k);
      if cfg.edges[k] != [] {
        var j := cfg.edges[k][0];
        EdgeIsConflict(cfg, k, j);
        SharedIsIndependent(cfg.systems[k].access, cfg.systems[j].access);
        assert false;
      }
    }
  }

  /** In such a graph two conflicting systems are joined by an edge. */
  lemma FlatConflictIsEdge(cfg: Config, i: nat, j: nat)
    requires Scheduled(cfg) && Flat(cfg.edges) && Conflicting(cfg.systems, i, j)
    ensures j in cfg.edges[i]
  {
    var lists := AccessOf(cfg.systems);
    assert lists[i] == cfg.systems[i].access && lists[j] == cfg.systems[j].access;
    ConflictingSystemsReach(lists, cfg.edges, i, j);
    var path :| PathFromTo(EdgeRelation(cfg.edges), path, i, j);
    assert EdgeRelation(cfg.edges)(path[0], path[0 + 1]);
    if |path| > 2 {
      NoChain(cfg.edges, path[0], path[1], path[1 + 1]);
      assert false;
    }
  }

  lemma NoChain(edges: Edges, p: nat, k: nat, j: nat)
    requires Flat(edges) && EdgeRelation(edges)(p, k)
    ensures !EdgeRelation(edges)(k, j)
  {
  }

  lemma FlatOrdered(cfg: Config, s: State, i: nat, j: nat, t: nat, u: nat)
    requires Scheduled(cfg) && Flat(cfg.edges) && FlatInv(cfg, s) && Conflicting(cfg.systems, i, j)
    requires t < |s.tasks| && u < |s.tasks| && s.tasks[t].id == i && s.tasks[u].id == j
    ensures !s.tasks[t].phase.Calling?
  {
    FlatConflictIsEdge(cfg, i, j);
    assert HasTask(s, j) && FlatCounter(cfg, s, j);
    assert i !in Pending(cfg, s, j);
    var v :| 0 <= v < |s.tasks| && s.tasks[v].id == i && Passed(s.tasks[v].phase, cfg.edges[i], j);
    OneTask(cfg, s, i, j, t, v);
  }

  lemma SharedCopies(cfg: Config, s: State, t: nat, u: nat)
    requires Scheduled(cfg) && NoSelfConflict(cfg.systems) && WaitersShare(cfg.systems) && RootsOnce(cfg, s)
    requires t < u < |s.tasks| && s.tasks[t].id == s.tasks[u].id < |cfg.systems|
    ensures Independent(cfg.systems, s.tasks[t].id, s.tasks[u].id)
  {
    var k := s.tasks[t].id;
    var p :| p in Preds(cfg.edges, k);
    EdgeIsConflict(cfg, p, k);
    SharedIsIndependent(cfg.systems[k].access, cfg.systems[k].access);
  }

  /** Calls under way at the same time are always independent. */
  ghost predicate AlwaysExclusive(cfg: Config, w: Store)
    requires WellFormed(cfg)
  {
    forall labels, t: nat, u: nat ::
      Run(cfg, Initial(cfg, w), labels) && UnderWay(After(cfg, Initial(cfg, w), labels), t, u) ==>
        Apart(cfg, After(cfg, Initial(cfg, w), labels), t, u)
  }

  ghost predicate Apart(cfg: Config, s: State, t: nat, u: nat)
    requires Shaped(cfg, s) && t < u < |s.tasks|
  {
    Independent(cfg.systems, s.tasks[t].id, s.tasks[u].id)
  }

  lemma SharingIsExclusive(cfg: Config, w: Store, labels: seq<Label>, t: nat, u: nat)
    requires Scheduled(cfg) && NoSelfConflict(cfg.systems) && WaitersShare(cfg.systems)
    requires Run(cfg, Initial(cfg, w), labels) && UnderWay(After(cfg, Initial(cfg, w), labels), t, u)
    ensures Apart(cfg, After(cfg, Initial(cfg, w), labels), t, u)
  {
    var s := After(cfg, Initial(cfg, w), labels);
    SharingIsFlat(cfg);
    FlatRun(cfg, w, labels);
    var i, j := s.tasks[t].id, s.tasks[u].id;
    if i == j {
      SharedCopies(cfg, s, t, u);
    } else if !Apart(cfg, s, t, u) {
      if SystemsConflict(cfg.systems[i].access, cfg.systems[j].access) {
        ConflictSymmetric(cfg.systems[i].access, cfg.systems[j].access);
      } else {
        ConflictSymmetric(cfg.systems[j].access, cfg.systems[i].access);
      }
      if i < j { FlatOrdered(cfg, s, i, j, t, u); } else { FlatOrdered(cfg, s, j, i, u, t); }
      assert false;
    }
  }

  /**
   Where no system conflicts with itself: no run of the code as written has two conflicting calls under way at
   once if and only if no system that conflicts with an earlier one declares a mutable access or the whole world.
   */
  lemma AlwaysExclusiveIff(cfg: Config, bounds: Bounds, w: Store)
    requires Scheduled(cfg) && NoSelfConflict(cfg.systems) && AllTerminate(cfg.systems, bounds)
    ensures AlwaysExclusive(cfg, w) <==> WaitersShare(cfg.systems)
  {
    if WaitersShare(cfg.systems) {
      forall labels, t: nat, u: nat
        | Run(cfg, Initial(cfg, w), labels) && UnderWay(After(cfg, Initial(cfg, w), labels), t, u)
        ensures Apart(cfg, After(cfg, Initial(cfg, w), labels), t, u)
      {
        SharingIsExclusive(cfg, w, labels, t, u);
      }
    } else {
      var i: nat, k: nat :| i < k < |cfg.systems| && Conflicting(cfg.systems, i, k) && Exclusive(cfg.systems[k].access);
      CallableAllIff(cfg.systems);
      WaiterIff(cfg, k);
      assert k in Callable(cfg.systems);
      ExclusiveIff(cfg.systems[k].access);
      var labels, t, u := DoubleCall(cfg, bounds, w, k);
      assert !Apart(cfg, After(cfg, Initial(cfg, w), labels), t, u);
    }
  }
}
