/** Runs end, and a maximal run calls every system exactly once unless a system conflicts with itself. */
module Termination {
  import opened Access
  import opened GraphFacts
  import opened Systems
  import opened Runtime
  import opened Serializability

  /** A limit on the remaining steps of each system's call. */
  type Bounds = seq<Memory -> nat>

  ghost predicate AllTerminate(systems: seq<System>, bounds: Bounds) {
    |bounds| == |systems| && forall i :: 0 <= i < |systems| ==> Terminates(systems[i], bounds[i])
  }

  /** Steps a task still has to take. */
  function TaskWork(cfg: Config, bounds: Bounds, task: Task): (work: nat)
    requires |cfg.edges| == |cfg.systems| == |bounds|
  {
    if task.id >= |bounds| then 0
    else
      var out := |cfg.edges[task.id]|;
      match task.phase
      case Spawned => bounds[task.id](cfg.systems[task.id].start) + out + 3
      case Calling(local) => bounds[task.id](local) + out + 2
      case Releasing(k) => if k <= out then out - k + 1 else 0
      case Finished => 0
  }

  function TasksWork(cfg: Config, bounds: Bounds, tasks: seq<Task>): nat
    requires |cfg.edges| == |cfg.systems| == |bounds|
  {
    if tasks == [] then 0
    else TasksWork(cfg, bounds, tasks[..|tasks| - 1]) + TaskWork(cfg, bounds, tasks[|tasks| - 1])
  }

  /** Steps of those of the first `n` systems that have no task yet. */
  function UnspawnedWork(cfg: Config, bounds: Bounds, s: State, n: nat): nat
    requires |cfg.edges| == |cfg.systems| == |bounds|
  {
    if n == 0 then 0
    else
      UnspawnedWork(cfg, bounds, s, n - 1) +
      if HasTask(s, n - 1) then 0 else TaskWork(cfg, bounds, Task(n - 1, Spawned))
  }

  /** Steps the whole run still has to take. */
  function Measure(cfg: Config, bounds: Bounds, s: State): nat
    requires |cfg.edges| == |cfg.systems| == |bounds|
    requires s.scan <= |s.counters|
  {
    |s.counters| - s.scan + TasksWork(cfg, bounds, s.tasks) + UnspawnedWork(cfg, bounds, s, |s.counters|)
  }

  lemma {:induction false} TasksWorkUpdate(cfg: Config, bounds: Bounds, tasks: seq<Task>, t: nat, task: Task)
    requires |cfg.edges| == |cfg.systems| == |bounds| && t < |tasks|
    ensures TasksWork(cfg, bounds, tasks[t := task]) + TaskWork(cfg, bounds, tasks[t]) ==
            TasksWork(cfg, bounds, tasks) + TaskWork(cfg, bounds, task)
  {
    var n := |tasks| - 1;
    if t < n {
      assert tasks[t := task][..n] == tasks[..n][t := task];
      TasksWorkUpdate(cfg, bounds, tasks[..n], t, task);
    } else {
      assert tasks[t := task][..n] == tasks[..n];
    }
  }

  lemma {:induction false} UnspawnedSame(cfg: Config, bounds: Bounds, s: State, s': State, n: nat)
    requires |cfg.edges| == |cfg.systems| == |bounds|
    requires forall k :: 0 <= k < n ==> (HasTask(s, k) <==> HasTask(s', k))
    ensures UnspawnedWork(cfg, bounds, s, n) == UnspawnedWork(cfg, bounds, s', n)
  {
    if n > 0 { UnspawnedSame(cfg, bounds, s, s', n - 1); }
  }

  lemma {:induction false} UnspawnedLess(cfg: Config, bounds: Bounds, s: State, id: nat, n: nat)
    requires |cfg.edges| == |cfg.systems| == |bounds|
    requires !HasTask(s, id) && id < n
    ensures UnspawnedWork(cfg, bounds, Spawn(s, id), n) + TaskWork(cfg, bounds, Task(id, Spawned)) ==
      UnspawnedWork(cfg, bounds, s, n)
  {
    SpawnHasTask(s, id, n - 1);
    if id == n - 1 {
      forall k | 0 <= k < n - 1 ensures HasTask(s, k) <==> HasTask(Spawn(s, id), k) { SpawnHasTask(s, id, k); }
      UnspawnedSame(cfg, bounds, s, Spawn(s, id), n - 1);
    } else {
      UnspawnedLess(cfg, bounds, s, id, n - 1);
    }
  }

  /** Spawning a system that has no task yet moves its work from one sum to the other. */
  lemma SpawnKeepsMeasure(cfg: Config, bounds: Bounds, s: State, id: nat)
    requires |cfg.edges| == |cfg.systems| == |bounds| && s.scan <= |s.counters|
    requires !HasTask(s, id) && id < |s.counters|
    ensures Measure(cfg, bounds, Spawn(s, id)) == Measure(cfg, bounds, s)
  {
    UnspawnedLess(cfg, bounds, s, id, |s.counters|);
    assert (s.tasks + [Task(id, Spawned)])[..|s.tasks|] == s.tasks;
  }

  lemma MoveMeasure(cfg: Config, bounds: Bounds, s: State, s': State, t: nat)
    requires |cfg.edges| == |cfg.systems| == |bounds| && s.scan == s'.scan <= |s.counters| == |s'.counters|
    requires t < |s.tasks| == |s'.tasks| && s'.tasks == s.tasks[t := s'.tasks[t]] && s'.tasks[t].id == s.tasks[t].id
    ensures Measure(cfg, bounds, s') + TaskWork(cfg, bounds, s.tasks[t]) ==
            Measure(cfg, bounds, s) + TaskWork(cfg, bounds, s'.tasks[t])
  {
    TasksWorkUpdate(cfg, bounds, s.tasks, t, s'.tasks[t]);
    forall k | 0 <= k < |s.counters| ensures HasTask(s, k) <==> HasTask(s', k) {
      SetPhaseHasTask(s, t, s'.tasks[t].phase, k);
      assert SetPhase(s, t, s'.tasks[t].phase).tasks == s'.tasks;
    }
    UnspawnedSame(cfg, bounds, s, s', |s.counters|);
  }

  /** Every timely step strictly lowers the measure. */
  lemma MeasureFalls(cfg: Config, bounds: Bounds, s: State, l: Label)
    requires WellFormed(cfg) && AllTerminate(cfg.systems, bounds)
    requires Inv(cfg, s) && Enabled(cfg, s, l) && Timely(cfg, s, l)
    ensures Apply(cfg, s, l).scan <= |Apply(cfg, s, l).counters|
    ensures Measure(cfg, bounds, Apply(cfg, s, l)) < Measure(cfg, bounds, s)
  {
    match l
    case Scan => ScanMeasure(cfg, bounds, s);
    case Act(t) =>
      var id, phase := s.tasks[t].id, s.tasks[t].phase;
      assert TaskRight(cfg, s, t);
      if AtEdge(cfg, s, t) {
        ReleaseMeasure(cfg, bounds, s, t);
      } else {
        assert Terminates(cfg.systems[id], bounds[id]);
        MoveMeasure(cfg, bounds, s, Apply(cfg, s, l), t);
      }
  }

  lemma ScanMeasure(cfg: Config, bounds: Bounds, s: State)
    requires WellFormed(cfg) && |bounds| == |cfg.systems|
    requires Inv(cfg, s) && Enabled(cfg, s, Scan) && Timely(cfg, s, Scan)
    ensures Measure(cfg, bounds, Apply(cfg, s, Scan)) < Measure(cfg, bounds, s)
  {
    var s' := s.(scan := s.scan + 1);
    forall k | 0 <= k < |s.counters| ensures HasTask(s, k) <==> HasTask(s', k) {}
    UnspawnedSame(cfg, bounds, s, s', |s.counters|);
    if s.counters[s.scan] == 0 {
      forall t | 0 <= t < |s.tasks| ensures s.tasks[t].id != s.scan { assert TaskRight(cfg, s, t); }
      SpawnKeepsMeasure(cfg, bounds, s', s.scan);
    }
  }

  lemma ReleaseMeasure(cfg: Config, bounds: Bounds, s: State, t: nat)
    requires WellFormed(cfg) && |bounds| == |cfg.systems| && Inv(cfg, s) && AtEdge(cfg, s, t)
    ensures Measure(cfg, bounds, Apply(cfg, s, Act(t))) < Measure(cfg, bounds, s)
  {
    var m := s.tasks[t].phase.next;
    var d := cfg.edges[s.tasks[t].id][m];
    var s' := Decrement(s, t, d, m);
    MoveMeasure(cfg, bounds, s, s', t);
    if s'.counters[d] == 0 {
      BeforeDecrement(cfg, s, t);
      DecrementHasTask(s, t, d, m, d);
      SpawnKeepsMeasure(cfg, bounds, s', d);
    }
  }

  /** A run can take at most as many steps as the measure of its first state. */
  lemma {:induction false} RunsAreBounded(cfg: Config, bounds: Bounds, w: Store, labels: seq<Label>)
    requires WellFormed(cfg) && AllTerminate(cfg.systems, bounds)
    requires TimelyRun(cfg, Initial(cfg, w), labels)
    ensures After(cfg, Initial(cfg, w), labels).scan <= |cfg.systems|
    ensures |labels| + Measure(cfg, bounds, After(cfg, Initial(cfg, w), labels)) <=
      Measure(cfg, bounds, Initial(cfg, w))
  {
    RunInv(cfg, w, labels);
    if labels != [] {
      var init, last := labels[..|labels| - 1], labels[|labels| - 1];
      RunsAreBounded(cfg, bounds, w, init);
      RunInv(cfg, w, init);
      MeasureFalls(cfg, bounds, After(cfg, Initial(cfg, w), init), last);
    }
  }

  /** Deadlock freedom: unless everything has finished, a timely step is possible. */
  lemma NotStuck(cfg: Config, s: State) returns (l: Label)
    requires WellFormed(cfg) && Inv(cfg, s) && !Quiescent(cfg, s)
    ensures Enabled(cfg, s, l) && Timely(cfg, s, l)
  {
    if t :| 0 <= t < |s.tasks| && !s.tasks[t].phase.Finished? {
      l := Act(t);
    } else {
      l := Scan;
      assert CounterRight(cfg, s, s.scan);
      if HasTask(s, s.scan) {
        var t :| 0 <= t < |s.tasks| && s.tasks[t].id == s.scan;
        assert TaskRight(cfg, s, t);
      }
    }
  }

  /** Once the scan has passed `k` and every task below `k` has finished, every system below `k` has been
      called, unless it is behind a self-edge. */
  lemma {:induction false} FinishedBelow(cfg: Config, s: State, k: nat)
    requires WellFormed(cfg) && Inv(cfg, s) && k <= s.scan
    requires forall t :: 0 <= t < |s.tasks| && s.tasks[t].id < k ==> s.tasks[t].phase.Finished?
    ensures forall i :: 0 <= i < k && !Blocked(EdgeRelation(cfg.edges), i) ==> HasTask(s, i)
  {
    if k > 0 {
      FinishedBelow(cfg, s, k - 1);
      var i := k - 1;
      assert CounterRight(cfg, s, i);
      if !Blocked(EdgeRelation(cfg.edges), i) { NothingPending(cfg, s, i); }
    }
  }

  lemma NothingPending(cfg: Config, s: State, i: nat)
    requires WellFormed(cfg) && Inv(cfg, s) && i < |cfg.edges| && !Blocked(EdgeRelation(cfg.edges), i)
    requires forall p :: 0 <= p < i && !Blocked(EdgeRelation(cfg.edges), p) ==> HasTask(s, p)
    requires forall t :: 0 <= t < |s.tasks| && s.tasks[t].id < i ==> s.tasks[t].phase.Finished?
    ensures Pending(cfg, s, i) == {}
  {
    forall p | 0 <= p < |cfg.edges| && i in cfg.edges[p] ensures Released(cfg, s, p, i) {
      var m :| 0 <= m < |cfg.edges[p]| && cfg.edges[p][m] == i;
      if p == i || Blocked(EdgeRelation(cfg.edges), p) {
        BlockedStep(EdgeRelation(cfg.edges), p, i);
      }
      assert HasTask(s, p);
    }
  }

  /** Where the invariant holds, a system with a self-edge is not spawned. */
  lemma SelfEdgeNeverSpawned(cfg: Config, s: State, i: nat)
    requires Inv(cfg, s) && i < |cfg.edges| && i in cfg.edges[i]
    ensures !HasTask(s, i)
    ensures s.counters[i] > 0
  {
    forall t | 0 <= t < |s.tasks| ensures s.tasks[t].id != i { assert TaskRight(cfg, s, t); }
    assert CounterRight(cfg, s, i) && !Released(cfg, s, i, i);
    assert i in Pending(cfg, s, i);
  }

  /** Nor is a system behind one. */
  lemma BlockedNeverSpawned(cfg: Config, s: State, k: nat)
    requires Inv(cfg, s) && k < |s.counters| && Blocked(EdgeRelation(cfg.edges), k)
    ensures !HasTask(s, k)
  {
    if HasTask(s, k) {
      var i: nat :| EdgeRelation(cfg.edges)(i, i) && Reaches(EdgeRelation(cfg.edges), i, k);
      var path :| PathFromTo(EdgeRelation(cfg.edges), path, i, k);
      PathOrdersCalls(cfg, s, path);
      SelfEdgeNeverSpawned(cfg, s, i);
      assert HasTask(s, i);
    }
  }

  /** When nothing can move any more, exactly the systems that are not behind a self-edge have been started. */
  lemma QuiescentStartsUnblocked(cfg: Config, s: State, k: nat)
    requires WellFormed(cfg) && Inv(cfg, s) && Quiescent(cfg, s) && k < |cfg.systems|
    ensures HasTask(s, k) <==> !Blocked(EdgeRelation(cfg.edges), k)
  {
    if Blocked(EdgeRelation(cfg.edges), k) {
      BlockedNeverSpawned(cfg, s, k);
    } else {
      FinishedBelow(cfg, s, |cfg.systems|);
    }
  }

  /** Tasks that belong to system `i`. */
  function CallsOf(tasks: seq<Task>, i: nat): nat {
    if tasks == [] then 0
    else CallsOf(tasks[..|tasks| - 1], i) + if tasks[|tasks| - 1].id == i then 1 else 0
  }

  lemma {:induction false} CallsOfDistinct(s: State, n: nat, i: nat)
    requires TasksDistinct(s) && n <= |s.tasks|
    ensures CallsOf(s.tasks[..n], i) == if exists t :: 0 <= t < n && s.tasks[t].id == i then 1 else 0
  {
    if n > 0 {
      assert s.tasks[..n][..n - 1] == s.tasks[..n - 1];
      CallsOfDistinct(s, n - 1, i);
    }
  }

  lemma CallsOfOne(s: State, i: nat)
    requires TasksDistinct(s)
    ensures CallsOf(s.tasks, i) == if HasTask(s, i) then 1 else 0
  {
    CallsOfDistinct(s, |s.tasks|, i);
    assert s.tasks[..|s.tasks|] == s.tasks;
  }

  predicate EachCalledOnce(cfg: Config, s: State) {
    forall i :: 0 <= i < |cfg.systems| ==> CallsOf(s.tasks, i) == 1
  }

  predicate NoSelfConflict(systems: seq<System>) {
    forall i :: 0 <= i < |systems| ==> !SelfConflict(systems[i].access)
  }

  /** Some chain of conflicts leads to system `k` from a system that conflicts with itself. */
  ghost predicate Stuck(systems: seq<System>, k: nat) {
    Blocked(ConflictRelation(AccessOf(systems)), k)
  }

  /** The systems a run can call. */
  ghost function Callable(systems: seq<System>): set<nat> {
    set k | 0 <= k < |systems| && !Stuck(systems, k)
  }

  /**
   A maximal run with a timely seed scan calls exactly once each system that no chain of conflicts joins to an
   earlier self-conflicting one and that does not conflict with itself, and never any other.
   */
  lemma MaximalRunStartsUnblocked(cfg: Config, w: Store, labels: seq<Label>)
    requires Scheduled(cfg) && TimelyRun(cfg, Initial(cfg, w), labels)
    requires Quiescent(cfg, After(cfg, Initial(cfg, w), labels))
    ensures var s := After(cfg, Initial(cfg, w), labels);
      && Started(cfg, s) == Callable(cfg.systems)
      && forall i :: 0 <= i < |cfg.systems| ==> CallsOf(s.tasks, i) == if i in Callable(cfg.systems) then 1 else 0
  {
    var s := After(cfg, Initial(cfg, w), labels);
    RunInv(cfg, w, labels);
    forall i: nat | i < |cfg.systems|
      ensures HasTask(s, i) <==> i in Callable(cfg.systems)
      ensures CallsOf(s.tasks, i) == if HasTask(s, i) then 1 else 0
    {
      QuiescentStartsUnblocked(cfg, s, i);
      BlockedIff(AccessOf(cfg.systems), cfg.edges, i);
      CallsOfOne(s, i);
    }
  }

  lemma CallableAllIff(systems: seq<System>)
    ensures (forall k :: 0 <= k < |systems| ==> k in Callable(systems)) <==> NoSelfConflict(systems)
  {
    var conflict := ConflictRelation(AccessOf(systems));
    if NoSelfConflict(systems) {
      forall i: nat ensures !conflict(i, i) {
        assert i < |systems| ==> AccessOf(systems)[i] == systems[i].access;
      }
    } else {
      var k: nat :| k < |systems| && SelfConflict(systems[k].access);
      assert conflict(k, k);
      BlockedStep(conflict, k, k);
      assert k !in Callable(systems);
    }
  }

  /** Exactly once: a maximal run with a timely seed scan calls every system exactly once if and only if
      no system's own access list conflicts with itself. */
  lemma MaximalRunCallsEachOnceIff(cfg: Config, w: Store, labels: seq<Label>)
    requires Scheduled(cfg) && TimelyRun(cfg, Initial(cfg, w), labels)
    requires Quiescent(cfg, After(cfg, Initial(cfg, w), labels))
    ensures EachCalledOnce(cfg, After(cfg, Initial(cfg, w), labels)) <==> NoSelfConflict(cfg.systems)
  {
    MaximalRunStartsUnblocked(cfg, w, labels);
    CallableAllIff(cfg.systems);
  }
}
