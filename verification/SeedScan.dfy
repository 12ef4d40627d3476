/**
 The seed scan of `Scheduler::run` reads the live counters one by one while tasks it has already
 spawned may be running. This module says exactly when that starts a system twice.
 */
module SeedScan {
  import opened Access
  import opened GraphFacts
  import opened Systems
  import opened Serialization
  import opened Runtime
  import opened Serializability
  import opened Termination

  // ---------------------------------------------------------------- one run

  lemma DuplicatesStay(cfg: Config, s: State, l: Label)
    requires Shaped(cfg, s) && Enabled(cfg, s, l) && !TasksDistinct(s)
    ensures !TasksDistinct(Apply(cfg, s, l))
  {
    var t, u :| 0 <= t < u < |s.tasks| && s.tasks[t].id == s.tasks[u].id;
    var s' := Apply(cfg, s, l);
    assert s'.tasks[t].id == s.tasks[t].id && s'.tasks[u].id == s.tasks[u].id;
  }

  /** An untimely step of the scan starts a system that already has a task. */
  lemma UntimelyScanDuplicates(cfg: Config, s: State)
    requires Inv(cfg, s) && Enabled(cfg, s, Scan) && !Timely(cfg, s, Scan)
    ensures !TasksDistinct(Apply(cfg, s, Scan))
  {
    assert CounterRight(cfg, s, s.scan);
    var t :| 0 <= t < |s.tasks| && s.tasks[t].id == s.scan;
    var s' := Apply(cfg, s, Scan);
    assert s'.tasks[t].id == s'.tasks[|s.tasks|].id;
  }

  /** A run starts no system twice if and only if its seed scan only ever picks up systems without
      predecessors. */
  lemma {:induction false} StartedOnceIffTimely(cfg: Config, w: Store, labels: seq<Label>)
    requires WellFormed(cfg) && Run(cfg, Initial(cfg, w), labels)
    ensures TasksDistinct(After(cfg, Initial(cfg, w), labels)) <==> TimelyRun(cfg, Initial(cfg, w), labels)
  {
    if labels != [] {
      var init, last := labels[..|labels| - 1], labels[|labels| - 1];
      var s := After(cfg, Initial(cfg, w), init);
      StartedOnceIffTimely(cfg, w, init);
      if !TimelyRun(cfg, Initial(cfg, w), init) {
        DuplicatesStay(cfg, s, last);
      } else {
        RunInv(cfg, w, init);
        if Timely(cfg, s, last) { StepInv(cfg, s, last); } else { UntimelyScanDuplicates(cfg, s); }
      }
    }
  }

  // ---------------------------------------------------------------- an atomic scan

  ghost predicate ScansFirst(labels: seq<Label>, n: nat) {
    forall k :: 0 <= k < |labels| ==> (labels[k].Scan? <==> k < n)
  }

  /** As long as only the scan has moved, the counters are the static in-degrees. */
  lemma {:induction false} ScanOnly(cfg: Config, w: Store, labels: seq<Label>)
    requires WellFormed(cfg) && ScansFirst(labels, |labels|) && |labels| <= |cfg.systems|
    ensures TimelyRun(cfg, Initial(cfg, w), labels)
    ensures var s := After(cfg, Initial(cfg, w), labels);
      && s.scan == |labels| && s.counters == Initial(cfg, w).counters
      && forall t :: 0 <= t < |s.tasks| ==> s.tasks[t].phase.Spawned? && s.tasks[t].id < s.scan
  {
    if labels != [] {
      var init := labels[..|labels| - 1];
      assert ScansFirst(init, |init|);
      ScanOnly(cfg, w, init);
    }
  }

  /** If the whole scan happens before any task moves, the run is timely. */
  lemma {:induction false} AtomicScanIsTimely(cfg: Config, w: Store, labels: seq<Label>)
    requires WellFormed(cfg) && Run(cfg, Initial(cfg, w), labels) && ScansFirst(labels, |cfg.systems|)
    ensures TimelyRun(cfg, Initial(cfg, w), labels)
  {
    if |labels| <= |cfg.systems| {
      ScanOnly(cfg, w, labels);
    } else {
      var init := labels[..|labels| - 1];
      AtomicScanIsTimely(cfg, w, init);
    }
  }

  // ---------------------------------------------------------------- all runs

  /** The scan stands at `b`, and no task from `b` on has begun. */
  ghost predicate Holding(s: State, b: nat) {
    s.scan == b && forall t :: 0 <= t < |s.tasks| && s.tasks[t].id >= b ==> s.tasks[t].phase.Spawned?
  }

  lemma HoldingKept(cfg: Config, s: State, t: nat, b: nat)
    requires Shaped(cfg, s) && Holding(s, b) && Enabled(cfg, s, Act(t)) && s.tasks[t].id < b
    ensures Holding(Apply(cfg, s, Act(t)), b)
  {
  }

  /** Runs everything below `b` to its end, leaving the tasks from `b` on spawned and the scan where it is. */
  lemma {:induction false} RunBelow(cfg: Config, bounds: Bounds, w: Store, labels: seq<Label>, b: nat)
    returns (more: seq<Label>)
    requires WellFormed(cfg) && AllTerminate(cfg.systems, bounds) && TimelyRun(cfg, Initial(cfg, w), labels)
    requires b <= |cfg.systems| && Holding(After(cfg, Initial(cfg, w), labels), b)
    ensures TimelyRun(cfg, Initial(cfg, w), more) && Holding(After(cfg, Initial(cfg, w), more), b)
    ensures var s := After(cfg, Initial(cfg, w), more);
      forall t :: 0 <= t < |s.tasks| && s.tasks[t].id < b ==> s.tasks[t].phase.Finished?
    decreases Measure(cfg, bounds, After(cfg, Initial(cfg, w), labels))
  {
    var s := After(cfg, Initial(cfg, w), labels);
    if t :| 0 <= t < |s.tasks| && s.tasks[t].id < b && !s.tasks[t].phase.Finished? {
      var next := labels + [Act(t)];
      OneMore(cfg, Initial(cfg, w), labels, Act(t));
      RunInv(cfg, w, labels);
      MeasureFalls(cfg, bounds, s, Act(t));
      HoldingKept(cfg, s, t, b);
      more := RunBelow(cfg, bounds, w, next, b);
    } else {
      more := labels;
    }
  }

  /** When everything below `b` has finished before the scan reads the counter of `b`, it reads zero. */
  lemma CounterDrained(cfg: Config, s: State, b: nat)
    requires WellFormed(cfg) && Inv(cfg, s) && Holding(s, b)
    requires b < |cfg.systems| && Preds(cfg.edges, b) != {} && !Blocked(EdgeRelation(cfg.edges), b)
    requires forall t :: 0 <= t < |s.tasks| && s.tasks[t].id < b ==> s.tasks[t].phase.Finished?
    ensures Enabled(cfg, s, Scan) && !Timely(cfg, s, Scan) && s.scan == b && s.counters[b] == 0
    ensures Task(b, Spawned) in s.tasks
  {
    FinishedBelow(cfg, s, b);
    NothingPending(cfg, s, b);
    assert CounterRight(cfg, s, b);
    var t :| 0 <= t < |s.tasks| && s.tasks[t].id == b;
    assert TaskRight(cfg, s, t);
  }

  lemma ScanUpTo(cfg: Config, w: Store, b: nat) returns (labels: seq<Label>)
    requires WellFormed(cfg) && b <= |cfg.systems|
    ensures TimelyRun(cfg, Initial(cfg, w), labels) && Holding(After(cfg, Initial(cfg, w), labels), b)
  {
    labels := seq(b, _ => Scan);
    ScanOnly(cfg, w, labels);
  }

  lemma DrainBefore(cfg: Config, bounds: Bounds, w: Store, b: nat) returns (labels: seq<Label>)
    requires WellFormed(cfg) && AllTerminate(cfg.systems, bounds)
    requires b < |cfg.systems| && Preds(cfg.edges, b) != {} && !Blocked(EdgeRelation(cfg.edges), b)
    ensures TimelyRun(cfg, Initial(cfg, w), labels)
    ensures var s := After(cfg, Initial(cfg, w), labels);
      && Inv(cfg, s) && Enabled(cfg, s, Scan) && !Timely(cfg, s, Scan) && s.scan == b && s.counters[b] == 0
      && Task(b, Spawned) in s.tasks
  {
    var scans := ScanUpTo(cfg, w, b);
    labels := RunBelow(cfg, bounds, w, scans, b);
    RunInv(cfg, w, labels);
    CounterDrained(cfg, After(cfg, Initial(cfg, w), labels), b);
  }

  /** Whatever system has a predecessor and is not behind a self-edge can be started twice: scan up to it, let
      everything before it finish, and scan it. */
  lemma DoubleStart(cfg: Config, bounds: Bounds, w: Store, b: nat) returns (labels: seq<Label>)
    requires WellFormed(cfg) && AllTerminate(cfg.systems, bounds)
    requires b < |cfg.systems| && Preds(cfg.edges, b) != {} && !Blocked(EdgeRelation(cfg.edges), b)
    ensures Run(cfg, Initial(cfg, w), labels) && !TasksDistinct(After(cfg, Initial(cfg, w), labels))
  {
    var front := DrainBefore(cfg, bounds, w, b);
    UntimelyScanDuplicates(cfg, After(cfg, Initial(cfg, w), front));
    labels := front + [Scan];
    OneMore(cfg, Initial(cfg, w), front, Scan);
  }

  ghost predicate NeverStartsTwice(cfg: Config, w: Store)
    requires WellFormed(cfg)
  {
    forall labels :: Run(cfg, Initial(cfg, w), labels) ==> TasksDistinct(After(cfg, Initial(cfg, w), labels))
  }

  /** A system behind a self-edge is waiting for a counter that never gets to zero: the scan cannot pick it up. */
  lemma ScanOfBlockedIsTimely(cfg: Config, s: State)
    requires Inv(cfg, s) && Enabled(cfg, s, Scan)
    requires Preds(cfg.edges, s.scan) != {} ==> Blocked(EdgeRelation(cfg.edges), s.scan)
    ensures Timely(cfg, s, Scan)
  {
    if Preds(cfg.edges, s.scan) != {} {
      BlockedNeverSpawned(cfg, s, s.scan);
      assert CounterRight(cfg, s, s.scan);
    }
  }

  /** No system that waits for another can ever be called. */
  ghost predicate WaitersAreBlocked(cfg: Config) {
    forall k: nat :: k < |cfg.systems| && Preds(cfg.edges, k) != {} ==> Blocked(EdgeRelation(cfg.edges), k)
  }

  lemma {:induction false} BlockedWaitersAreTimely(cfg: Config, w: Store, labels: seq<Label>)
    requires WellFormed(cfg) && Run(cfg, Initial(cfg, w), labels) && WaitersAreBlocked(cfg)
    ensures TimelyRun(cfg, Initial(cfg, w), labels)
  {
    if labels != [] {
      var init, last := labels[..|labels| - 1], labels[|labels| - 1];
      BlockedWaitersAreTimely(cfg, w, init);
      RunInv(cfg, w, init);
      if last.Scan? { ScanOfBlockedIsTimely(cfg, After(cfg, Initial(cfg, w), init)); }
    }
  }

  /** For any graph: no run starts a system twice exactly if every system with a predecessor is behind a self-edge. */
  lemma NeverStartsTwiceIffBlocked(cfg: Config, bounds: Bounds, w: Store)
    requires WellFormed(cfg) && AllTerminate(cfg.systems, bounds)
    ensures NeverStartsTwice(cfg, w) <==> WaitersAreBlocked(cfg)
  {
    if WaitersAreBlocked(cfg) {
      forall labels | Run(cfg, Initial(cfg, w), labels) ensures TasksDistinct(After(cfg, Initial(cfg, w), labels)) {
        BlockedWaitersAreTimely(cfg, w, labels);
        RunInv(cfg, w, labels);
      }
    } else {
      var k: nat :| k < |cfg.systems| && Preds(cfg.edges, k) != {} && !Blocked(EdgeRelation(cfg.edges), k);
      var labels := DoubleStart(cfg, bounds, w, k);
    }
  }

  predicate Conflicting(systems: seq<System>, i: nat, k: nat) {
    i < k < |systems| && SystemsConflict(systems[i].access, systems[k].access)
  }

  /** Every system that conflicts with an earlier one has a self-conflicting system at the start of its conflicts. */
  ghost predicate ConflictsAreStuck(systems: seq<System>) {
    forall i: nat, k: nat :: Conflicting(systems, i, k) ==> Stuck(systems, k)
  }

  lemma WaiterIff(cfg: Config, k: nat)
    requires Scheduled(cfg) && k < |cfg.systems|
    ensures Preds(cfg.edges, k) != {} && !Blocked(EdgeRelation(cfg.edges), k) <==>
      (exists i: nat :: Conflicting(cfg.systems, i, k)) && !Stuck(cfg.systems, k)
  {
    var lists := AccessOf(cfg.systems);
    var conflict := ConflictRelation(lists);
    BlockedIff(lists, cfg.edges, k);
    PredecessorIff(lists, cfg.edges, k);
    assert Preds(cfg.edges, k) != {} <==> exists p: nat :: EdgeRelation(cfg.edges)(p, k) by {
      if p: nat :| EdgeRelation(cfg.edges)(p, k) { assert p in Preds(cfg.edges, k); }
      if Preds(cfg.edges, k) != {} {
        var p :| p in Preds(cfg.edges, k);
        assert EdgeRelation(cfg.edges)(p, k);
      }
    }
    if !Stuck(cfg.systems, k) {
      forall i: nat ensures conflict(i, k) <==> Conflicting(cfg.systems, i, k) {
        if conflict(i, k) && i == k { BlockedStep(conflict, k, k); }
      }
    }
  }

  /**
   With the scan as written, no run starts a system twice if and only if every system that conflicts with an
   earlier one is joined by a chain of conflicts to a self-conflicting system before it, or is one itself.
   */
  lemma NeverStartsTwiceIffStuck(cfg: Config, bounds: Bounds, w: Store)
    requires Scheduled(cfg) && AllTerminate(cfg.systems, bounds)
    ensures NeverStartsTwice(cfg, w) <==> ConflictsAreStuck(cfg.systems)
  {
    NeverStartsTwiceIffBlocked(cfg, bounds, w);
    forall k: nat | k < |cfg.systems|
      ensures Preds(cfg.edges, k) != {} && !Blocked(EdgeRelation(cfg.edges), k) <==>
        (exists i: nat :: Conflicting(cfg.systems, i, k)) && !Stuck(cfg.systems, k)
    {
      WaiterIff(cfg, k);
    }
  }

  predicate NoConflicts(systems: seq<System>) {
    forall i: nat, k: nat | i < k < |systems| :: !Conflicting(systems, i, k)
  }

  /** If no system conflicts with itself: if and only if no two systems conflict. */
  lemma NeverStartsTwiceIffNoConflicts(cfg: Config, bounds: Bounds, w: Store)
    requires Scheduled(cfg) && NoSelfConflict(cfg.systems) && AllTerminate(cfg.systems, bounds)
    ensures NeverStartsTwice(cfg, w) <==> NoConflicts(cfg.systems)
  {
    NeverStartsTwiceIffStuck(cfg, bounds, w);
    CallableAllIff(cfg.systems);
    forall i: nat, k: nat | Conflicting(cfg.systems, i, k) ensures !Stuck(cfg.systems, k) {
      assert k in Callable(cfg.systems);
    }
  }

  // ---------------------------------------------------------------- exactly once

  /** As long as something can move, a timely step is possible and lowers the measure. */
  lemma OneStep(cfg: Config, bounds: Bounds, w: Store, labels: seq<Label>) returns (more: seq<Label>)
    requires WellFormed(cfg) && AllTerminate(cfg.systems, bounds) && TimelyRun(cfg, Initial(cfg, w), labels)
    requires !Quiescent(cfg, After(cfg, Initial(cfg, w), labels))
    requires Inv(cfg, After(cfg, Initial(cfg, w), labels))
    ensures TimelyRun(cfg, Initial(cfg, w), more) && Inv(cfg, After(cfg, Initial(cfg, w), more))
    ensures Measure(cfg, bounds, After(cfg, Initial(cfg, w), more)) <
      Measure(cfg, bounds, After(cfg, Initial(cfg, w), labels))
  {
    var s := After(cfg, Initial(cfg, w), labels);
    var l := NotStuck(cfg, s);
    StepInv(cfg, s, l);
    OneMore(cfg, Initial(cfg, w), labels, l);
    MeasureFalls(cfg, bounds, s, l);
    more := labels + [l];
  }

  /** Some run gets to the end. */
  lemma {:induction false} ToTheEnd(cfg: Config, bounds: Bounds, w: Store, labels: seq<Label>)
    returns (all: seq<Label>)
    requires WellFormed(cfg) && AllTerminate(cfg.systems, bounds) && TimelyRun(cfg, Initial(cfg, w), labels)
    requires Inv(cfg, After(cfg, Initial(cfg, w), labels))
    ensures TimelyRun(cfg, Initial(cfg, w), all) && Quiescent(cfg, After(cfg, Initial(cfg, w), all))
    decreases Measure(cfg, bounds, After(cfg, Initial(cfg, w), labels))
  {
    if Quiescent(cfg, After(cfg, Initial(cfg, w), labels)) {
      all := labels;
    } else {
      var more := OneStep(cfg, bounds, w, labels);
      all := ToTheEnd(cfg, bounds, w, more);
    }
  }

  /** No run of the code as written starts a system twice, and every run that cannot go on has called each once. */
  ghost predicate CallsEachExactlyOnce(cfg: Config, w: Store)
    requires WellFormed(cfg)
  {
    NeverStartsTwice(cfg, w) && forall labels ::
      Run(cfg, Initial(cfg, w), labels) && Quiescent(cfg, After(cfg, Initial(cfg, w), labels)) ==>
        EachCalledOnce(cfg, After(cfg, Initial(cfg, w), labels))
  }

  /** With the scan as written, that is so if and only if no system conflicts with itself or with another. */
  lemma ExactlyOnceIff(cfg: Config, bounds: Bounds, w: Store)
    requires Scheduled(cfg) && AllTerminate(cfg.systems, bounds)
    ensures CallsEachExactlyOnce(cfg, w) <==> NoSelfConflict(cfg.systems) && NoConflicts(cfg.systems)
  {
    if NoSelfConflict(cfg.systems) {
      NeverStartsTwiceIffNoConflicts(cfg, bounds, w);
      forall labels | NeverStartsTwice(cfg, w)
          && Run(cfg, Initial(cfg, w), labels) && Quiescent(cfg, After(cfg, Initial(cfg, w), labels))
        ensures EachCalledOnce(cfg, After(cfg, Initial(cfg, w), labels))
      {
        StartedOnceIffTimely(cfg, w, labels);
        MaximalRunCallsEachOnceIff(cfg, w, labels);
      }
    } else {
      InitialInv(cfg, w);
      var labels := ToTheEnd(cfg, bounds, w, []);
      MaximalRunCallsEachOnceIff(cfg, w, labels);
    }
  }

  // ---------------------------------------------------------------- serializability of the code as written

  /**
   Any maximal run of the code as written that starts no system twice leaves the store of the serial run of
   exactly the systems that can be called.
   */
  lemma StartedOnceIsSerializable(cfg: Config, w: Store, labels: seq<Label>)
    requires Scheduled(cfg) && AllRespect(cfg.systems) && Run(cfg, Initial(cfg, w), labels)
    requires var s := After(cfg, Initial(cfg, w), labels); TasksDistinct(s) && Quiescent(cfg, s)
    ensures SerialRun(cfg.systems, Callable(cfg.systems), w, After(cfg, Initial(cfg, w), labels).store)
  {
    StartedOnceIffTimely(cfg, w, labels);
    RunIsSerializable(cfg, w, labels);
    MaximalRunStartsUnblocked(cfg, w, labels);
  }

  /** As long as no system has been started twice, conflicting calls are in order. */
  lemma StartedOnceIsOrdered(cfg: Config, w: Store, labels: seq<Label>, i: nat, j: nat)
    requires Scheduled(cfg) && Run(cfg, Initial(cfg, w), labels) && TasksDistinct(After(cfg, Initial(cfg, w), labels))
    requires Conflicting(cfg.systems, i, j) && HasTask(After(cfg, Initial(cfg, w), labels), j)
    ensures CallDone(After(cfg, Initial(cfg, w), labels), i)
  {
    StartedOnceIffTimely(cfg, w, labels);
    RunInv(cfg, w, labels);
    ConflictOrdersCalls(cfg, After(cfg, Initial(cfg, w), labels), i, j);
  }

  /** As long as no system has been started twice, two calls under way at the same time are independent. */
  lemma StartedOnceIsExclusive(cfg: Config, w: Store, labels: seq<Label>, t: nat, u: nat)
    requires Scheduled(cfg) && Run(cfg, Initial(cfg, w), labels) && TasksDistinct(After(cfg, Initial(cfg, w), labels))
    requires var s := After(cfg, Initial(cfg, w), labels);
      t < |s.tasks| && u < |s.tasks| && t != u && s.tasks[t].phase.Calling? && s.tasks[u].phase.Calling?
    ensures var s := After(cfg, Initial(cfg, w), labels); Independent(cfg.systems, s.tasks[t].id, s.tasks[u].id)
  {
    StartedOnceIffTimely(cfg, w, labels);
    RunInv(cfg, w, labels);
    OverlappingCallsIndependent(cfg, After(cfg, Initial(cfg, w), labels), t, u);
  }
}
