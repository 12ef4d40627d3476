/**
 Every run of the code as written ends: no system is started more than twice, and a task takes only so many steps.
 */
module AllRunsEnd {
  import opened Systems
  import opened Runtime
  import opened Termination
  import opened StartedTwice

  /** The work of the starts that are still possible, for the first `n` systems. */
  function StartsWork(cfg: Config, bounds: Bounds, tasks: seq<Task>, n: nat): nat
    requires |cfg.edges| == |cfg.systems| == |bounds|
  {
    if n == 0 then 0
    else
      var left := if CallsOf(tasks, n - 1) <= 2 then 2 - CallsOf(tasks, n - 1) else 0;
      StartsWork(cfg, bounds, tasks, n - 1) + left * TaskWork(cfg, bounds, Task(n - 1, Spawned))
  }

  /** The steps that are still possible: of the scan, of the tasks, and of the tasks to come. */
  function Potential(cfg: Config, bounds: Bounds, s: State): nat
    requires |cfg.edges| == |cfg.systems| == |bounds|
    requires s.scan <= |s.counters|
  {
    |s.counters| - s.scan + TasksWork(cfg, bounds, s.tasks) + StartsWork(cfg, bounds, s.tasks, |s.counters|)
  }

  lemma {:induction false} StartsSame(cfg: Config, bounds: Bounds, a: seq<Task>, b: seq<Task>, n: nat)
    requires |cfg.edges| == |cfg.systems| == |bounds|
    requires forall i :: 0 <= i < n ==> CallsOf(a, i) == CallsOf(b, i)
    ensures StartsWork(cfg, bounds, a, n) == StartsWork(cfg, bounds, b, n)
  {
    if n > 0 { StartsSame(cfg, bounds, a, b, n - 1); }
  }

  lemma OneStartLess(left: nat, work: nat)
    requires left > 0
    ensures left * work == (left - 1) * work + work
  {
  }

  lemma {:induction false} StartsLess(cfg: Config, bounds: Bounds, tasks: seq<Task>, id: nat, n: nat)
    requires |cfg.edges| == |cfg.systems| == |bounds| && id < n && CallsOf(tasks, id) <= 1
    ensures StartsWork(cfg, bounds, tasks + [Task(id, Spawned)], n) + TaskWork(cfg, bounds, Task(id, Spawned)) ==
      StartsWork(cfg, bounds, tasks, n)
  {
    CallsOfSpawn(tasks, id, n - 1);
    if id == n - 1 {
      forall i | 0 <= i < n - 1 ensures CallsOf(tasks, i) == CallsOf(tasks + [Task(id, Spawned)], i) {
        CallsOfSpawn(tasks, id, i);
      }
      StartsSame(cfg, bounds, tasks, tasks + [Task(id, Spawned)], n - 1);
      OneStartLess(2 - CallsOf(tasks, id), TaskWork(cfg, bounds, Task(id, Spawned)));
    } else {
      StartsLess(cfg, bounds, tasks, id, n - 1);
    }
  }

  /** A start moves its work from one sum to the other. */
  lemma SpawnKeepsPotential(cfg: Config, bounds: Bounds, s: State, id: nat)
    requires |cfg.edges| == |cfg.systems| == |bounds| && s.scan <= |s.counters|
    requires id < |s.counters| && CallsOf(Spawn(s, id).tasks, id) <= 2
    ensures Potential(cfg, bounds, Spawn(s, id)) == Potential(cfg, bounds, s)
  {
    CallsOfSpawn(s.tasks, id, id);
    StartsLess(cfg, bounds, s.tasks, id, |s.counters|);
    assert (s.tasks + [Task(id, Spawned)])[..|s.tasks|] == s.tasks;
  }

  lemma MovePotential(cfg: Config, bounds: Bounds, s: State, t: nat, s': State)
    requires |cfg.edges| == |cfg.systems| == |bounds| && s.scan == s'.scan <= |s.counters| == |s'.counters|
    requires t < |s.tasks| == |s'.tasks| && s'.tasks == s.tasks[t := s'.tasks[t]] && s'.tasks[t].id == s.tasks[t].id
    ensures Potential(cfg, bounds, s') + TaskWork(cfg, bounds, s.tasks[t]) ==
            Potential(cfg, bounds, s) + TaskWork(cfg, bounds, s'.tasks[t])
  {
    TasksWorkUpdate(cfg, bounds, s.tasks, t, s'.tasks[t]);
    forall i | 0 <= i < |s.counters| ensures CallsOf(s.tasks, i) == CallsOf(s'.tasks, i) {
      CallsOfMove(s.tasks, t, s'.tasks[t], i);
    }
    StartsSame(cfg, bounds, s.tasks, s'.tasks, |s.counters|);
  }

  lemma ReleasePotential(cfg: Config, bounds: Bounds, s: State, t: nat)
    requires WellFormed(cfg) && |bounds| == |cfg.systems| && Shaped(cfg, s) && s.scan <= |s.counters|
    requires AtEdge(cfg, s, t)
    requires forall i :: 0 <= i < |cfg.systems| ==> CallsOf(Apply(cfg, s, Act(t)).tasks, i) <= 2
    ensures Potential(cfg, bounds, Apply(cfg, s, Act(t))) < Potential(cfg, bounds, s)
  {
    var m := s.tasks[t].phase.next;
    var d := cfg.edges[s.tasks[t].id][m];
    var s' := Decrement(s, t, d, m);
    MovePotential(cfg, bounds, s, t, s');
    if s'.counters[d] == 0 {
      assert CallsOf(Apply(cfg, s, Act(t)).tasks, d) <= 2;
      SpawnKeepsPotential(cfg, bounds, s', d);
    }
  }

  lemma ScanPotential(cfg: Config, bounds: Bounds, s: State)
    requires WellFormed(cfg) && |bounds| == |cfg.systems| && Shaped(cfg, s) && Enabled(cfg, s, Scan)
    requires forall i :: 0 <= i < |cfg.systems| ==> CallsOf(Apply(cfg, s, Scan).tasks, i) <= 2
    ensures Potential(cfg, bounds, Apply(cfg, s, Scan)) < Potential(cfg, bounds, s)
  {
    if s.counters[s.scan] == 0 {
      assert CallsOf(Apply(cfg, s, Scan).tasks, s.scan) <= 2;
      SpawnKeepsPotential(cfg, bounds, s, s.scan);
    }
  }

  /** Every step of the code as written that starts no system a third time lowers the potential. */
  lemma StepPotential(cfg: Config, bounds: Bounds, s: State, l: Label)
    requires WellFormed(cfg) && AllTerminate(cfg.systems, bounds)
    requires TwiceInv(cfg, s) && Enabled(cfg, s, l)
    requires forall i :: 0 <= i < |cfg.systems| ==> CallsOf(Apply(cfg, s, l).tasks, i) <= 2
    ensures Apply(cfg, s, l).scan <= |Apply(cfg, s, l).counters|
    ensures Potential(cfg, bounds, Apply(cfg, s, l)) < Potential(cfg, bounds, s)
  {
    match l
    case Scan => ScanPotential(cfg, bounds, s);
    case Act(t) =>
      assert Terminates(cfg.systems[s.tasks[t].id], bounds[s.tasks[t].id]);
      if AtEdge(cfg, s, t) {
        ReleasePotential(cfg, bounds, s, t);
      } else {
        MovePotential(cfg, bounds, s, t, Apply(cfg, s, l));
      }
  }

  lemma {:induction false} RunPotential(cfg: Config, bounds: Bounds, w: Store, labels: seq<Label>)
    requires WellFormed(cfg) && AllTerminate(cfg.systems, bounds) && Run(cfg, Initial(cfg, w), labels)
    ensures After(cfg, Initial(cfg, w), labels).scan <= |After(cfg, Initial(cfg, w), labels).counters|
    ensures |labels| + Potential(cfg, bounds, After(cfg, Initial(cfg, w), labels)) <=
      Potential(cfg, bounds, Initial(cfg, w))
  {
    TwiceRun(cfg, w, labels);
    if labels != [] {
      var init := labels[..|labels| - 1];
      RunPotential(cfg, bounds, w, init);
      TwiceRun(cfg, w, init);
      forall i | 0 <= i < |cfg.systems| ensures CallsOf(After(cfg, Initial(cfg, w), labels).tasks, i) <= 2 {
        AtMostTwice(cfg, w, labels, i);
      }
      StepPotential(cfg, bounds, After(cfg, Initial(cfg, w), init), labels[|labels| - 1]);
    }
  }

  /** No run takes more than `n` steps. */
  ghost predicate EndWithin(cfg: Config, w: Store, n: nat)
    requires WellFormed(cfg)
  {
    forall labels :: Run(cfg, Initial(cfg, w), labels) ==> |labels| <= n
  }

  /** There is a bound on the length of every run of the code as written, whatever conflicts there are. */
  lemma EveryRunEnds(cfg: Config, bounds: Bounds, w: Store)
    requires WellFormed(cfg) && AllTerminate(cfg.systems, bounds)
    ensures exists n: nat :: EndWithin(cfg, w, n)
  {
    var n := Potential(cfg, bounds, Initial(cfg, w));
    forall labels | Run(cfg, Initial(cfg, w), labels) ensures |labels| <= n {
      RunPotential(cfg, bounds, w, labels);
    }
    assert EndWithin(cfg, w, n);
  }
}
