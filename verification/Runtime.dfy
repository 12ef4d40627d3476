/**
 `Scheduler::run` as a transition system.

 Spawned closures are tasks; a task moves by one atomic step at a time and the tasks and the seed
 scan interleave arbitrarily. Nothing in the machine keeps two tasks of one system apart: that a
 system is started once is a property of runs, proved or refuted here.
 */
module Runtime {
  import opened Widths
  import opened ScheduleGraph
  import opened Systems

  datatype Config = Config(systems: seq<System>, edges: Edges)

  /** Spawned: not yet begun. Calling: inside `system.call`. Releasing(k): about to decrement the
      counter of the k-th dependent. */
  datatype Phase = Spawned | Calling(local: Memory) | Releasing(next: nat) | Finished

  datatype Task = Task(id: nat, phase: Phase)

  /** `scan` is the position of the seed scan over the live counters. */
  datatype State = State(counters: seq<nat>, tasks: seq<Task>, scan: nat, store: Store)

  datatype Label = Scan | Act(task: nat)

  /** A deduplicated graph over the systems without backward edges. Self-edges are allowed. */
  ghost predicate WellFormed(cfg: Config) {
    && |cfg.edges| == |cfg.systems| <= U32_MAX
    && (forall a :: 0 <= a < |cfg.edges| ==> StrictlyIncreasing(cfg.edges[a]))
    && (forall a, k :: 0 <= a < |cfg.edges| && 0 <= k < |cfg.edges[a]| ==> a <= cfg.edges[a][k] < |cfg.edges|)
  }

  function Preds(edges: Edges, k: nat): set<nat> {
    set p | 0 <= p < |edges| && k in edges[p]
  }

  function Initial(cfg: Config, w: Store): State {
    State(seq(|cfg.systems|, k requires k >= 0 => |Preds(cfg.edges, k)|), [], 0, w)
  }

  predicate Enabled(cfg: Config, s: State, l: Label) {
    match l
    case Scan => s.scan < |s.counters|
    case Act(t) => t < |s.tasks| && !s.tasks[t].phase.Finished?
  }

  predicate Shaped(cfg: Config, s: State) {
    && |s.counters| == |cfg.systems| == |cfg.edges|
    && (forall t :: 0 <= t < |s.tasks| ==> s.tasks[t].id < |cfg.systems|)
    && (forall a, k :: 0 <= a < |cfg.edges| && 0 <= k < |cfg.edges[a]| ==> cfg.edges[a][k] < |cfg.edges|)
  }

  /** `fetch_sub(1)` on an `AtomicU32`. */
  function Decremented(c: nat): nat {
    (c + U32_MAX) % (U32_MAX + 1)
  }

  function SetPhase(s: State, t: nat, phase: Phase): State
    requires t < |s.tasks|
  {
    s.(tasks := s.tasks[t := s.tasks[t].(phase := phase)])
  }

  function Spawn(s: State, id: nat): State {
    s.(tasks := s.tasks + [Task(id, Spawned)])
  }

  /** Task `t` decrements the counter of its `k`-th dependent `d`. */
  function Decrement(s: State, t: nat, d: nat, k: nat): State
    requires t < |s.tasks| && d < |s.counters|
  {
    SetPhase(s, t, Releasing(k + 1)).(counters := s.counters[d := Decremented(s.counters[d])])
  }

  /** One atomic step. */
  function Apply(cfg: Config, s: State, l: Label): State
    requires Shaped(cfg, s) && Enabled(cfg, s, l)
  {
    match l
    case Scan =>
      (if s.counters[s.scan] == 0 then Spawn(s, s.scan) else s).(scan := s.scan + 1)
    case Act(t) =>
      var id := s.tasks[t].id;
      match s.tasks[t].phase
      case Spawned =>
        SetPhase(s, t, Calling(cfg.systems[id].start)).(counters := s.counters[id := U32_MAX])
      case Calling(local) =>
        if cfg.systems[id].done(local) then SetPhase(s, t, Releasing(0))
        else
          var (local', store') := cfg.systems[id].step(local, s.store);
          SetPhase(s, t, Calling(local')).(store := store')
      case Releasing(k) =>
        if k < |cfg.edges[id]| then
          var s' := Decrement(s, t, cfg.edges[id][k], k);
          if s'.counters[cfg.edges[id][k]] == 0 then Spawn(s', cfg.edges[id][k]) else s'
        else SetPhase(s, t, Finished)
      case Finished => s
  }

  lemma ApplyShaped(cfg: Config, s: State, l: Label)
    requires Shaped(cfg, s) && Enabled(cfg, s, l)
    ensures Shaped(cfg, Apply(cfg, s, l))
  {
  }

  // ---------------------------------------------------------------- runs

  ghost predicate Run(cfg: Config, s: State, labels: seq<Label>)
    requires Shaped(cfg, s)
    ensures Run(cfg, s, labels) ==> Shaped(cfg, After(cfg, s, labels))
    decreases |labels|, 1
  {
    labels == [] ||
    var init, last := labels[..|labels| - 1], labels[|labels| - 1];
    Run(cfg, s, init) && Enabled(cfg, After(cfg, s, init), last)
  }

  ghost function After(cfg: Config, s: State, labels: seq<Label>): (r: State)
    requires Shaped(cfg, s)
    ensures Shaped(cfg, r)
    decreases |labels|, 0
  {
    if labels == [] then s
    else
      var before := After(cfg, s, labels[..|labels| - 1]);
      var last := labels[|labels| - 1];
      if Enabled(cfg, before, last) then
        ApplyShaped(cfg, before, last);
        Apply(cfg, before, last)
      else before
  }

  /** The seed scan picks up a system only if the static graph gives it no predecessor, not one whose
      live counter has just been decremented to zero. */
  predicate Timely(cfg: Config, s: State, l: Label) {
    l.Scan? && s.scan < |s.counters| && s.counters[s.scan] == 0 ==> Preds(cfg.edges, s.scan) == {}
  }

  ghost predicate TimelyRun(cfg: Config, s: State, labels: seq<Label>)
    requires Shaped(cfg, s)
    ensures TimelyRun(cfg, s, labels) ==> Run(cfg, s, labels)
    decreases |labels|
  {
    labels == [] ||
    var init, last := labels[..|labels| - 1], labels[|labels| - 1];
    TimelyRun(cfg, s, init) && Enabled(cfg, After(cfg, s, init), last) && Timely(cfg, After(cfg, s, init), last)
  }

  lemma OneMore(cfg: Config, s: State, labels: seq<Label>, l: Label)
    requires Shaped(cfg, s) && Run(cfg, s, labels) && Enabled(cfg, After(cfg, s, labels), l)
    ensures Run(cfg, s, labels + [l]) && After(cfg, s, labels + [l]) == Apply(cfg, After(cfg, s, labels), l)
    ensures TimelyRun(cfg, s, labels) && Timely(cfg, After(cfg, s, labels), l) ==> TimelyRun(cfg, s, labels + [l])
  {
  }

  /** Nothing can move any more: the scan is over and every spawned task has finished. */
  predicate Quiescent(cfg: Config, s: State) {
    s.scan >= |s.counters| && forall t :: 0 <= t < |s.tasks| ==> s.tasks[t].phase.Finished?
  }

  // ---------------------------------------------------------------- the invariant

  predicate HasTask(s: State, k: nat) {
    exists t :: 0 <= t < |s.tasks| && s.tasks[t].id == k
  }

  predicate TasksDistinct(s: State) {
    forall t, u :: 0 <= t < u < |s.tasks| ==> s.tasks[t].id != s.tasks[u].id
  }

  /** A task in this phase has already decremented the counter of `k`. */
  predicate Passed(phase: Phase, out: seq<nat>, k: nat) {
    phase.Finished? || (phase.Releasing? && phase.next <= |out| && k in out[..phase.next])
  }

  predicate Released(cfg: Config, s: State, p: nat, k: nat)
    requires p < |cfg.edges|
  {
    exists t :: 0 <= t < |s.tasks| && s.tasks[t].id == p && Passed(s.tasks[t].phase, cfg.edges[p], k)
  }

  /** Predecessors of `k` that have not decremented its counter yet. */
  function Pending(cfg: Config, s: State, k: nat): set<nat> {
    set p | 0 <= p < |cfg.edges| && k in cfg.edges[p] && !Released(cfg, s, p, k)
  }

  predicate CounterRight(cfg: Config, s: State, k: nat)
    requires k < |s.counters|
  {
    if HasTask(s, k) then
      Pending(cfg, s, k) == {}
    else
      && s.counters[k] == |Pending(cfg, s, k)|
      && (Pending(cfg, s, k) == {} ==> k >= s.scan && Preds(cfg.edges, k) == {})
  }

  predicate TaskRight(cfg: Config, s: State, t: nat)
    requires t < |s.tasks|
  {
    var task := s.tasks[t];
    && task.id < |cfg.edges| && task.id < |s.counters|
    && task.id !in cfg.edges[task.id]
    && (task.phase.Releasing? ==> task.phase.next <= |cfg.edges[task.id]|)
    && (Preds(cfg.edges, task.id) == {} ==> task.id < s.scan)
    && (if task.phase.Spawned? then s.counters[task.id] == 0 else s.counters[task.id] == U32_MAX)
  }

  ghost predicate Inv(cfg: Config, s: State) {
    && Shaped(cfg, s) && s.scan <= |s.counters|
    && TasksDistinct(s)
    && (forall t :: 0 <= t < |s.tasks| ==> TaskRight(cfg, s, t))
    && (forall k :: 0 <= k < |s.counters| ==> CounterRight(cfg, s, k))
  }

  lemma InitialInv(cfg: Config, w: Store)
    requires WellFormed(cfg)
    ensures Inv(cfg, Initial(cfg, w))
  {
    var s := Initial(cfg, w);
    forall k | 0 <= k < |s.counters| ensures CounterRight(cfg, s, k) {
      assert Pending(cfg, s, k) == Preds(cfg.edges, k);
    }
  }

  /** If no task passes an additional edge and none appears or disappears, nobody's pending set changes. */
  lemma PendingUnchanged(cfg: Config, s: State, s': State, k: nat)
    requires forall p :: 0 <= p < |cfg.edges| && k in cfg.edges[p] ==>
      (Released(cfg, s, p, k) <==> Released(cfg, s', p, k))
    ensures Pending(cfg, s, k) == Pending(cfg, s', k)
  {
  }

  lemma SpawnReleases(cfg: Config, s: State, id: nat, p: nat, k: nat)
    requires p < |cfg.edges|
    ensures Released(cfg, Spawn(s, id), p, k) <==> Released(cfg, s, p, k)
  {
    var s' := Spawn(s, id);
    if t :| 0 <= t < |s.tasks| && s.tasks[t].id == p && Passed(s.tasks[t].phase, cfg.edges[p], k) {
      assert s'.tasks[t] == s.tasks[t];
    }
  }

  lemma SpawnHasTask(s: State, id: nat, k: nat)
    ensures HasTask(Spawn(s, id), k) <==> HasTask(s, k) || k == id
  {
    var s' := Spawn(s, id);
    assert s'.tasks[|s.tasks|].id == id;
    if t :| 0 <= t < |s.tasks| && s.tasks[t].id == k {
      assert s'.tasks[t].id == k;
    }
  }

  lemma SetPhaseHasTask(s: State, t: nat, phase: Phase, k: nat)
    requires t < |s.tasks|
    ensures HasTask(SetPhase(s, t, phase), k) <==> HasTask(s, k)
  {
    var s' := SetPhase(s, t, phase);
    if u :| 0 <= u < |s.tasks| && s.tasks[u].id == k {
      assert s'.tasks[u].id == k;
    }
  }

  /** Changing one task's phase changes what is released only for that task's system. */
  lemma SetPhaseReleases(cfg: Config, s: State, t: nat, phase: Phase, p: nat, k: nat)
    requires t < |s.tasks| && TasksDistinct(s) && p < |cfg.edges|
    ensures var id := s.tasks[t].id;
      Released(cfg, SetPhase(s, t, phase), p, k) <==>
        if p == id then Passed(phase, cfg.edges[p], k) else Released(cfg, s, p, k)
    ensures s.tasks[t].id == p ==> (Released(cfg, s, p, k) <==> Passed(s.tasks[t].phase, cfg.edges[p], k))
  {
    var s' := SetPhase(s, t, phase);
    assert s'.tasks[t].id == s.tasks[t].id && s'.tasks[t].phase == phase;
    forall u | 0 <= u < |s.tasks| && u != t ensures s'.tasks[u] == s.tasks[u] && s.tasks[u].id != s.tasks[t].id {}
  }

  /** A task moves on without passing an edge: the counters of others and all pending sets stay. */
  lemma {:induction false} QuietMoveInv(cfg: Config, s: State, s': State, t: nat)
    requires Inv(cfg, s) && t < |s.tasks|
    requires |s'.tasks| == |s.tasks| && |s'.counters| == |s.counters| && s'.scan == s.scan
    requires s'.tasks == s.tasks[t := s.tasks[t].(phase := s'.tasks[t].phase)]
    requires var id := s.tasks[t].id; s'.counters == s.counters[id := s'.counters[id]]
    requires TaskRight(cfg, s', t)
    requires var out := cfg.edges[s.tasks[t].id];
      forall k :: k in out ==> (Passed(s.tasks[t].phase, out, k) <==> Passed(s'.tasks[t].phase, out, k))
    ensures Inv(cfg, s')
  {
    var id := s.tasks[t].id;
    forall u | 0 <= u < |s'.tasks| ensures TaskRight(cfg, s', u) {
      if u != t {
        assert s'.tasks[u] == s.tasks[u] && TaskRight(cfg, s, u);
        assert s.tasks[u].id != id;
      }
    }
    forall k | 0 <= k < |s'.counters| ensures CounterRight(cfg, s', k) {
      assert CounterRight(cfg, s, k);
      SetPhaseHasTask(s, t, s'.tasks[t].phase, k);
      assert HasTask(s', k) <==> HasTask(SetPhase(s, t, s'.tasks[t].phase), k);
      forall p | 0 <= p < |cfg.edges| && k in cfg.edges[p] ensures Released(cfg, s, p, k) <==> Released(cfg, s', p, k) {
        SetPhaseReleases(cfg, s, t, s'.tasks[t].phase, p, k);
        assert Released(cfg, s', p, k) <==> Released(cfg, SetPhase(s, t, s'.tasks[t].phase), p, k);
      }
      PendingUnchanged(cfg, s, s', k);
      assert HasTask(s, id);
    }
  }

  /** The invariant with system `id` left aside. */
  ghost predicate InvBut(cfg: Config, s: State, id: nat) {
    && Shaped(cfg, s) && s.scan <= |s.counters|
    && TasksDistinct(s)
    && (forall t :: 0 <= t < |s.tasks| ==> TaskRight(cfg, s, t))
    && (forall k :: 0 <= k < |s.counters| && k != id ==> CounterRight(cfg, s, k))
  }

  /** Spawning a system whose counter has reached zero, once, restores the invariant. */
  lemma SpawnInv(cfg: Config, s: State, id: nat)
    requires InvBut(cfg, s, id) && id < |s.counters|
    requires !HasTask(s, id) && s.counters[id] == 0 && Pending(cfg, s, id) == {}
    requires Preds(cfg.edges, id) == {} ==> id < s.scan
    ensures Inv(cfg, Spawn(s, id))
  {
    var s' := Spawn(s, id);
    forall k | 0 <= k < |s'.counters| ensures CounterRight(cfg, s', k) {
      if k != id { assert CounterRight(cfg, s, k); }
      SpawnHasTask(s, id, k);
      forall p | 0 <= p < |cfg.edges| && k in cfg.edges[p] ensures Released(cfg, s, p, k) <==> Released(cfg, s', p, k) {
        SpawnReleases(cfg, s, id, p, k);
      }
      PendingUnchanged(cfg, s, s', k);
    }
    assert id !in cfg.edges[id] by {
      assert id !in Pending(cfg, s, id);
    }
    forall t | 0 <= t < |s'.tasks| ensures TaskRight(cfg, s', t) {
      if t < |s.tasks| { assert TaskRight(cfg, s, t); }
    }
  }

  /** A timely step of the seed scan. */
  lemma ScanInv(cfg: Config, s: State)
    requires Inv(cfg, s) && Enabled(cfg, s, Scan) && Timely(cfg, s, Scan)
    ensures Inv(cfg, Apply(cfg, s, Scan))
  {
    var s' := s.(scan := s.scan + 1);
    assert CounterRight(cfg, s, s.scan);
    forall k | 0 <= k < |s'.counters|
      ensures Pending(cfg, s', k) == Pending(cfg, s, k) && (HasTask(s', k) <==> HasTask(s, k))
      ensures k != s.scan ==> CounterRight(cfg, s', k)
    {
      assert CounterRight(cfg, s, k);
      PendingUnchanged(cfg, s, s', k);
    }
    forall t | 0 <= t < |s'.tasks| ensures TaskRight(cfg, s', t) { assert TaskRight(cfg, s, t); }
    if s.counters[s.scan] == 0 {
      assert Pending(cfg, s, s.scan) == {};
      forall t | 0 <= t < |s.tasks| ensures s.tasks[t].id != s.scan { assert TaskRight(cfg, s, t); }
      SpawnInv(cfg, s', s.scan);
    } else {
      assert CounterRight(cfg, s', s.scan);
    }
  }

  ghost predicate AtEdge(cfg: Config, s: State, t: nat) {
    t < |s.tasks| && s.tasks[t].phase.Releasing? && s.tasks[t].id < |cfg.edges|
    && s.tasks[t].phase.next < |cfg.edges[s.tasks[t].id]|
  }

  /** Before a decrement the dependent is not spawned, and its counter counts the deciding predecessor. */
  lemma BeforeDecrement(cfg: Config, s: State, t: nat)
    requires WellFormed(cfg) && Inv(cfg, s) && AtEdge(cfg, s, t)
    ensures var id := s.tasks[t].id; var d := cfg.edges[id][s.tasks[t].phase.next];
      && d != id && id in Preds(cfg.edges, d) && id in Pending(cfg, s, d)
      && !HasTask(s, d)
      && 1 <= s.counters[d] == |Pending(cfg, s, d)| <= U32_MAX
  {
    var id, m := s.tasks[t].id, s.tasks[t].phase.next;
    var d := cfg.edges[id][m];
    assert TaskRight(cfg, s, t) && CounterRight(cfg, s, d);
    assert d in cfg.edges[id] && d !in cfg.edges[id][..m];
    SetPhaseReleases(cfg, s, t, Releasing(m + 1), id, d);
    assert id in Pending(cfg, s, d);
    PredsBounded(cfg, s, d);
  }

  /** A decrement releases exactly one edge. */
  lemma DecrementReleases(cfg: Config, s: State, t: nat, p: nat, k: nat)
    requires WellFormed(cfg) && Inv(cfg, s) && AtEdge(cfg, s, t)
    requires p < |cfg.edges|
    ensures var m := s.tasks[t].phase.next; var d := cfg.edges[s.tasks[t].id][m];
      Released(cfg, Decrement(s, t, d, m), p, k) <==> Released(cfg, s, p, k) || (p == s.tasks[t].id && k == d)
  {
    var m := s.tasks[t].phase.next;
    var out := cfg.edges[s.tasks[t].id];
    assert out[..m + 1] == out[..m] + [out[m]];
    SetPhaseReleases(cfg, s, t, Releasing(m + 1), p, k);
    assert Decrement(s, t, out[m], m).tasks == SetPhase(s, t, Releasing(m + 1)).tasks;
  }

  lemma DecrementHasTask(s: State, t: nat, d: nat, m: nat, k: nat)
    requires t < |s.tasks| && d < |s.counters|
    ensures HasTask(Decrement(s, t, d, m), k) <==> HasTask(s, k)
  {
    SetPhaseHasTask(s, t, Releasing(m + 1), k);
    assert Decrement(s, t, d, m).tasks == SetPhase(s, t, Releasing(m + 1)).tasks;
  }

  lemma DecrementCounters(cfg: Config, s: State, t: nat, k: nat)
    requires WellFormed(cfg) && Inv(cfg, s) && AtEdge(cfg, s, t) && k < |s.counters|
    ensures var m := s.tasks[t].phase.next; var d := cfg.edges[s.tasks[t].id][m]; var s' := Decrement(s, t, d, m);
      if k == d then Pending(cfg, s', d) == Pending(cfg, s, d) - {s.tasks[t].id} else CounterRight(cfg, s', k)
  {
    var m := s.tasks[t].phase.next;
    var d := cfg.edges[s.tasks[t].id][m];
    var s' := Decrement(s, t, d, m);
    forall p | 0 <= p < |cfg.edges| && k in cfg.edges[p]
      ensures Released(cfg, s', p, k) <==> Released(cfg, s, p, k) || (p == s.tasks[t].id && k == d)
    {
      DecrementReleases(cfg, s, t, p, k);
    }
    if k != d {
      assert CounterRight(cfg, s, k);
      DecrementHasTask(s, t, d, m, k);
      PendingUnchanged(cfg, s, s', k);
    }
  }

  lemma DecrementTasks(cfg: Config, s: State, t: nat)
    requires WellFormed(cfg) && Inv(cfg, s) && AtEdge(cfg, s, t)
    ensures var m := s.tasks[t].phase.next; var d := cfg.edges[s.tasks[t].id][m]; var s' := Decrement(s, t, d, m);
      Shaped(cfg, s') && TasksDistinct(s') && forall u :: 0 <= u < |s'.tasks| ==> TaskRight(cfg, s', u)
  {
    var m := s.tasks[t].phase.next;
    var d := cfg.edges[s.tasks[t].id][m];
    var s' := Decrement(s, t, d, m);
    BeforeDecrement(cfg, s, t);
    forall u | 0 <= u < |s'.tasks| ensures TaskRight(cfg, s', u) {
      assert TaskRight(cfg, s, u);
      assert HasTask(s, s.tasks[u].id);
    }
  }

  /** The invariant across a decrement: no counter underflows, and the dependent is spawned exactly when
      this was its last pending predecessor. */
  lemma ReleaseInv(cfg: Config, s: State, t: nat)
    requires WellFormed(cfg) && Inv(cfg, s) && AtEdge(cfg, s, t)
    ensures Inv(cfg, Apply(cfg, s, Act(t)))
    ensures var d := cfg.edges[s.tasks[t].id][s.tasks[t].phase.next];
      && !HasTask(s, d) && s.counters[d] > 0
      && (HasTask(Apply(cfg, s, Act(t)), d) <==> Pending(cfg, s, d) == {s.tasks[t].id})
  {
    var id, m := s.tasks[t].id, s.tasks[t].phase.next;
    var d := cfg.edges[id][m];
    var s' := Decrement(s, t, d, m);
    BeforeDecrement(cfg, s, t);
    DecrementTasks(cfg, s, t);
    DecrementHasTask(s, t, d, m, d);
    forall k | 0 <= k < |s'.counters| && k != d ensures CounterRight(cfg, s', k) { DecrementCounters(cfg, s, t, k); }
    DecrementCounters(cfg, s, t, d);
    assert s'.counters[d] == |Pending(cfg, s', d)|;
    if s'.counters[d] == 0 {
      SpawnInv(cfg, s', d);
      SpawnHasTask(s', d, d);
      assert Pending(cfg, s, d) == {id};
    } else {
      assert CounterRight(cfg, s', d);
    }
  }

  lemma PredsBounded(cfg: Config, s: State, k: nat)
    ensures |Pending(cfg, s, k)| <= |cfg.edges|
  {
    BoundedSize(Pending(cfg, s, k), |cfg.edges|);
  }

  lemma {:induction false} BoundedSize(a: set<nat>, n: nat)
    requires forall x :: x in a ==> x < n
    ensures |a| <= n
  {
    if n > 0 {
      BoundedSize(a - {n - 1}, n - 1);
    } else if x :| x in a {
      assert false;
    }
  }

  /** Every timely step keeps the invariant. */
  lemma StepInv(cfg: Config, s: State, l: Label)
    requires WellFormed(cfg) && Inv(cfg, s) && Enabled(cfg, s, l) && Timely(cfg, s, l)
    ensures Inv(cfg, Apply(cfg, s, l))
  {
    match l
    case Scan => ScanInv(cfg, s);
    case Act(t) =>
      assert TaskRight(cfg, s, t);
      if AtEdge(cfg, s, t) {
        ReleaseInv(cfg, s, t);
      } else {
        QuietMoveInv(cfg, s, Apply(cfg, s, l), t);
      }
  }

  lemma {:induction false} RunInv(cfg: Config, w: Store, labels: seq<Label>)
    requires WellFormed(cfg) && TimelyRun(cfg, Initial(cfg, w), labels)
    ensures Inv(cfg, After(cfg, Initial(cfg, w), labels))
  {
    if labels == [] {
      InitialInv(cfg, w);
    } else {
      RunInv(cfg, w, labels[..|labels| - 1]);
      StepInv(cfg, After(cfg, Initial(cfg, w), labels[..|labels| - 1]), labels[|labels| - 1]);
    }
  }
}
