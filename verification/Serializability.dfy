/** Conflicting systems are ordered at run time, and every complete run has the effect of the serial one. */
module Serializability {
  import opened Widths
  import opened Access
  import opened ScheduleGraph
  import opened GraphFacts
  import opened Systems
  import opened Serialization
  import opened Runtime

  function AccessOf(systems: seq<System>): AccessLists {
    seq(|systems|, i requires 0 <= i < |systems| => systems[i].access)
  }

  /** The configuration `schedule` produces. */
  ghost predicate Scheduled(cfg: Config)
    ensures Scheduled(cfg) ==> WellFormed(cfg)
  {
    && |cfg.systems| <= U32_MAX
    && IsScheduleGraph(AccessOf(cfg.systems), cfg.edges)
    && (EdgesPointForward(cfg.systems, cfg.edges); true)
  }

  lemma EdgesPointForward(systems: seq<System>, edges: Edges)
    requires IsScheduleGraph(AccessOf(systems), edges)
    ensures forall a, k :: 0 <= a < |edges| && 0 <= k < |edges[a]| ==> a <= edges[a][k] < |edges|
  {
    forall a, k | 0 <= a < |edges| && 0 <= k < |edges[a]| ensures a <= edges[a][k] < |edges| {
      EdgesConflict(AccessOf(systems), edges, a, edges[a][k]);
    }
  }

  predicate CallOver(phase: Phase) {
    phase.Releasing? || phase.Finished?
  }

  ghost predicate CallDone(s: State, i: nat) {
    exists t :: 0 <= t < |s.tasks| && s.tasks[t].id == i && CallOver(s.tasks[t].phase)
  }

  /** Along every path of the graph, a system is spawned only after the calls before it have returned. */
  lemma {:induction false} PathOrdersCalls(cfg: Config, s: State, path: seq<nat>)
    requires Inv(cfg, s) && IsPath(EdgeRelation(cfg.edges), path)
    requires path[|path| - 1] < |s.counters| && HasTask(s, path[|path| - 1])
    ensures path[0] < |cfg.edges| && CallDone(s, path[0])
    decreases |path|
  {
    var n := |path| - 1;
    var p, k := path[n - 1], path[n];
    assert EdgeRelation(cfg.edges)(path[n - 1], path[n - 1 + 1]);
    assert CounterRight(cfg, s, k);
    assert p !in Pending(cfg, s, k);
    assert Released(cfg, s, p, k);
    assert HasTask(s, p) && CallDone(s, p);
    if n > 1 {
      forall m | 0 <= m < n - 1 ensures EdgeRelation(cfg.edges)(path[..n][m], path[..n][m + 1]) {
        assert EdgeRelation(cfg.edges)(path[m], path[m + 1]);
      }
      PathOrdersCalls(cfg, s, path[..n]);
    }
  }

  /** Mutual exclusion and order: once the later of two conflicting systems is spawned, the call of the
      earlier one has returned. */
  lemma ConflictOrdersCalls(cfg: Config, s: State, i: nat, j: nat)
    requires Scheduled(cfg) && Inv(cfg, s)
    requires i < j < |cfg.systems| && SystemsConflict(cfg.systems[i].access, cfg.systems[j].access)
    requires HasTask(s, j)
    ensures CallDone(s, i)
  {
    var lists := AccessOf(cfg.systems);
    assert lists[i] == cfg.systems[i].access && lists[j] == cfg.systems[j].access;
    ConflictingSystemsReach(lists, cfg.edges, i, j);
    var path :| PathFromTo(EdgeRelation(cfg.edges), path, i, j);
    PathOrdersCalls(cfg, s, path);
  }

  lemma ConflictSymmetric(a: seq<AccessDesc>, b: seq<AccessDesc>)
    requires SystemsConflict(a, b)
    ensures SystemsConflict(b, a)
  {
  }

  /** No two calls that are under way at the same time belong to conflicting systems. */
  lemma OverlappingCallsIndependent(cfg: Config, s: State, t: nat, u: nat)
    requires Scheduled(cfg) && Inv(cfg, s)
    requires t < |s.tasks| && u < |s.tasks| && t != u
    requires s.tasks[t].phase.Calling? && s.tasks[u].phase.Calling?
    ensures Independent(cfg.systems, s.tasks[t].id, s.tasks[u].id)
  {
    var i, j := s.tasks[t].id, s.tasks[u].id;
    if !Independent(cfg.systems, i, j) {
      if SystemsConflict(cfg.systems[i].access, cfg.systems[j].access) {
        ConflictSymmetric(cfg.systems[i].access, cfg.systems[j].access);
      } else {
        ConflictSymmetric(cfg.systems[j].access, cfg.systems[i].access);
      }
      assert HasTask(s, i) && HasTask(s, j);
      if i < j { ConflictOrdersCalls(cfg, s, i, j); } else { ConflictOrdersCalls(cfg, s, j, i); }
      assert false;
    }
  }

  // ---------------------------------------------------------------- the trace of a run

  /** The systems whose calls move in the run, step by step. */
  ghost function TraceOf(cfg: Config, s: State, labels: seq<Label>): (trace: Trace)
    requires Shaped(cfg, s)
    ensures forall k :: 0 <= k < |trace| ==> trace[k] < |cfg.systems|
  {
    if labels == [] then []
    else
      var init, last := labels[..|labels| - 1], labels[|labels| - 1];
      TraceOf(cfg, s, init) + Moved(cfg, After(cfg, s, init), last)
  }

  /** The step label `l` takes inside a system's call, if it is one. */
  function Moved(cfg: Config, s: State, l: Label): (moved: Trace)
    requires Shaped(cfg, s)
    ensures |moved| <= 1
    ensures forall k :: 0 <= k < |moved| ==> moved[k] < |cfg.systems|
  {
    if l.Act? && l.task < |s.tasks| && s.tasks[l.task].phase.Calling?
      && !cfg.systems[s.tasks[l.task].id].done(s.tasks[l.task].phase.local)
    then [s.tasks[l.task].id] else []
  }

  /** The local memory of system `i` in the trace's effect agrees with what its task is doing. */
  predicate LocalAgrees(sys: System, local: Memory, phase: Phase) {
    match phase
    case Spawned => local == sys.start
    case Calling(l) => local == l
    case Releasing(_) => sys.done(local)
    case Finished => sys.done(local)
  }

  ghost predicate Simulates(cfg: Config, s: State, j: Joint) {
    && |j.locals| == |cfg.systems|
    && j.store == s.store
    && (forall t :: 0 <= t < |s.tasks| && s.tasks[t].id < |cfg.systems| ==>
          LocalAgrees(cfg.systems[s.tasks[t].id], j.locals[s.tasks[t].id], s.tasks[t].phase))
    && (forall i :: 0 <= i < |cfg.systems| && !HasTask(s, i) ==> j.locals[i] == cfg.systems[i].start)
  }

  /** What the step does to the joint memory of the calls. */
  function Follow(cfg: Config, s: State, l: Label, j: Joint): Joint
    requires Shaped(cfg, s) && |j.locals| == |cfg.systems|
  {
    if Moved(cfg, s, l) == [] then j else StepOf(cfg.systems, Moved(cfg, s, l)[0], j)
  }

  lemma NewTasksAreNew(cfg: Config, s: State, s': State, t: nat)
    requires Inv(cfg, s') && |s.tasks| <= t < |s'.tasks|
    requires forall u :: 0 <= u < |s.tasks| ==> s'.tasks[u].id == s.tasks[u].id
    ensures !HasTask(s, s'.tasks[t].id)
  {
  }

  lemma TaskFollows(cfg: Config, s: State, l: Label, j: Joint, t: nat)
    requires WellFormed(cfg) && Inv(cfg, s) && Enabled(cfg, s, l) && Timely(cfg, s, l) && Simulates(cfg, s, j)
    requires Inv(cfg, Apply(cfg, s, l)) && t < |Apply(cfg, s, l).tasks|
    ensures var task := Apply(cfg, s, l).tasks[t];
      LocalAgrees(cfg.systems[task.id], Follow(cfg, s, l, j).locals[task.id], task.phase)
  {
    var s' := Apply(cfg, s, l);
    if t >= |s.tasks| {
      NewTasksAreNew(cfg, s, s', t);
    } else {
      assert LocalAgrees(cfg.systems[s.tasks[t].id], j.locals[s.tasks[t].id], s.tasks[t].phase);
      if l.Act? && t != l.task {
        assert s'.tasks[t] == s.tasks[t] && s'.tasks[t].id != s'.tasks[l.task].id;
      }
    }
  }

  lemma SimulationStep(cfg: Config, s: State, l: Label, j: Joint)
    requires WellFormed(cfg) && Inv(cfg, s) && Enabled(cfg, s, l) && Timely(cfg, s, l)
    requires Simulates(cfg, s, j)
    ensures Simulates(cfg, Apply(cfg, s, l), Follow(cfg, s, l, j))
  {
    var s', j' := Apply(cfg, s, l), Follow(cfg, s, l, j);
    StepInv(cfg, s, l);
    forall i | 0 <= i < |cfg.systems| && !HasTask(s', i)
      ensures !HasTask(s, i) && j'.locals[i] == cfg.systems[i].start
    {
      forall u | 0 <= u < |s.tasks| ensures s.tasks[u].id != i { assert s'.tasks[u].id == s.tasks[u].id; }
    }
    forall t | 0 <= t < |s'.tasks|
      ensures LocalAgrees(cfg.systems[s'.tasks[t].id], j'.locals[s'.tasks[t].id], s'.tasks[t].phase)
    {
      TaskFollows(cfg, s, l, j, t);
    }
  }

  lemma TasksStay(cfg: Config, s: State, l: Label, i: nat)
    requires Shaped(cfg, s) && Enabled(cfg, s, l) && HasTask(s, i)
    ensures HasTask(Apply(cfg, s, l), i)
  {
    var t :| 0 <= t < |s.tasks| && s.tasks[t].id == i;
    assert Apply(cfg, s, l).tasks[t].id == i;
  }

  /** A system whose call has moved has a task. */
  lemma {:induction false} TracedHasTask(cfg: Config, s: State, labels: seq<Label>, i: nat)
    requires Shaped(cfg, s) && Run(cfg, s, labels)
    requires i in TraceOf(cfg, s, labels)
    ensures HasTask(After(cfg, s, labels), i)
  {
    var init, last := labels[..|labels| - 1], labels[|labels| - 1];
    var before := After(cfg, s, init);
    if i in TraceOf(cfg, s, init) {
      TracedHasTask(cfg, s, init, i);
    } else {
      assert before.tasks[last.task].id == i;
    }
    TasksStay(cfg, before, last, i);
  }

  lemma {:induction false} RunSimulates(cfg: Config, w: Store, labels: seq<Label>)
    requires WellFormed(cfg) && TimelyRun(cfg, Initial(cfg, w), labels)
    ensures Simulates(cfg, After(cfg, Initial(cfg, w), labels),
                      Effect(cfg.systems, TraceOf(cfg, Initial(cfg, w), labels), StartAll(cfg.systems, w)))
  {
    if labels != [] {
      var init, last := labels[..|labels| - 1], labels[|labels| - 1];
      var s := After(cfg, Initial(cfg, w), init);
      var trace := TraceOf(cfg, Initial(cfg, w), init);
      RunSimulates(cfg, w, init);
      RunInv(cfg, w, init);
      SimulationStep(cfg, s, last, Effect(cfg.systems, trace, StartAll(cfg.systems, w)));
      if Moved(cfg, s, last) == [] {
        assert trace + [] == trace;
      } else {
        assert (trace + Moved(cfg, s, last))[..|trace|] == trace;
      }
    }
  }

  lemma {:induction false} TraceInversions(cfg: Config, w: Store, labels: seq<Label>)
    requires Scheduled(cfg) && TimelyRun(cfg, Initial(cfg, w), labels)
    ensures InversionsIndependent(cfg.systems, TraceOf(cfg, Initial(cfg, w), labels))
  {
    if labels != [] {
      var init, last := labels[..|labels| - 1], labels[|labels| - 1];
      var s := After(cfg, Initial(cfg, w), init);
      var before, trace := TraceOf(cfg, Initial(cfg, w), init), TraceOf(cfg, Initial(cfg, w), labels);
      TraceInversions(cfg, w, init);
      RunInv(cfg, w, init);
      forall p, q | 0 <= p < q < |trace| && trace[q] < trace[p] ensures Independent(cfg.systems, trace[p], trace[q]) {
        if q < |before| {
          assert trace[p] == before[p] && trace[q] == before[q];
        } else {
          assert trace[q] == Moved(cfg, s, last)[0] && trace[p] == before[p];
          TracedHasTask(cfg, Initial(cfg, w), init, trace[p]);
          StillCallingIsIndependent(cfg, s, last.task, trace[p]);
        }
      }
    }
  }

  lemma StillCallingIsIndependent(cfg: Config, s: State, t: nat, j: nat)
    requires Scheduled(cfg) && Inv(cfg, s)
    requires t < |s.tasks| && s.tasks[t].phase.Calling? && s.tasks[t].id < j < |cfg.systems| && HasTask(s, j)
    ensures Independent(cfg.systems, j, s.tasks[t].id)
  {
    var i := s.tasks[t].id;
    if !Independent(cfg.systems, j, i) {
      if SystemsConflict(cfg.systems[j].access, cfg.systems[i].access) {
        ConflictSymmetric(cfg.systems[j].access, cfg.systems[i].access);
      }
      ConflictOrdersCalls(cfg, s, i, j);
      assert false;
    }
  }

  /** The systems that have been started. */
  function Started(cfg: Config, s: State): set<nat> {
    set i | 0 <= i < |cfg.systems| && HasTask(s, i)
  }

  lemma StartedAreDone(cfg: Config, s: State, j: Joint)
    requires Simulates(cfg, s, j) && Quiescent(cfg, s)
    ensures forall i :: 0 <= i < |cfg.systems| && i in Started(cfg, s) ==> cfg.systems[i].done(j.locals[i])
  {
    forall i | 0 <= i < |cfg.systems| && i in Started(cfg, s) ensures cfg.systems[i].done(j.locals[i]) {
      var t :| 0 <= t < |s.tasks| && s.tasks[t].id == i;
      assert LocalAgrees(cfg.systems[i], j.locals[i], s.tasks[t].phase);
    }
  }

  /**
   Conflict-serializability: a maximal run leaves the store that calling the systems it has started one by one in
   registration order leaves. (Which those are is `Termination.MaximalRunStartsUnblocked`.)
   */
  lemma RunIsSerializable(cfg: Config, w: Store, labels: seq<Label>)
    requires Scheduled(cfg) && AllRespect(cfg.systems)
    requires TimelyRun(cfg, Initial(cfg, w), labels)
    requires Quiescent(cfg, After(cfg, Initial(cfg, w), labels))
    ensures var s := After(cfg, Initial(cfg, w), labels);
      SerialRun(cfg.systems, Started(cfg, s), w, s.store)
  {
    var trace, s := TraceOf(cfg, Initial(cfg, w), labels), After(cfg, Initial(cfg, w), labels);
    var j := Effect(cfg.systems, trace, StartAll(cfg.systems, w));
    RunSimulates(cfg, w, labels);
    TraceInversions(cfg, w, labels);
    StartedAreDone(cfg, s, j);
    forall k | 0 <= k < |trace| ensures trace[k] in Started(cfg, s) {
      TracedHasTask(cfg, Initial(cfg, w), labels, trace[k]);
    }
    InterleavingIsSerial(cfg.systems, Started(cfg, s), trace, w);
  }
}
