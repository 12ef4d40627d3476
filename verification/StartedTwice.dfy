/**
 How often the code as written can start a system: at most twice, once by the decrement that empties its counter
 and once by the seed scan. The reason is that a counter that has been emptied wraps, and that there are not
 enough decrements to empty it again.
 */
module StartedTwice {
  import opened Widths
  import opened ScheduleGraph
  import opened Systems
  import opened Runtime
  import opened Serializability
  import opened Termination

  // ---------------------------------------------------------------- counting tasks

  /** The tasks of a system. */
  function TasksOf(tasks: seq<Task>, p: nat): set<nat> {
    set t | 0 <= t < |tasks| && tasks[t].id == p
  }

  lemma {:induction false} TasksOfCount(tasks: seq<Task>, p: nat)
    ensures |TasksOf(tasks, p)| == CallsOf(tasks, p)
  {
    if tasks != [] {
      var n := |tasks| - 1;
      TasksOfCount(tasks[..n], p);
      if tasks[n].id == p {
        assert TasksOf(tasks, p) == TasksOf(tasks[..n], p) + {n};
      } else {
        assert TasksOf(tasks, p) == TasksOf(tasks[..n], p);
      }
    }
  }

  /** The tasks that have decremented the counter of `k`. */
  function Decrementers(cfg: Config, tasks: seq<Task>, k: nat): set<nat> {
    set t | 0 <= t < |tasks| && tasks[t].id < |cfg.edges| && k in cfg.edges[tasks[t].id]
      && Passed(tasks[t].phase, cfg.edges[tasks[t].id], k)
  }

  /** Where no system of `ids` has more than two tasks, a set of their tasks has at most two for each. */
  lemma {:induction false} AtMostTwoEach(tasks: seq<Task>, some: set<nat>, ids: set<nat>)
    requires forall t :: t in some ==> t < |tasks| && tasks[t].id in ids
    requires forall p :: p in ids ==> CallsOf(tasks, p) <= 2
    ensures |some| <= 2 * |ids|
  {
    if ids == {} {
      assert some == {};
    } else {
      var p :| p in ids;
      var own := set t | t in some && tasks[t].id == p;
      AtMostTwoEach(tasks, some - own, ids - {p});
      TasksOfCount(tasks, p);
      Smaller(own, TasksOf(tasks, p));
      assert some == (some - own) + own;
    }
  }

  lemma {:induction false} Smaller(a: set<nat>, b: set<nat>)
    requires a <= b
    ensures |a| <= |b|
  {
    assert b == a + (b - a);
  }

  lemma CallsOfSpawn(tasks: seq<Task>, id: nat, p: nat)
    ensures CallsOf(tasks + [Task(id, Spawned)], p) == CallsOf(tasks, p) + if id == p then 1 else 0
  {
    assert (tasks + [Task(id, Spawned)])[..|tasks|] == tasks;
  }

  lemma {:induction false} CallsOfMove(tasks: seq<Task>, t: nat, task: Task, p: nat)
    requires t < |tasks| && task.id == tasks[t].id
    ensures CallsOf(tasks[t := task], p) == CallsOf(tasks, p)
  {
    var n := |tasks| - 1;
    if t < n {
      assert tasks[t := task][..n] == tasks[..n][t := task];
      CallsOfMove(tasks[..n], t, task, p);
    } else {
      assert tasks[t := task][..n] == tasks[..n];
    }
  }

  // ---------------------------------------------------------------- the invariant

  function Done(cfg: Config, s: State, k: nat): nat {
    |Decrementers(cfg, s.tasks, k)|
  }

  /** Once by the scan, which has to have read the counter, and once by the last predecessor to have decremented it. */
  predicate FewStarts(cfg: Config, s: State, k: nat) {
    var preds := |Preds(cfg.edges, k)|;
    CallsOf(s.tasks, k) <= (if k < s.scan then 1 else 0) + (if 0 < preds <= Done(cfg, s, k) then 1 else 0)
  }

  /** The counter counts down to zero once. After that it is zero only until the next decrement or call. */
  predicate CountsDown(cfg: Config, s: State, k: nat)
    requires k < |s.counters|
  {
    var preds, done, c := |Preds(cfg.edges, k)|, Done(cfg, s, k), s.counters[k];
    if done < preds then CallsOf(s.tasks, k) == 0 && c == preds - done
    else preds == 0 || (c == 0 && done == preds) || U32_MAX - (done - preds) <= c <= U32_MAX
  }

  /** Nothing comes before the first system: it is started by the scan or not at all. */
  predicate FirstOnce(cfg: Config, s: State) {
    CallsOf(s.tasks, 0) <= 1 && (Preds(cfg.edges, 0) != {} ==> CallsOf(s.tasks, 0) == 0)
  }

  ghost predicate TwiceInv(cfg: Config, s: State) {
    && Shaped(cfg, s) && s.scan <= |s.counters| && FirstOnce(cfg, s)
    && (forall t :: 0 <= t < |s.tasks| && s.tasks[t].phase.Releasing? ==>
          s.tasks[t].phase.next <= |cfg.edges[s.tasks[t].id]|)
    && (forall k :: 0 <= k < |s.counters| ==> FewStarts(cfg, s, k) && CountsDown(cfg, s, k))
  }

  lemma OthersBounded(preds: set<nat>, n: nat)
    requires n > 0 && forall p :: p in preds ==> p < n
    ensures |preds - {0}| < n && |preds| == |preds - {0}| + if 0 in preds then 1 else 0
  {
    BoundedSize(preds + {0}, n);
    assert preds + {0} == (preds - {0}) + {0};
    if 0 in preds {
      assert preds == (preds - {0}) + {0};
    } else {
      assert preds == preds - {0};
    }
  }

  /** The decrementers that belong to the first system, and the others. */
  function OfFirst(tasks: seq<Task>, some: set<nat>): set<nat> {
    set t | t in some && t < |tasks| && tasks[t].id == 0
  }

  lemma FirstDecrements(cfg: Config, tasks: seq<Task>, k: nat)
    requires CallsOf(tasks, 0) <= 1
    ensures |OfFirst(tasks, Decrementers(cfg, tasks, k))| <= if 0 in Preds(cfg.edges, k) then 1 else 0
  {
    var first := OfFirst(tasks, Decrementers(cfg, tasks, k));
    TasksOfCount(tasks, 0);
    Smaller(first, TasksOf(tasks, 0));
    if 0 !in Preds(cfg.edges, k) {
      forall t | t in Decrementers(cfg, tasks, k) ensures tasks[t].id != 0 {
        assert tasks[t].id in Preds(cfg.edges, k);
      }
      assert first == {};
    }
  }

  lemma OtherDecrements(cfg: Config, tasks: seq<Task>, k: nat)
    requires forall p :: 0 <= p < |cfg.edges| ==> CallsOf(tasks, p) <= 2
    ensures var all := Decrementers(cfg, tasks, k);
      |all - OfFirst(tasks, all)| <= 2 * |Preds(cfg.edges, k) - {0}|
  {
    var all, preds := Decrementers(cfg, tasks, k), Preds(cfg.edges, k);
    var others := all - OfFirst(tasks, all);
    forall t | t in others ensures tasks[t].id in preds - {0} { assert tasks[t].id in preds; }
    AtMostTwoEach(tasks, others, preds - {0});
  }

  lemma SplitSize(all: set<nat>, some: set<nat>)
    requires some <= all
    ensures |all| == |all - some| + |some|
  {
    assert all == (all - some) + some;
  }

  /** There are too few decrements to empty a counter again. */
  lemma TooFewDecrements(cfg: Config, tasks: seq<Task>, k: nat)
    requires WellFormed(cfg) && k < |cfg.edges| && CallsOf(tasks, 0) <= 1
    requires forall p :: 0 <= p < |cfg.edges| ==> CallsOf(tasks, p) <= 2
    ensures |Decrementers(cfg, tasks, k)| < |Preds(cfg.edges, k)| + U32_MAX
  {
    OtherDecrements(cfg, tasks, k);
    FirstDecrements(cfg, tasks, k);
    OthersBounded(Preds(cfg.edges, k), |cfg.edges|);
    SplitSize(Decrementers(cfg, tasks, k), OfFirst(tasks, Decrementers(cfg, tasks, k)));
  }

  // ---------------------------------------------------------------- steps

  lemma SpawnDone(cfg: Config, s: State, id: nat, k: nat)
    ensures Done(cfg, Spawn(s, id), k) == Done(cfg, s, k)
  {
    assert Decrementers(cfg, Spawn(s, id).tasks, k) == Decrementers(cfg, s.tasks, k);
  }

  /** A task that moves without passing an edge has decremented what it had. */
  lemma MoveDone(cfg: Config, s: State, t: nat, phase: Phase, k: nat)
    requires t < |s.tasks| && s.tasks[t].id < |cfg.edges|
    requires var out := cfg.edges[s.tasks[t].id];
      k in out ==> (Passed(s.tasks[t].phase, out, k) <==> Passed(phase, out, k))
    ensures Done(cfg, SetPhase(s, t, phase), k) == Done(cfg, s, k)
  {
    assert Decrementers(cfg, SetPhase(s, t, phase).tasks, k) == Decrementers(cfg, s.tasks, k);
  }

  lemma DecrementDone(cfg: Config, s: State, t: nat, k: nat)
    requires WellFormed(cfg) && AtEdge(cfg, s, t)
    ensures var m := s.tasks[t].phase.next; var d := cfg.edges[s.tasks[t].id][m];
      Done(cfg, SetPhase(s, t, Releasing(m + 1)), k) == Done(cfg, s, k) + if k == d then 1 else 0
  {
    var m := s.tasks[t].phase.next;
    var out := cfg.edges[s.tasks[t].id];
    var after := SetPhase(s, t, Releasing(m + 1));
    PassesOne(out, m, k);
    if k == out[m] {
      assert Decrementers(cfg, after.tasks, k) == Decrementers(cfg, s.tasks, k) + {t};
    } else {
      assert Decrementers(cfg, after.tasks, k) == Decrementers(cfg, s.tasks, k);
    }
  }

  lemma PassesOne(out: seq<nat>, m: nat, k: nat)
    requires StrictlyIncreasing(out) && m < |out|
    ensures Passed(Releasing(m + 1), out, k) <==> Passed(Releasing(m), out, k) || k == out[m]
    ensures !Passed(Releasing(m), out, out[m])
  {
    assert out[..m + 1] == out[..m] + [out[m]];
  }

  lemma HasCalls(tasks: seq<Task>, t: nat)
    requires t < |tasks|
    ensures CallsOf(tasks, tasks[t].id) > 0
  {
    TasksOfCount(tasks, tasks[t].id);
    assert t in TasksOf(tasks, tasks[t].id);
  }

  /** A system waiting for itself alone stays at one pending decrement. */
  lemma FirstNotDone(cfg: Config, tasks: seq<Task>)
    requires WellFormed(cfg) && CallsOf(tasks, 0) == 0
    ensures Decrementers(cfg, tasks, 0) == {}
  {
    if t :| t in Decrementers(cfg, tasks, 0) {
      var m :| 0 <= m < |cfg.edges[tasks[t].id]| && cfg.edges[tasks[t].id][m] == 0;
      HasCalls(tasks, t);
    }
  }

  lemma TwiceInitial(cfg: Config, w: Store)
    requires WellFormed(cfg)
    ensures TwiceInv(cfg, Initial(cfg, w))
  {
  }

  lemma TwiceScan(cfg: Config, s: State)
    requires WellFormed(cfg) && TwiceInv(cfg, s) && Enabled(cfg, s, Scan)
    ensures TwiceInv(cfg, Apply(cfg, s, Scan))
  {
    var s', k := Apply(cfg, s, Scan), s.scan;
    assert FewStarts(cfg, s, k) && CountsDown(cfg, s, k);
    if s.counters[k] == 0 {
      if k == 0 && Preds(cfg.edges, 0) != {} { FirstNotDone(cfg, s.tasks); }
      forall i | 0 <= i < |s'.counters| ensures FewStarts(cfg, s', i) && CountsDown(cfg, s', i) {
        assert FewStarts(cfg, s, i) && CountsDown(cfg, s, i);
        CallsOfSpawn(s.tasks, k, i);
        SpawnDone(cfg, s, k, i);
        assert Done(cfg, s', i) == Done(cfg, Spawn(s, k), i);
      }
      CallsOfSpawn(s.tasks, k, 0);
    } else {
      forall i | 0 <= i < |s'.counters| ensures FewStarts(cfg, s', i) && CountsDown(cfg, s', i) {
        assert FewStarts(cfg, s, i) && CountsDown(cfg, s, i) && Done(cfg, s', i) == Done(cfg, s, i);
      }
    }
  }

  /** A task moves on without passing an edge; at most it sets the marker of its own system. */
  lemma TwiceQuiet(cfg: Config, s: State, t: nat)
    requires WellFormed(cfg) && TwiceInv(cfg, s) && Enabled(cfg, s, Act(t)) && !AtEdge(cfg, s, t)
    ensures TwiceInv(cfg, Apply(cfg, s, Act(t)))
  {
    var s', id := Apply(cfg, s, Act(t)), s.tasks[t].id;
    var phase := s'.tasks[t].phase;
    HasCalls(s.tasks, t);
    assert s'.tasks == s.tasks[t := s.tasks[t].(phase := phase)] && s'.scan == s.scan;
    assert s'.counters == s.counters || s'.counters == s.counters[id := U32_MAX];
    forall i | 0 <= i < |s'.counters| ensures FewStarts(cfg, s', i) && CountsDown(cfg, s', i) {
      assert FewStarts(cfg, s, i) && CountsDown(cfg, s, i);
      CallsOfMove(s.tasks, t, s'.tasks[t], i);
      MoveDone(cfg, s, t, phase, i);
      assert Done(cfg, s', i) == Done(cfg, SetPhase(s, t, phase), i);
    }
    CallsOfMove(s.tasks, t, s'.tasks[t], 0);
  }

  /** What a decrement leaves: the invariant, but for the start it may decide. */
  lemma TwiceDecrement(cfg: Config, s: State, t: nat, i: nat)
    requires WellFormed(cfg) && TwiceInv(cfg, s) && AtEdge(cfg, s, t) && i < |s.counters|
    ensures var m := s.tasks[t].phase.next; var d := cfg.edges[s.tasks[t].id][m]; var s' := Decrement(s, t, d, m);
      && CallsOf(s'.tasks, i) == CallsOf(s.tasks, i) && FewStarts(cfg, s', i) && CountsDown(cfg, s', i)
      && (i == d && s'.counters[d] == 0 ==>
            CallsOf(s.tasks, d) == 0 && 0 < |Preds(cfg.edges, d)| == Done(cfg, s', d))
  {
    var id, m := s.tasks[t].id, s.tasks[t].phase.next;
    var d := cfg.edges[id][m];
    var s' := Decrement(s, t, d, m);
    assert FewStarts(cfg, s, i) && CountsDown(cfg, s, i);
    forall p | 0 <= p < |cfg.edges| ensures CallsOf(s'.tasks, p) == CallsOf(s.tasks, p) <= 2 {
      assert FewStarts(cfg, s, p);
      CallsOfMove(s.tasks, t, s'.tasks[t], p);
    }
    DecrementDone(cfg, s, t, i);
    assert s'.tasks == SetPhase(s, t, Releasing(m + 1)).tasks;
    assert Done(cfg, s', i) == Done(cfg, s, i) + if i == d then 1 else 0;
    CallsOfMove(s.tasks, t, s'.tasks[t], 0);
    TooFewDecrements(cfg, s'.tasks, i);
    assert id in Preds(cfg.edges, d);
    BoundedSize(Preds(cfg.edges, d), |cfg.edges|);
    if i == d { OneLess(s.counters[d]); }
  }

  lemma OneLess(c: nat)
    requires c <= U32_MAX
    ensures Decremented(c) == if c == 0 then U32_MAX else c - 1
  {
  }

  /** The decrement that empties a counter starts a system that has not been started. */
  lemma DecidedStart(cfg: Config, s: State, d: nat, i: nat)
    requires d < |s.counters| && i < |s.counters| && FewStarts(cfg, s, i) && CountsDown(cfg, s, i)
    requires CallsOf(s.tasks, d) == 0 && 0 < |Preds(cfg.edges, d)| == Done(cfg, s, d) && s.counters[d] == 0
    ensures FewStarts(cfg, Spawn(s, d), i) && CountsDown(cfg, Spawn(s, d), i)
  {
    CallsOfSpawn(s.tasks, d, i);
    SpawnDone(cfg, s, d, i);
  }

  lemma TwiceDecided(cfg: Config, s: State, d: nat)
    requires TwiceInv(cfg, s) && 0 < d < |s.counters|
    requires CallsOf(s.tasks, d) == 0 && 0 < |Preds(cfg.edges, d)| == Done(cfg, s, d) && s.counters[d] == 0
    ensures TwiceInv(cfg, Spawn(s, d))
  {
    forall i | 0 <= i < |s.counters| ensures FewStarts(cfg, Spawn(s, d), i) && CountsDown(cfg, Spawn(s, d), i) {
      DecidedStart(cfg, s, d, i);
    }
    CallsOfSpawn(s.tasks, d, 0);
  }

  /** No task decrements the counter of the first system. */
  lemma FirstIsNotReleased(cfg: Config, s: State, t: nat)
    requires WellFormed(cfg) && TwiceInv(cfg, s) && AtEdge(cfg, s, t)
    ensures cfg.edges[s.tasks[t].id][s.tasks[t].phase.next] > 0
  {
    HasCalls(s.tasks, t);
    assert s.tasks[t].id in Preds(cfg.edges, cfg.edges[s.tasks[t].id][s.tasks[t].phase.next]);
  }

  lemma TwiceDecremented(cfg: Config, s: State, t: nat)
    requires WellFormed(cfg) && TwiceInv(cfg, s) && AtEdge(cfg, s, t)
    ensures var m := s.tasks[t].phase.next; TwiceInv(cfg, Decrement(s, t, cfg.edges[s.tasks[t].id][m], m))
  {
    var m := s.tasks[t].phase.next;
    var s' := Decrement(s, t, cfg.edges[s.tasks[t].id][m], m);
    forall i | 0 <= i < |s'.counters| ensures FewStarts(cfg, s', i) && CountsDown(cfg, s', i) {
      TwiceDecrement(cfg, s, t, i);
    }
    CallsOfMove(s.tasks, t, s'.tasks[t], 0);
  }

  lemma TwiceRelease(cfg: Config, s: State, t: nat)
    requires WellFormed(cfg) && TwiceInv(cfg, s) && AtEdge(cfg, s, t)
    ensures TwiceInv(cfg, Apply(cfg, s, Act(t)))
  {
    var m := s.tasks[t].phase.next;
    var d := cfg.edges[s.tasks[t].id][m];
    FirstIsNotReleased(cfg, s, t);
    TwiceDecrement(cfg, s, t, d);
    TwiceDecremented(cfg, s, t);
    if Decrement(s, t, d, m).counters[d] == 0 { TwiceDecided(cfg, Decrement(s, t, d, m), d); }
  }

  lemma TwiceStep(cfg: Config, s: State, l: Label)
    requires WellFormed(cfg) && TwiceInv(cfg, s) && Enabled(cfg, s, l)
    ensures TwiceInv(cfg, Apply(cfg, s, l))
  {
    match l
    case Scan => TwiceScan(cfg, s);
    case Act(t) => if AtEdge(cfg, s, t) { TwiceRelease(cfg, s, t); } else { TwiceQuiet(cfg, s, t); }
  }

  lemma {:induction false} TwiceRun(cfg: Config, w: Store, labels: seq<Label>)
    requires WellFormed(cfg) && Run(cfg, Initial(cfg, w), labels)
    ensures TwiceInv(cfg, After(cfg, Initial(cfg, w), labels))
  {
    if labels == [] {
      TwiceInitial(cfg, w);
    } else {
      var init := labels[..|labels| - 1];
      TwiceRun(cfg, w, init);
      TwiceStep(cfg, After(cfg, Initial(cfg, w), init), labels[|labels| - 1]);
    }
  }

  /**
   In every run of the code as written, timely or not and whatever conflicts there are: a system is started at
   most once by the scan, after its counter has been read, and at most once by a predecessor, if it has one.
   */
  lemma AtMostTwice(cfg: Config, w: Store, labels: seq<Label>, i: nat)
    requires WellFormed(cfg) && Run(cfg, Initial(cfg, w), labels) && i < |cfg.systems|
    ensures var s := After(cfg, Initial(cfg, w), labels);
      CallsOf(s.tasks, i) <= (if i < s.scan then 1 else 0) + (if Preds(cfg.edges, i) == {} then 0 else 1)
    ensures CallsOf(After(cfg, Initial(cfg, w), labels).tasks, i) <= 2
  {
    TwiceRun(cfg, w, labels);
    assert FewStarts(cfg, After(cfg, Initial(cfg, w), labels), i);
  }

  /** That covers every schedule whose systems can be counted in 32 bits. */
  lemma NeverThrice(cfg: Config, w: Store)
    requires |cfg.systems| <= 4294967295 && IsScheduleGraph(AccessOf(cfg.systems), cfg.edges)
    ensures WellFormed(cfg)
    ensures forall labels, i: nat :: Run(cfg, Initial(cfg, w), labels) && i < |cfg.systems| ==>
      CallsOf(After(cfg, Initial(cfg, w), labels).tasks, i) <= 2
  {
    assert Scheduled(cfg);
    forall labels, i: nat | Run(cfg, Initial(cfg, w), labels) && i < |cfg.systems|
      ensures CallsOf(After(cfg, Initial(cfg, w), labels).tasks, i) <= 2
    {
      AtMostTwice(cfg, w, labels, i);
    }
  }
}
