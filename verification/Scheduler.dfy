/** The `Scheduler` object: static in-degrees, live counters, and `run`. */
module Scheduler {
  import opened Widths
  import opened ScheduleGraph
  import opened Systems
  import opened Serialization
  import opened Runtime
  import opened Serializability
  import opened Termination

  function Count(edges: Edges, k: nat): nat {
    |Preds(edges, k)|
  }

  /** One more list of edges adds one predecessor to each system on it. */
  lemma CountOneMore(edges: Edges, a: nat, k: nat)
    requires a < |edges|
    ensures Count(edges[..a + 1], k) == Count(edges[..a], k) + if k in edges[a] then 1 else 0
  {
    var before, after := Preds(edges[..a], k), Preds(edges[..a + 1], k);
    assert a !in before;
    if k in edges[a] {
      assert after == before + {a};
    } else {
      assert after == before;
    }
  }

  class Scheduler {
    const systems: seq<System>
    const edges: Edges
    var inDegrees: seq<nat>
    var currInDegrees: seq<nat>

    function Cfg(): Config {
      Config(systems, edges)
    }

    ghost predicate Valid()
      reads this
    {
      && Scheduled(Cfg())
      && |inDegrees| == |systems|
      && (forall k :: 0 <= k < |systems| ==> inDegrees[k] == Count(edges, k))
      && |currInDegrees| == |systems|
    }

    /** The end of `ScheduleBuilder::schedule`: the graph is built, then the counters. */
    constructor (systems: seq<System>)
      requires |systems| <= U32_MAX
      ensures Valid() && this.systems == systems && currInDegrees == inDegrees
    {
      var graph := Schedule(AccessOf(systems));
      this.systems := systems;
      this.edges := graph;
      this.inDegrees := [];
      this.currInDegrees := [];
      new;
      BuildStaticInDegrees();
      ResetInDegrees();
    }

    method BuildStaticInDegrees()
      requires Scheduled(Cfg()) && inDegrees == []
      modifies this`inDegrees
      ensures |inDegrees| == |systems|
      ensures forall k :: 0 <= k < |systems| ==> inDegrees[k] == Count(edges, k)
    {
      inDegrees := seq(|systems|, _ => 0);
      for a := 0 to |edges|
        invariant |inDegrees| == |systems|
        invariant forall k :: 0 <= k < |systems| ==> inDegrees[k] == Count(edges[..a], k)
      {
        var out := edges[a];
        for m := 0 to |out|
          invariant |inDegrees| == |systems|
          invariant forall k :: 0 <= k < |systems| ==>
            inDegrees[k] == Count(edges[..a], k) + if k in out[..m] then 1 else 0
        {
          assert out[m] !in out[..m];
          assert out[..m + 1] == out[..m] + [out[m]];
          inDegrees := inDegrees[out[m] := inDegrees[out[m]] + 1];
        }
        assert out[..|out|] == out;
        forall k | 0 <= k < |systems| ensures inDegrees[k] == Count(edges[..a + 1], k) { CountOneMore(edges, a, k); }
      }
      assert edges[..|edges|] == edges;
    }

    method ResetInDegrees()
      modifies this`currInDegrees
      ensures currInDegrees == inDegrees
    {
      currInDegrees := seq(|inDegrees|, _ => U32_MAX);
      for k := 0 to |inDegrees|
        invariant |currInDegrees| == |inDegrees| && currInDegrees[..k] == inDegrees[..k]
      {
        currInDegrees := currInDegrees[k := inDegrees[k]];
        assert currInDegrees[..k + 1] == currInDegrees[..k] + [inDegrees[k]];
      }
    }

    /**
     `run`, every interleaving of it whose seed scan is timely: it always ends, and the store it leaves is that of
     the serial run of the systems it can call, which are all if none conflicts with itself. `bounds` limits the
     lengths of the calls.
     */
    method Run(store: Store, tick: nat, ghost bounds: Bounds) returns (store': Store, tick': nat)
      requires Valid() && AllRespect(systems) && AllTerminate(systems, bounds)
      modifies this`currInDegrees
      ensures Valid() && tick' == tick + 1
      ensures SerialRun(systems, Callable(systems), store, store')
      ensures forall k :: 0 <= k < |systems| ==> (k in Callable(systems) ==> currInDegrees[k] == U32_MAX)
      ensures NoSelfConflict(systems) <==> forall k :: 0 <= k < |systems| ==> k in Callable(systems)
    {
      ResetInDegrees();
      var cfg := Cfg();
      var first := State(currInDegrees, [], 0, store);
      assert first == Initial(cfg, store);
      ghost var labels;
      var last;
      last, labels := Execute(cfg, store, first, bounds);
      currInDegrees := last.counters;
      store', tick' := last.store, tick + 1;
      MaximalRunStartsUnblocked(cfg, store, labels);
      RunIsSerializable(cfg, store, labels);
      CallableAllIff(systems);
      RunInv(cfg, store, labels);
      forall k | 0 <= k < |systems| && k in Callable(systems) ensures currInDegrees[k] == U32_MAX {
        StartedIsMarked(cfg, last, k);
      }
    }
  }

  /** The scope inside `run`: steps in any order until nothing can move. */
  method Execute(cfg: Config, store: Store, first: State, ghost bounds: Bounds)
    returns (s: State, ghost labels: seq<Label>)
    requires WellFormed(cfg) && AllTerminate(cfg.systems, bounds)
    requires first == Initial(cfg, store)
    ensures TimelyRun(cfg, Initial(cfg, store), labels) && s == After(cfg, Initial(cfg, store), labels)
    ensures Quiescent(cfg, s)
  {
    s, labels := first, [];
    InitialInv(cfg, store);
    while !Quiescent(cfg, s)
      invariant TimelyRun(cfg, Initial(cfg, store), labels) && s == After(cfg, Initial(cfg, store), labels)
      invariant Inv(cfg, s)
      decreases Measure(cfg, bounds, s)
    {
      ghost var possible := NotStuck(cfg, s);
      var l :| Enabled(cfg, s, l) && Timely(cfg, s, l);
      MeasureFalls(cfg, bounds, s, l);
      StepInv(cfg, s, l);
      OneMore(cfg, Initial(cfg, store), labels, l);
      labels := labels + [l];
      s := Apply(cfg, s, l);
    }
  }

  /** At the end the marker is on every system that has been started. */
  lemma StartedIsMarked(cfg: Config, s: State, k: nat)
    requires Inv(cfg, s) && Quiescent(cfg, s) && HasTask(s, k)
    ensures k < |s.counters| && s.counters[k] == U32_MAX
  {
    var t :| 0 <= t < |s.tasks| && s.tasks[t].id == k;
    assert TaskRight(cfg, s, t);
  }
}
