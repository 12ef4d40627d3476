/**
 Runs of the world as an object: calls on it are the steps of `WorldRuns`, and what the calls drop is what the
 ledger of the run says.
 */
module Sessions {
  import opened EntityRegistry
  import opened Tables
  import opened Storage
  import opened Worlds
  import WorldRuns

  datatype Command = Spawn(bundle: Bundle) | Insert(entity: Entity, bundle: Bundle) | Despawn(entity: Entity)

  /** What a call requires: a bundle of distinct types, an id to give, and for `insert` that it does not panic. */
  ghost predicate Possible(r: Registry, w: WorldData, c: Command)
    requires r.Valid() && Sound(w)
  {
    match c
    case Spawn(bundle) => bundle != [] && DistinctTypes(bundle) && r.CanAllocate()
    case Insert(e, bundle) => e in w.live ==> Insertable(w, e, bundle)
    case Despawn(_) => true
  }

  /** The step is this call; the handle of a spawned entity is for the registry to choose. */
  predicate IsCall(c: Command, step: WorldRuns.Step) {
    match c
    case Spawn(bundle) => step.Spawning? && step.bundle == bundle
    case Insert(e, bundle) => step == WorldRuns.Inserting(e, bundle)
    case Despawn(e) => step == WorldRuns.Despawning(e)
  }

  lemma DisjointIff(t: TableData, bundle: Bundle)
    ensures TypesOf(bundle) !! t.lookup.Keys <==> forall k :: 0 <= k < |bundle| ==> bundle[k].ty !in t.lookup
  {
    if bundle != [] {
      DisjointIff(t, bundle[..|bundle| - 1]);
    }
  }

  lemma InsertableIff(w: WorldData, e: Entity, bundle: Bundle)
    requires Sound(w) && e in w.live
    ensures var t := Home(w, e);
      Insertable(w, e, bundle) <==>
        && bundle != [] && DistinctTypes(bundle) && w.live[e].row < |t.entities|
        && forall k :: 0 <= k < |bundle| ==> bundle[k].ty !in t.lookup
  {
    DisjointIff(Home(w, e), bundle);
  }

  /** Whether `insert` can go on: everything it asserts or looks up. */
  method CanInsert(world: World, e: Entity, bundle: Bundle) returns (possible: bool)
    requires world.Valid()
    ensures possible <==> Possible(world.entities.Model(), world.Model(), Insert(e, bundle))
  {
    var meta := world.entities.GetMeta(e);
    if meta.None? {
      return true;
    }
    ghost var w := world.Model();
    LiveRow(w, e);
    var table := world.archetypes.tables[meta.value.table];
    assert table.Model() == Home(w, e);
    InsertableIff(w, e, bundle);
    possible := bundle != [] && DistinctTypes(bundle) && meta.value.row < |table.entities|
      && forall k :: 0 <= k < |bundle| ==> bundle[k].ty !in table.lookup;
  }

  /** One call on the world: a step of a run with everything it drops, or nothing if it is not possible. */
  method Perform(world: World, c: Command) returns (step: Option<WorldRuns.Step>, dropped: Bundle)
    requires world.Valid()
    modifies world.archetypes, world.archetypes.tables, world.entities
    ensures world.Valid()
    ensures forall t :: t in world.archetypes.tables ==> t in old(world.archetypes.tables) || fresh(t)
    ensures step.Some? <==> Possible(old(world.entities.Model()), old(world.Model()), c)
    ensures step.None? ==> world.Model() == old(world.Model()) && world.entities.Model() == old(world.entities.Model())
    ensures step.None? ==> dropped == []
    ensures step.Some? ==> IsCall(c, step.value) && Performed(old(world.Model()), step.value, world.Model(), dropped)
  {
    step, dropped := None, [];
    match c
    case Spawn(bundle) =>
      if bundle != [] && DistinctTypes(bundle) && world.entities.Model().CanAllocate() {
        var h := world.Spawn(bundle);
        step := Some(WorldRuns.Spawning(h, bundle));
      }
    case Insert(e, bundle) => step, dropped := PerformInsert(world, e, bundle);
    case Despawn(e) =>
      dropped := world.Despawn(e);
      step := Some(WorldRuns.Despawning(e));
  }

  /** From `w` the step leads to `w'`, and exactly what its ledger entry says has been dropped. */
  ghost predicate Performed(w: WorldData, step: WorldRuns.Step, w': WorldData, dropped: Bundle) {
    && WorldRuns.Allowed(w, step) && w' == WorldRuns.Do(w, step)
    && multiset(dropped) == WorldRuns.Entry(w, step).dropped
  }

  method PerformInsert(world: World, e: Entity, bundle: Bundle) returns (step: Option<WorldRuns.Step>, dropped: Bundle)
    requires world.Valid()
    modifies world.archetypes, world.archetypes.tables, world.entities
    ensures world.Valid()
    ensures forall t :: t in world.archetypes.tables ==> t in old(world.archetypes.tables) || fresh(t)
    ensures step.Some? <==> Possible(old(world.entities.Model()), old(world.Model()), Insert(e, bundle))
    ensures step.None? ==> world.Model() == old(world.Model()) && world.entities.Model() == old(world.entities.Model())
    ensures step.None? ==> dropped == []
    ensures step.Some? ==> step.value == WorldRuns.Inserting(e, bundle)
    ensures step.Some? ==> Performed(old(world.Model()), step.value, world.Model(), dropped)
  {
    step, dropped := None, [];
    var possible := CanInsert(world, e, bundle);
    if possible {
      step := Some(WorldRuns.Inserting(e, bundle));
      var meta := world.entities.GetMeta(e);
      if meta.Some? {
        dropped := world.Insert(e, bundle);
      }
    }
  }

  // ---------------------------------------------------------------- runs

  /** No value is dropped more often than it was stored, supplied or copied. */
  ghost predicate NotTooOften(w: WorldData, steps: seq<WorldRuns.Step>, dropped: seq<Component>)
    requires Sound(w) && WorldRuns.Run(w, steps)
  {
    forall v :: multiset(dropped)[v] <=
      AllValues(w)[v] + WorldRuns.Total(w, steps).supplied[v] + WorldRuns.Total(w, steps).copied[v]
  }

  /** A run of the object, as far as it has come: its steps are a run of `WorldRuns` that drops the same values. */
  ghost predicate Accounted(w: WorldData, steps: seq<WorldRuns.Step>, w': WorldData, dropped: seq<Component>) {
    && Sound(w) && WorldRuns.Run(w, steps) && w' == WorldRuns.After(w, steps)
    && multiset(dropped) == WorldRuns.Total(w, steps).dropped
    && NotTooOften(w, steps, dropped)
  }

  lemma NothingYet(w: WorldData)
    requires Sound(w)
    ensures Accounted(w, [], w, [])
  {
  }

  lemma OneMoreAccounted(w: WorldData, steps: seq<WorldRuns.Step>, mid: WorldData, dropped: seq<Component>,
      step: WorldRuns.Step, w': WorldData, more: Bundle)
    requires Accounted(w, steps, mid, dropped) && Performed(mid, step, w', more)
    ensures Accounted(w, steps + [step], w', dropped + more)
  {
    assert (steps + [step])[..|steps|] == steps;
    assert multiset(dropped + more) == multiset(dropped) + multiset(more);
    BalanceBounds(w, steps + [step], dropped + more);
  }

  lemma BalanceBounds(w: WorldData, steps: seq<WorldRuns.Step>, dropped: seq<Component>)
    requires Sound(w) && WorldRuns.Run(w, steps) && multiset(dropped) == WorldRuns.Total(w, steps).dropped
    ensures NotTooOften(w, steps, dropped)
  {
    WorldRuns.RunAccounts(w, steps);
    var l, after := WorldRuns.Total(w, steps), AllValues(WorldRuns.After(w, steps));
    forall v ensures multiset(dropped)[v] <= AllValues(w)[v] + l.supplied[v] + l.copied[v] {
      assert (after + l.dropped + l.removed)[v] == (AllValues(w) + l.supplied + l.copied)[v];
    }
  }

  /**
   What the calls of a run have dropped: with what is stored in the end and what insertions took out undropped it is
   what was stored before, supplied and copied. Where each insertion copied the entity's own row, every value
   stored or supplied is dropped once or still stored, and none both.
   */
  lemma DropsAreAccounted(w: WorldData, steps: seq<WorldRuns.Step>, w': WorldData, dropped: seq<Component>)
    requires Accounted(w, steps, w', dropped)
    ensures var l := WorldRuns.Total(w, steps);
      AllValues(w') + multiset(dropped) + l.removed == AllValues(w) + l.supplied + l.copied
    ensures WorldRuns.OwnRows(w, steps) ==>
      AllValues(w') + multiset(dropped) == AllValues(w) + WorldRuns.Total(w, steps).supplied
  {
    WorldRuns.RunAccounts(w, steps);
    if WorldRuns.OwnRows(w, steps) { WorldRuns.ConservedIff(w, steps); }
  }

  /** Something about the world, the steps taken and what has been dropped that every call keeps. */
  ghost predicate KeptByCalls(kept: (WorldData, seq<WorldRuns.Step>, seq<Component>) -> bool) {
    forall w, steps, dropped, step, w', more ::
      kept(w, steps, dropped) && Performed(w, step, w', more) ==> kept(w', steps + [step], dropped + more)
  }

  /** The steps are the calls, as many as were possible. */
  predicate AreCalls(commands: seq<Command>, steps: seq<WorldRuns.Step>) {
    |steps| <= |commands| && forall k :: 0 <= k < |steps| ==> IsCall(commands[k], steps[k])
  }

  lemma OneMoreCall(commands: seq<Command>, steps: seq<WorldRuns.Step>, step: WorldRuns.Step)
    requires AreCalls(commands, steps) && |steps| < |commands| && IsCall(commands[|steps|], step)
    ensures AreCalls(commands, steps + [step])
  {
  }

  /** The calls one by one, up to the first that is not possible. What every call keeps holds in the end. */
  method Repeat(world: World, commands: seq<Command>,
      ghost kept: (WorldData, seq<WorldRuns.Step>, seq<Component>) -> bool)
    returns (steps: seq<WorldRuns.Step>, dropped: seq<Component>)
    requires world.Valid() && kept(world.Model(), [], []) && KeptByCalls(kept)
    modifies world.archetypes, world.archetypes.tables, world.entities
    ensures world.Valid() && AreCalls(commands, steps) && kept(world.Model(), steps, dropped)
    ensures |steps| < |commands| ==> !Possible(world.entities.Model(), world.Model(), commands[|steps|])
  {
    steps, dropped := [], [];
    while |steps| < |commands|
      invariant world.Valid() && AreCalls(commands, steps) && kept(world.Model(), steps, dropped)
      invariant forall t :: t in world.archetypes.tables ==> t in old(world.archetypes.tables) || fresh(t)
      decreases |commands| - |steps|
    {
      assert forall i :: 0 <= i < |world.archetypes.tables| ==> world.archetypes.tables[i] in world.archetypes.tables;
      var step, more := Perform(world, commands[|steps|]);
      if step.None? {
        return;
      }
      OneMoreCall(commands, steps, step.value);
      steps, dropped := steps + [step.value], dropped + more;
    }
  }

  lemma AccountedIsKept(w: WorldData)
    ensures KeptByCalls((w', steps, dropped) => Accounted(w, steps, w', dropped))
  {
    forall mid, steps, dropped, step, w', more
      | Accounted(w, steps, mid, dropped) && Performed(mid, step, w', more)
      ensures Accounted(w, steps + [step], w', dropped + more)
    {
      OneMoreAccounted(w, steps, mid, dropped, step, w', more);
    }
  }

  /** Any calls on the world are a run, and drop what its ledger says. */
  method Session(world: World, commands: seq<Command>) returns (steps: seq<WorldRuns.Step>, dropped: seq<Component>)
    requires world.Valid()
    modifies world.archetypes, world.archetypes.tables, world.entities
    ensures world.Valid() && AreCalls(commands, steps)
    ensures |steps| < |commands| ==> !Possible(world.entities.Model(), world.Model(), commands[|steps|])
    ensures Accounted(old(world.Model()), steps, world.Model(), dropped)
  {
    ghost var w := world.Model();
    NothingYet(w);
    AccountedIsKept(w);
    steps, dropped := Repeat(world, commands, (w', steps, dropped) => Accounted(w, steps, w', dropped));
  }
}
