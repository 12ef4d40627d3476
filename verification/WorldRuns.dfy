/**
 All runs of `spawn`, `insert` and `despawn`: what the tables hold against what a map holds, and where every
 component value goes.
 */
module WorldRuns {
  import opened EntityRegistry
  import opened Tables
  import opened Placement
  import opened Storage

  datatype Step =
    | Spawning(handle: Entity, bundle: Bundle)
    | Inserting(entity: Entity, bundle: Bundle)
    | Despawning(entity: Entity)

  /** What a step requires of its caller: a handle that is not live, distinct types, types the entity does not have. */
  ghost predicate Allowed(w: WorldData, step: Step) {
    && Sound(w)
    && match step
       case Spawning(h, bundle) => h !in w.live && bundle != [] && DistinctTypes(bundle)
       case Inserting(e, bundle) => e in w.live ==> Insertable(w, e, bundle)
       case Despawning(_) => true
  }

  ghost function Do(w: WorldData, step: Step): WorldData
    requires Allowed(w, step)
  {
    match step
    case Spawning(h, bundle) => Storage.Spawn(w, h, bundle)
    case Inserting(e, bundle) => if e in w.live then Storage.Insert(w, e, bundle) else w
    case Despawning(e) => Storage.Despawn(w, e)
  }

  /** The same step on the map from entities to components. */
  function OnMap(c: Contents, step: Step): Contents {
    match step
    case Spawning(h, bundle) => c[h := AsMap(bundle)]
    case Inserting(e, bundle) => if e in c then c[e := c[e] + AsMap(bundle)] else c
    case Despawning(e) => c - {e}
  }

  /**
   Where values come from and go to: handed over, dropped, copied by `insert` out of the recorded row, and
   taken out of the tables by `insert` with the entity's own row.
   */
  datatype Ledger = Ledger(
    supplied: multiset<Component>, dropped: multiset<Component>,
    copied: multiset<Component>, removed: multiset<Component>)

  ghost function Entry(w: WorldData, step: Step): Ledger
    requires Allowed(w, step)
  {
    match step
    case Spawning(_, bundle) => Ledger(multiset(bundle), multiset{}, multiset{}, multiset{})
    case Inserting(e, bundle) =>
      if e in w.live then
        Ledger(multiset(bundle), multiset(InsertDrops(w, e, bundle)), multiset(Fetched(w, e)), multiset(Owned(w, e)))
      else Ledger(multiset{}, multiset{}, multiset{}, multiset{})
    case Despawning(e) =>
      Ledger(multiset{}, multiset(DespawnDrops(w, e)), multiset{}, multiset{})
  }

  ghost predicate Balanced(before: multiset<Component>, l: Ledger, after: multiset<Component>) {
    after + l.dropped + l.removed == before + l.supplied + l.copied
  }

  /** The recorded row, which `insert` reads, holds what the entity's own row holds. */
  ghost predicate OwnRow(w: WorldData, step: Step)
    requires Allowed(w, step)
  {
    step.Inserting? && step.entity in w.live ==>
      RowOf(Home(w, step.entity), w.live[step.entity].row) == Shows(w)[step.entity]
  }

  // ---------------------------------------------------------------- one step

  lemma SpawningAccounts(w: WorldData, h: Entity, bundle: Bundle)
    requires Allowed(w, Spawning(h, bundle))
    ensures Accounted(w, Spawning(h, bundle))
  {
    SpawnRefines(w, h, bundle);
  }

  lemma InsertingAccounts(w: WorldData, e: Entity, bundle: Bundle)
    requires Allowed(w, Inserting(e, bundle)) && e in w.live
    ensures Accounted(w, Inserting(e, bundle))
  {
    InsertKeeps(w, e, bundle);
    var l := Entry(w, Inserting(e, bundle));
    InsertBalances(AllValues(w), l, AllValues(Storage.Insert(w, e, bundle)));
    assert Do(w, Inserting(e, bundle)) == Storage.Insert(w, e, bundle);
  }

  lemma InsertBalances(before: multiset<Component>, l: Ledger, after: multiset<Component>)
    requires after + l.removed == before + l.copied + l.supplied && l.dropped == multiset{}
    ensures Balanced(before, l, after)
  {
    assert after + multiset{} == after;
    assert before + l.copied + l.supplied == before + l.supplied + l.copied;
  }

  lemma DespawningAccounts(w: WorldData, e: Entity)
    requires Allowed(w, Despawning(e))
    ensures Accounted(w, Despawning(e))
  {
    DespawnRefines(w, e);
    assert Do(w, Despawning(e)) == Storage.Despawn(w, e);
  }

  /** The step leaves a sound world and its ledger accounts for every value. */
  ghost predicate Accounted(w: WorldData, step: Step)
    requires Allowed(w, step)
  {
    Sound(Do(w, step)) && Balanced(AllValues(w), Entry(w, step), AllValues(Do(w, step)))
  }

  /** Every step of every kind keeps the world sound, whatever rows are recorded, and accounts for every value. */
  lemma StepAccounts(w: WorldData, step: Step)
    requires Allowed(w, step)
    ensures Accounted(w, step)
  {
    match step
    case Spawning(h, bundle) => SpawningAccounts(w, h, bundle);
    case Inserting(e, bundle) => if e in w.live { InsertingAccounts(w, e, bundle); }
    case Despawning(e) => DespawningAccounts(w, e);
  }

  lemma OwnRowIff(w: WorldData, step: Step)
    requires Allowed(w, step)
    ensures Entry(w, step).copied == Entry(w, step).removed <==> OwnRow(w, step)
  {
    if step.Inserting? && step.entity in w.live {
      OwnedIsShown(w, step.entity);
      SameRowIff(Home(w, step.entity), w.live[step.entity].row, Home(w, step.entity).entityLookup[step.entity]);
    }
  }

  lemma SumDecides<K, V>(a: map<K, V>, b: map<K, V>, added: map<K, V>)
    requires a.Keys == b.Keys && a.Keys !! added.Keys
    ensures a + added == b + added <==> a == b
  {
    if a + added == b + added {
      forall k | k in a ensures a[k] == b[k] { assert (a + added)[k] == a[k] && (b + added)[k] == b[k]; }
    }
  }

  /** A step does to the map what it should exactly when it copies the entity's own row. */
  lemma StepRefinesIff(w: WorldData, step: Step)
    requires Allowed(w, step)
    ensures Shows(Do(w, step)) == OnMap(Shows(w), step) <==> OwnRow(w, step)
  {
    match step
    case Spawning(h, bundle) => SpawnRefines(w, h, bundle);
    case Despawning(e) => DespawnRefines(w, e);
    case Inserting(e, bundle) => InsertingRefinesIff(w, e, bundle);
  }

  lemma InsertingRefinesIff(w: WorldData, e: Entity, bundle: Bundle)
    requires Allowed(w, Inserting(e, bundle))
    ensures Shows(Do(w, Inserting(e, bundle))) == OnMap(Shows(w), Inserting(e, bundle)) <==>
      OwnRow(w, Inserting(e, bundle))
  {
    var step := Inserting(e, bundle);
    if e in w.live {
      InsertAddsIff(w, e, bundle);
      assert Do(w, step) == Storage.Insert(w, e, bundle);
      assert e in Shows(w);
    } else {
      assert Do(w, step) == w && OnMap(Shows(w), step) == Shows(w);
    }
  }

  lemma InsertAddsIff(w: WorldData, e: Entity, bundle: Bundle)
    requires Insertable(w, e, bundle)
    ensures Sound(Storage.Insert(w, e, bundle))
    ensures Shows(Storage.Insert(w, e, bundle)) == Shows(w)[e := Shows(w)[e] + AsMap(bundle)] <==>
      RowOf(Home(w, e), w.live[e].row) == Shows(w)[e]
  {
    InsertKeeps(w, e, bundle);
    OwnedIsShown(w, e);
    FetchedIsRow(w, e);
    UpdateDecides(Shows(w), e, RowOf(Home(w, e), w.live[e].row), Shows(w)[e], AsMap(bundle));
  }

  lemma UpdateDecides<E, K, V>(m: map<E, map<K, V>>, e: E, a: map<K, V>, b: map<K, V>, added: map<K, V>)
    requires a.Keys == b.Keys && a.Keys !! added.Keys
    ensures m[e := a + added] == m[e := b + added] <==> a == b
  {
    SumDecides(a, b, added);
    assert m[e := a + added][e] == a + added && m[e := b + added][e] == b + added;
  }

  // ---------------------------------------------------------------- runs

  ghost predicate Run(w: WorldData, steps: seq<Step>)
    requires Sound(w)
    decreases |steps|, 1
  {
    steps == [] || (Run(w, steps[..|steps| - 1]) && Allowed(After(w, steps[..|steps| - 1]), steps[|steps| - 1]))
  }

  ghost function After(w: WorldData, steps: seq<Step>): (r: WorldData)
    requires Sound(w)
    ensures Sound(r)
    decreases |steps|, 0
  {
    if steps == [] then w
    else
      var before, last := After(w, steps[..|steps| - 1]), steps[|steps| - 1];
      if Allowed(before, last) then
        StepAccounts(before, last);
        Do(before, last)
      else before
  }

  function Plus(a: Ledger, b: Ledger): Ledger {
    Ledger(a.supplied + b.supplied, a.dropped + b.dropped, a.copied + b.copied, a.removed + b.removed)
  }

  /** The ledger of a whole run. */
  ghost function Total(w: WorldData, steps: seq<Step>): Ledger
    requires Sound(w) && Run(w, steps)
  {
    if steps == [] then Ledger(multiset{}, multiset{}, multiset{}, multiset{})
    else Plus(Total(w, steps[..|steps| - 1]), Entry(After(w, steps[..|steps| - 1]), steps[|steps| - 1]))
  }

  lemma BalancedPlus(
      before: multiset<Component>, l: Ledger, mid: multiset<Component>, l': Ledger, after: multiset<Component>)
    requires Balanced(before, l, mid) && Balanced(mid, l', after)
    ensures Balanced(before, Plus(l, l'), after)
  {
    forall x ensures (after + (l.dropped + l'.dropped) + (l.removed + l'.removed))[x] ==
                     (before + (l.supplied + l'.supplied) + (l.copied + l'.copied))[x]
    {
      assert (mid + l.dropped + l.removed)[x] == (before + l.supplied + l.copied)[x];
      assert (after + l'.dropped + l'.removed)[x] == (mid + l'.supplied + l'.copied)[x];
    }
  }

  /** Over every run: stored, dropped and removed values are those stored before, supplied and copied. */
  lemma {:induction false} RunAccounts(w: WorldData, steps: seq<Step>)
    requires Sound(w) && Run(w, steps)
    ensures Balanced(AllValues(w), Total(w, steps), AllValues(After(w, steps)))
  {
    if steps != [] {
      var init, last := steps[..|steps| - 1], steps[|steps| - 1];
      RunAccounts(w, init);
      StepAccounts(After(w, init), last);
      BalancedPlus(AllValues(w), Total(w, init), AllValues(After(w, init)),
        Entry(After(w, init), last), AllValues(After(w, steps)));
    }
  }

  /** What is stored and what was dropped is exactly what was stored before and what was supplied. */
  ghost predicate Conserved(w: WorldData, steps: seq<Step>)
    requires Sound(w) && Run(w, steps)
  {
    AllValues(After(w, steps)) + Total(w, steps).dropped == AllValues(w) + Total(w, steps).supplied
  }

  lemma BalancedIff(before: multiset<Component>, l: Ledger, after: multiset<Component>)
    requires Balanced(before, l, after)
    ensures after + l.dropped == before + l.supplied <==> l.copied == l.removed
  {
    Crossed(after + l.dropped, l.removed, before, l.copied, l.supplied);
  }

  /** A run conserves the values exactly when its insertions copied, taken together, what they removed. */
  lemma RunConservesIff(w: WorldData, steps: seq<Step>)
    requires Sound(w) && Run(w, steps)
    ensures Conserved(w, steps) <==> Total(w, steps).copied == Total(w, steps).removed
  {
    RunAccounts(w, steps);
    BalancedIff(AllValues(w), Total(w, steps), AllValues(After(w, steps)));
  }

  ghost predicate ConservedThroughout(w: WorldData, steps: seq<Step>)
    requires Sound(w) && Run(w, steps)
  {
    Conserved(w, steps) && (steps != [] ==> ConservedThroughout(w, steps[..|steps| - 1]))
  }

  function MapRun(c: Contents, steps: seq<Step>): Contents {
    if steps == [] then c else OnMap(MapRun(c, steps[..|steps| - 1]), steps[|steps| - 1])
  }

  ghost predicate RefinedThroughout(w: WorldData, steps: seq<Step>)
    requires Sound(w) && Run(w, steps)
  {
    && Shows(After(w, steps)) == MapRun(Shows(w), steps)
    && (steps != [] ==> RefinedThroughout(w, steps[..|steps| - 1]))
  }

  /** Every insertion copies the entity's own row, which can be seen before the call. */
  ghost predicate OwnRows(w: WorldData, steps: seq<Step>)
    requires Sound(w) && Run(w, steps)
  {
    steps == [] ||
    (OwnRows(w, steps[..|steps| - 1]) && OwnRow(After(w, steps[..|steps| - 1]), steps[|steps| - 1]))
  }

  /** Conservation at every point of a run, exactly: every insertion copies the entity's own row. */
  lemma {:induction false} ConservedIff(w: WorldData, steps: seq<Step>)
    requires Sound(w) && Run(w, steps)
    ensures ConservedThroughout(w, steps) <==> OwnRows(w, steps)
  {
    RunConservesIff(w, steps);
    if steps != [] {
      var init, last := steps[..|steps| - 1], steps[|steps| - 1];
      ConservedIff(w, init);
      RunConservesIff(w, init);
      OwnRowIff(After(w, init), last);
      if OwnRows(w, init) {
        SumMatches(Total(w, init), Entry(After(w, init), last));
      }
    }
  }

  lemma SumMatches(l: Ledger, l': Ledger)
    requires l.copied == l.removed
    ensures Plus(l, l').copied == Plus(l, l').removed <==> l'.copied == l'.removed
  {
    assert (l.copied + l'.copied) - l.copied == l'.copied;
    assert (l.removed + l'.removed) - l.removed == l'.removed;
  }

  /** Refinement of a map at every point of a run, exactly: the same condition. */
  lemma {:induction false} RefinedIff(w: WorldData, steps: seq<Step>)
    requires Sound(w) && Run(w, steps)
    ensures RefinedThroughout(w, steps) <==> OwnRows(w, steps)
  {
    if steps != [] {
      var init, last := steps[..|steps| - 1], steps[|steps| - 1];
      RefinedIff(w, init);
      StepRefinesIff(After(w, init), last);
    }
  }

  // ---------------------------------------------------------------- runs whose insertions record the right row

  /** Every insertion into a live entity finds a destination whose first column is carried over. */
  ghost predicate Carried(w: WorldData, steps: seq<Step>)
    requires Sound(w) && Run(w, steps)
  {
    steps == [] ||
    var init, last := steps[..|steps| - 1], steps[|steps| - 1];
    && Carried(w, init)
    && (last.Inserting? && last.entity in After(w, init).live ==>
          Column0Carried(After(w, init), last.entity, last.bundle))
  }

  lemma StepKeepsRows(w: WorldData, step: Step)
    requires Inv(w) && Allowed(w, step)
    requires step.Inserting? && step.entity in w.live ==> Column0Carried(w, step.entity, step.bundle)
    ensures Inv(Do(w, step))
  {
    match step
    case Spawning(h, bundle) => SpawnRefines(w, h, bundle);
    case Inserting(e, bundle) => if e in w.live { InsertRefinesIff(w, e, bundle); }
    case Despawning(e) => DespawnRefines(w, e);
  }

  lemma RightRowIsOwn(w: WorldData, step: Step)
    requires Inv(w) && Allowed(w, step)
    ensures OwnRow(w, step)
  {
    if step.Inserting? && step.entity in w.live {
      LiveRow(w, step.entity);
      OwnedIsShown(w, step.entity);
    }
  }

  lemma {:induction false} CarriedKeepsRows(w: WorldData, steps: seq<Step>)
    requires Inv(w) && Run(w, steps) && Carried(w, steps)
    ensures Inv(After(w, steps)) && OwnRows(w, steps)
  {
    if steps != [] {
      var init, last := steps[..|steps| - 1], steps[|steps| - 1];
      CarriedKeepsRows(w, init);
      StepKeepsRows(After(w, init), last);
      RightRowIsOwn(After(w, init), last);
    }
  }

  /**
   If every insertion finds its first column carried over, all recorded rows stay right, the world shows at
   every point what the same run on a map shows, and every value is conserved.
   */
  lemma CarriedRunRefines(w: WorldData, steps: seq<Step>)
    requires Inv(w) && Run(w, steps) && Carried(w, steps)
    ensures Inv(After(w, steps)) && View(After(w, steps)) == MapRun(View(w), steps)
    ensures RefinedThroughout(w, steps) && ConservedThroughout(w, steps)
  {
    CarriedKeepsRows(w, steps);
    RefinedIff(w, steps);
    ConservedIff(w, steps);
  }

  /** The world of `World::new`. */
  function Empty(): WorldData {
    WorldData(ArchetypesData(0, [], [], map[]), map[])
  }

  lemma EmptyIsOk()
    ensures Inv(Empty()) && Shows(Empty()) == map[] && AllValues(Empty()) == multiset{}
  {
  }

  /** From an empty world, in every run: stored, dropped and removed is exactly supplied and copied. */
  lemma EverythingAccounted(steps: seq<Step>)
    requires Sound(Empty()) && Run(Empty(), steps)
    ensures var l := Total(Empty(), steps);
      AllValues(After(Empty(), steps)) + l.dropped + l.removed == l.supplied + l.copied
  {
    EmptyIsOk();
    RunAccounts(Empty(), steps);
    var l := Total(Empty(), steps);
    assert multiset{} + l.supplied + l.copied == l.supplied + l.copied;
  }

  // ---------------------------------------------------------------- tables are only added

  lemma SpawnGrows(w: WorldData, h: Entity, bundle: Bundle)
    requires Sound(w) && bundle != [] && DistinctTypes(bundle)
    ensures w.archetypes.lookupArray <= Storage.Spawn(w, h, bundle).archetypes.lookupArray
  {
  }

  lemma InsertGrows(w: WorldData, e: Entity, bundle: Bundle)
    requires Insertable(w, e, bundle)
    ensures w.archetypes.lookupArray <= Storage.Insert(w, e, bundle).archetypes.lookupArray
  {
  }

  /** Steps only ever add tables, so what a query has cached stays right. */
  lemma StepGrows(w: WorldData, step: Step)
    requires Allowed(w, step)
    ensures w.archetypes.lookupArray <= Do(w, step).archetypes.lookupArray
  {
    match step
    case Spawning(h, bundle) => SpawnGrows(w, h, bundle);
    case Inserting(e, bundle) => if e in w.live { InsertGrows(w, e, bundle); }
    case Despawning(e) =>
  }

  lemma {:induction false} RunGrows(w: WorldData, steps: seq<Step>)
    requires Sound(w) && Run(w, steps)
    ensures w.archetypes.lookupArray <= After(w, steps).archetypes.lookupArray
  {
    if steps != [] {
      RunGrows(w, steps[..|steps| - 1]);
      StepGrows(After(w, steps[..|steps| - 1]), steps[|steps| - 1]);
    }
  }
}
