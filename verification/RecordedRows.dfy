/**
 The rows that `insert` records: how far off they can be, and worlds in which they are.
 */
module RecordedRows {
  import opened Widths
  import opened EntityRegistry
  import opened Signatures
  import opened Tables
  import opened Placement
  import opened Storage
  import opened WorldRuns

  // ---------------------------------------------------------------- never off by more than one

  /** The recorded row is the true one, or the one before it in `usize` arithmetic. */
  predicate Near(recorded: nat, row: nat) {
    recorded == row || recorded == if row == 0 then USIZE_MAX else row - 1
  }

  ghost predicate AllNear(live: Live, rows: Live) {
    SameHomes(live, rows) && forall e :: e in live ==> Near(live[e].row, rows[e].row)
  }

  lemma MovedNear(live: Live, rows: Live, records: seq<Record>, row: nat, e: Entity)
    requires AllNear(live, rows)
    ensures AllNear(MovedLive(live, records, row) - {e}, MovedLive(rows, records, row) - {e})
  {
  }

  lemma AddedNear(live: Live, rows: Live, e: Entity, m: EntityMeta, m': EntityMeta)
    requires AllNear(live, rows) && m.handle == m'.handle && m.table == m'.table && Near(m.row, m'.row)
    ensures AllNear(live[e := m], rows[e := m'])
  {
  }

  ghost predicate OffByOne(w: WorldData) {
    AllNear(w.live, Places(w))
  }

  lemma SpawnNear(w: WorldData, h: Entity, bundle: Bundle)
    requires WorldRuns.Allowed(w, Spawning(h, bundle)) && OffByOne(w)
    ensures OffByOne(Storage.Spawn(w, h, bundle))
  {
    SpawnTableOk(w, bundle);
    var (a, t) := SpawnTable(w.archetypes, bundle);
    TypesFit(a.tables[t], bundle);
    AttachOk(w.(archetypes := a), h, t, bundle);
    var m := EntityMeta(h, t, |a.tables[t].entities|);
    AddedNear(w.live, Places(w), h, m, m);
  }

  lemma DespawnNear(w: WorldData, e: Entity)
    requires Sound(w) && OffByOne(w)
    ensures OffByOne(Storage.Despawn(w, e))
  {
    if e in w.live {
      DetachOk(w, e);
      MovedNear(w.live, Places(w), Records(Home(w, e)), Home(w, e).entityLookup[e], e);
    }
  }

  /** The live entities without `e` after its table has closed the gap. */
  function Rest(live: Live, w: WorldData, e: Entity): Live
    requires Sound(w) && e in w.live
  {
    MovedLive(live, Records(Home(w, e)), Home(w, e).entityLookup[e]) - {e}
  }

  lemma InsertLive(w: WorldData, e: Entity, bundle: Bundle)
    requires Insertable(w, e, bundle)
    ensures Storage.Insert(w, e, bundle).live ==
      Rest(w.live, w, e)[e := EntityMeta(e, Destination(w, e, bundle), RecordedRow(Copied(w, e, bundle)))]
  {
    var m := EntityMeta(e, Destination(w, e, bundle), RecordedRow(Copied(w, e, bundle)));
    MapMove(MovedLive(w.live, Records(Home(w, e)), Home(w, e).entityLookup[e]), e, m, m);
  }

  lemma InsertPlaces(w: WorldData, e: Entity, bundle: Bundle)
    requires Insertable(w, e, bundle)
    ensures Places(Storage.Insert(w, e, bundle)) ==
      Rest(Places(w), w, e)[e := EntityMeta(e, Destination(w, e, bundle), |Target(w, e, bundle).entities|)]
  {
    OutsideOk(w, e, bundle);
    MovedOk(w, e, bundle);
    InsertIsAMove(w, e, bundle);
    RewrittenRow(Moved(w, e, bundle), Storage.Insert(w, e, bundle), e,
      EntityMeta(e, Destination(w, e, bundle), RecordedRow(Copied(w, e, bundle))));
  }

  lemma RestNear(w: WorldData, e: Entity)
    requires Sound(w) && e in w.live && OffByOne(w)
    ensures AllNear(Rest(w.live, w, e), Rest(Places(w), w, e))
  {
    MovedNear(w.live, Places(w), Records(Home(w, e)), Home(w, e).entityLookup[e], e);
  }

  lemma NearRow(w: WorldData, e: Entity, bundle: Bundle)
    requires Insertable(w, e, bundle)
    ensures Near(RecordedRow(Copied(w, e, bundle)), |Target(w, e, bundle).entities|)
  {
    CopiedColumn0(w, e, bundle);
    RecordedNear(Copied(w, e, bundle), |Target(w, e, bundle).entities|);
  }

  lemma RecordedNear(t: TableData, n: nat)
    requires t.columns != [] && n <= |t.columns[0].items| <= n + 1
    ensures Near(RecordedRow(t), n)
  {
  }

  lemma InsertNear(w: WorldData, e: Entity, bundle: Bundle)
    requires Insertable(w, e, bundle) && OffByOne(w)
    ensures OffByOne(Storage.Insert(w, e, bundle))
  {
    RestNear(w, e);
    NearRow(w, e, bundle);
    InsertLive(w, e, bundle);
    InsertPlaces(w, e, bundle);
    var t := Destination(w, e, bundle);
    NearTogether(Storage.Insert(w, e, bundle), Rest(w.live, w, e), Rest(Places(w), w, e), e,
      EntityMeta(e, t, RecordedRow(Copied(w, e, bundle))), EntityMeta(e, t, |Target(w, e, bundle).entities|));
  }

  lemma NearTogether(w: WorldData, live: Live, rows: Live, e: Entity, m: EntityMeta, m': EntityMeta)
    requires w.live == live[e := m] && Places(w) == rows[e := m']
    requires AllNear(live, rows) && m.handle == m'.handle && m.table == m'.table && Near(m.row, m'.row)
    ensures OffByOne(w)
  {
    AddedNear(live, rows, e, m, m');
  }

  lemma StepNear(w: WorldData, step: Step)
    requires WorldRuns.Allowed(w, step) && OffByOne(w)
    ensures OffByOne(WorldRuns.Do(w, step))
  {
    match step
    case Spawning(h, bundle) => SpawnNear(w, h, bundle);
    case Inserting(e, bundle) => if e in w.live { InsertNear(w, e, bundle); }
    case Despawning(e) => DespawnNear(w, e);
  }

  /** In every run from an empty world, every recorded row is the true one or the one before it. */
  lemma {:induction false} RecordedRowsAreNear(steps: seq<Step>)
    requires Sound(Empty()) && Run(Empty(), steps)
    ensures OffByOne(After(Empty(), steps))
  {
    if steps != [] {
      RecordedRowsAreNear(steps[..|steps| - 1]);
      StepNear(After(Empty(), steps[..|steps| - 1]), steps[|steps| - 1]);
    }
  }

  /**
   So `insert` finds a row to copy exactly when the recorded row has not wrapped, and it is the own row or the
   previous one.
   */
  lemma RowToCopy(w: WorldData, e: Entity)
    requires Sound(w) && OffByOne(w) && e in w.live && |Home(w, e).entities| <= USIZE_MAX
    ensures w.live[e].row < |Home(w, e).entities| <==> w.live[e].row != USIZE_MAX
    ensures w.live[e].row != USIZE_MAX ==>
      w.live[e].row == Home(w, e).entityLookup[e] || w.live[e].row + 1 == Home(w, e).entityLookup[e]
  {
    LiveRow(w, e);
  }

  // ---------------------------------------------------------------- worlds in which the row is wrong

  /** An existing table with the combined columns is the destination, and its first column decides. */
  lemma ExistingDestination(w: WorldData, e: Entity, bundle: Bundle, i: nat)
    requires Insertable(w, e, bundle) && i < |w.archetypes.tables|
    requires w.archetypes.tables[i].lookup.Keys == Home(w, e).lookup.Keys + TypesOf(bundle)
    ensures Destination(w, e, bundle) == i && Target(w, e, bundle) == w.archetypes.tables[i]
    ensures Column0Carried(w, e, bundle) <==> w.archetypes.tables[i].columns[0].ty in Home(w, e).lookup
  {
    var combined, t := CombinedSignature(Home(w, e), bundle), w.archetypes.tables[i];
    assert TableOk(t);
    CombinedMeaning(Home(w, e), bundle);
    forall ty: nat ensures Has(combined, ty) <==> Has(t.signature, ty) {
      assert ty in t.lookup.Keys <==> Has(t.signature, ty);
    }
    NormalUnique(combined, t.signature);
  }

  lemma Single(x: Component)
    ensures AsMap([x]) == map[x.ty := x.data] && TypesOf([x]) == {x.ty} && DistinctTypes([x])
  {
  }

  lemma Pair(x: Component, y: Component)
    requires x.ty != y.ty
    ensures AsMap([x, y]) == map[x.ty := x.data, y.ty := y.data]
    ensures TypesOf([x, y]) == {x.ty, y.ty} && DistinctTypes([x, y])
  {
    assert [x, y][..1] == [x];
    Single(x);
  }

  /** The world after spawning (x, y) and then (z). */
  function TwoSpawned(first: Entity, second: Entity, x: Component, y: Component, z: Component): (w: WorldData)
    requires x.ty != y.ty && first != second
    ensures Inv(w) && w.live.Keys == {first, second}
    ensures Shows(w) == map[first := AsMap([x, y]), second := AsMap([z])]
  {
    Pair(x, y);
    Single(z);
    EmptyIsOk();
    SpawnRefines(Empty(), first, [x, y]);
    SpawnRefines(Storage.Spawn(Empty(), first, [x, y]), second, [z]);
    Storage.Spawn(Storage.Spawn(Empty(), first, [x, y]), second, [z])
  }

  /** Spawning into an empty world makes the first table. */
  lemma FirstSpawn(first: Entity, bundle: Bundle)
    requires bundle != [] && DistinctTypes(bundle)
    ensures Sound(Empty())
    ensures var tables := Storage.Spawn(Empty(), first, bundle).archetypes.tables;
      && |tables| == 1 && |tables[0].columns| > 0 && tables[0].entities == [first]
      && tables[0].columns[0].ty == bundle[0].ty && tables[0].lookup.Keys == TypesOf(bundle)
  {
    EmptyIsOk();
    var table := NewTable(SigOf(bundle), bundle);
    NewTableOk(bundle);
    NewTableOrder(SigOf(bundle), bundle);
    SpawnTableReady(Empty(), bundle);
    FirstTableIs(bundle);
    FilledTable(table, first, bundle);
  }

  lemma FirstTableIs(bundle: Bundle)
    ensures SpawnTable(Empty().archetypes, bundle) ==
      (AddTable(Empty().archetypes, NewTable(SigOf(bundle), bundle)), 0)
  {
  }

  lemma FilledTable(table: TableData, first: Entity, bundle: Bundle)
    requires LookupOk(table) && Fits(table, bundle) && table.entities == []
    ensures var t := AppendRow(table, first, bundle);
      && t.entities == [first] && t.lookup == table.lookup
      && |t.columns| > 0 && t.columns[0].ty == table.columns[0].ty
  {
  }

  /** Spawning leaves every table alone that is not for the bundle. */
  lemma SpawnLeavesOthers(w: WorldData, h: Entity, bundle: Bundle, i: nat)
    requires Sound(w) && bundle != [] && DistinctTypes(bundle) && i < |w.archetypes.tables|
    requires w.archetypes.tables[i].lookup.Keys != TypesOf(bundle)
    ensures var tables := Storage.Spawn(w, h, bundle).archetypes.tables;
      i < |tables| && tables[i] == w.archetypes.tables[i]
  {
    SpawnTableOk(w, bundle);
  }

  lemma FirstTable(first: Entity, second: Entity, x: Component, y: Component, z: Component)
    requires x.ty != y.ty && first != second
    ensures var tables := TwoSpawned(first, second, x, y, z).archetypes.tables;
      && |tables| > 0 && TableOk(tables[0]) && tables[0].entities == [first]
      && tables[0].columns[0].ty == x.ty && tables[0].lookup.Keys == {x.ty, y.ty}
  {
    Pair(x, y);
    Single(z);
    FirstSpawn(first, [x, y]);
    SpawnRefines(Empty(), first, [x, y]);
    assert {x.ty, y.ty} != {z.ty} by { assert x.ty in {x.ty, y.ty} && y.ty in {x.ty, y.ty}; }
    SpawnLeavesOthers(Storage.Spawn(Empty(), first, [x, y]), second, [z], 0);
  }

  /** `z` and `x` are `a` and `b` in some order. */
  predicate OneOfEach(z: nat, x: nat, a: nat, b: nat) {
    (z == a && x == b) || (z == b && x == a)
  }

  lemma CanInsertIntoSecond(w: WorldData, e: Entity, a: Component, b: Component, z: Component, x: Component)
    requires Inv(w) && e in w.live && Home(w, e).lookup.Keys == {z.ty}
    requires a.ty != b.ty && OneOfEach(z.ty, x.ty, a.ty, b.ty)
    ensures Insertable(w, e, [x]) && Home(w, e).lookup.Keys + TypesOf([x]) == {a.ty, b.ty}
    ensures a.ty in Home(w, e).lookup <==> a.ty == z.ty
  {
    Single(x);
    LiveRow(w, e);
    assert a.ty in Home(w, e).lookup <==> a.ty in Home(w, e).lookup.Keys;
  }

  /**
   The order of a tuple decides. After spawning (a, b) and (z), where z has the type of one of the two,
   inserting the other type into the second entity keeps the recorded rows right exactly when z's type came first.
   */
  lemma BundleOrderDecides(first: Entity, second: Entity, a: Component, b: Component, z: Component, x: Component)
    requires first != second && a.ty != b.ty && OneOfEach(z.ty, x.ty, a.ty, b.ty)
    ensures Insertable(TwoSpawned(first, second, a, b, z), second, [x])
    ensures Inv(Storage.Insert(TwoSpawned(first, second, a, b, z), second, [x])) <==> a.ty == z.ty
  {
    var w := TwoSpawned(first, second, a, b, z);
    Single(z);
    FirstTable(first, second, a, b, z);
    HomeIsArchetype(w, second);
    CanInsertIntoSecond(w, second, a, b, z, x);
    ExistingDestination(w, second, [x], 0);
    InsertRefinesIff(w, second, [x]);
  }

  lemma InsertedHome(w: WorldData, e: Entity, bundle: Bundle)
    requires Insertable(w, e, bundle)
    ensures var w' := Storage.Insert(w, e, bundle);
      && Sound(w') && e in w'.live && w'.live[e].row == RecordedRow(Copied(w, e, bundle))
      && Home(w', e).entities == Target(w, e, bundle).entities + [e]
      && Home(w', e).lookup == Target(w, e, bundle).lookup
  {
    InsertKeeps(w, e, bundle);
  }

  /** The second entity is in row 1 of the first table, and row 0 is recorded for it. */
  ghost predicate SecondMisplaced(w: WorldData, first: Entity, second: Entity, types: set<nat>)
    requires Sound(w)
  {
    && second in w.live && w.live[second].row == 0
    && Home(w, second).entities == [first, second] && Home(w, second).lookup.Keys == types
  }

  lemma RecordsZero(w: WorldData, e: Entity, bundle: Bundle)
    requires Insertable(w, e, bundle) && !Column0Carried(w, e, bundle) && |Target(w, e, bundle).entities| == 1
    ensures RecordedRow(Copied(w, e, bundle)) == 0
  {
    CopiedColumn0(w, e, bundle);
    assert |Copied(w, e, bundle).columns[0].items| == 1;
  }

  lemma Misplaced(w: WorldData, first: Entity, second: Entity, bundle: Bundle)
    requires Insertable(w, second, bundle) && !Column0Carried(w, second, bundle)
    requires Target(w, second, bundle).entities == [first]
    ensures Sound(Storage.Insert(w, second, bundle))
    ensures SecondMisplaced(Storage.Insert(w, second, bundle), first, second, Target(w, second, bundle).lookup.Keys)
  {
    RecordsZero(w, second, bundle);
    InsertedHome(w, second, bundle);
    OneAndOne(first, second);
  }

  lemma OneAndOne<T>(a: T, b: T)
    ensures [a] + [b] == [a, b]
  {
  }

  lemma Appended<T>(a: T, b: T, c: T, d: T)
    ensures [] + [a] == [a] && [a] + [b] == [a, b] && [a, b] + [c] == [a, b, c] && [a, b, c] + [d] == [a, b, c, d]
  {
  }

  lemma InsertIsMisplaced(first: Entity, second: Entity, a: Component, b: Component, z: Component, x: Component)
    requires first != second && a.ty != b.ty && z.ty == b.ty && x.ty == a.ty
    ensures Insertable(TwoSpawned(first, second, a, b, z), second, [x])
    ensures Sound(Storage.Insert(TwoSpawned(first, second, a, b, z), second, [x]))
    ensures var w' := Storage.Insert(TwoSpawned(first, second, a, b, z), second, [x]);
      SecondMisplaced(w', first, second, {a.ty, b.ty})
  {
    var w := TwoSpawned(first, second, a, b, z);
    Single(z);
    FirstTable(first, second, a, b, z);
    HomeIsArchetype(w, second);
    CanInsertIntoSecond(w, second, a, b, z, x);
    ExistingDestination(w, second, [x], 0);
    Misplaced(w, first, second, [x]);
  }

  lemma UpdateSecond<K, V>(k: K, k': K, a: V, b: V, b': V)
    requires k != k'
    ensures map[k := a, k' := b][k' := b'] == map[k := a, k' := b'] && map[k := a, k' := b][k'] == b
  {
  }

  lemma MisplacedShows(first: Entity, second: Entity, a: Component, b: Component, z: Component, x: Component)
    requires first != second && a.ty != b.ty && z.ty == b.ty && x.ty == a.ty
    requires Insertable(TwoSpawned(first, second, a, b, z), second, [x])
    ensures Shows(Storage.Insert(TwoSpawned(first, second, a, b, z), second, [x])) ==
      map[first := AsMap([a, b]), second := AsMap([z]) + AsMap([x])]
  {
    InsertRefinesIff(TwoSpawned(first, second, a, b, z), second, [x]);
    UpdateSecond(first, second, AsMap([a, b]), AsMap([z]), AsMap([z]) + AsMap([x]));
  }

  /** From an empty world these steps run and lead to `w`, and every insertion copies the entity's own row. */
  ghost predicate Leads(steps: seq<Step>, w: WorldData) {
    Sound(Empty()) && Run(Empty(), steps) && After(Empty(), steps) == w && OwnRows(Empty(), steps)
  }

  lemma LeadsNowhere()
    ensures Leads([], Empty())
  {
    EmptyIsOk();
  }

  lemma OneMore(w: WorldData, steps: seq<Step>, step: Step)
    requires Sound(w) && Run(w, steps) && WorldRuns.Allowed(After(w, steps), step)
    ensures Run(w, steps + [step]) && After(w, steps + [step]) == WorldRuns.Do(After(w, steps), step)
  {
    assert (steps + [step])[..|steps|] == steps;
  }

  lemma LeadsOn(steps: seq<Step>, w: WorldData, step: Step)
    requires Leads(steps, w) && WorldRuns.Allowed(w, step) && OwnRow(w, step)
    ensures Leads(steps + [step], WorldRuns.Do(w, step))
  {
    OneMore(Empty(), steps, step);
    assert (steps + [step])[..|steps|] == steps;
  }

  lemma LeadsOnSpawn(steps: seq<Step>, w: WorldData, h: Entity, bundle: Bundle)
    requires Leads(steps, w) && Inv(w) && h !in w.live && bundle != [] && DistinctTypes(bundle)
    ensures Leads(steps + [Spawning(h, bundle)], Storage.Spawn(w, h, bundle)) && Inv(Storage.Spawn(w, h, bundle))
  {
    SpawnRefines(w, h, bundle);
    LeadsOn(steps, w, Spawning(h, bundle));
  }

  lemma LeadsOnDespawn(steps: seq<Step>, w: WorldData, e: Entity)
    requires Leads(steps, w) && Inv(w)
    ensures Leads(steps + [Despawning(e)], Storage.Despawn(w, e)) && Inv(Storage.Despawn(w, e))
  {
    DespawnRefines(w, e);
    LeadsOn(steps, w, Despawning(e));
  }

  lemma LeadsOnInsert(steps: seq<Step>, w: WorldData, e: Entity, bundle: Bundle)
    requires Leads(steps, w) && Inv(w) && Insertable(w, e, bundle)
    ensures Leads(steps + [Inserting(e, bundle)], Storage.Insert(w, e, bundle))
  {
    RightRowIsOwn(w, Inserting(e, bundle));
    LeadsOn(steps, w, Inserting(e, bundle));
  }

  /** The first insertion that does not copy the entity's own row is where values stop being conserved. */
  lemma LastConservesIff(steps: seq<Step>, w: WorldData, step: Step)
    requires Leads(steps, w) && WorldRuns.Allowed(w, step)
    ensures Run(Empty(), steps + [step])
    ensures Conserved(Empty(), steps + [step]) <==> OwnRow(w, step)
  {
    OneMore(Empty(), steps, step);
    assert (steps + [step])[..|steps|] == steps;
    ConservedIff(Empty(), steps);
    RunConservesIff(Empty(), steps);
    RunConservesIff(Empty(), steps + [step]);
    OwnRowIff(w, step);
    SumMatches(Total(Empty(), steps), Entry(w, step));
  }

  lemma CanInsertThird(w: WorldData, first: Entity, second: Entity, types: set<nat>, c: Component)
    requires Sound(w) && SecondMisplaced(w, first, second, types) && c.ty !in types
    ensures Insertable(w, second, [c])
    ensures first in Shows(w) && RowOf(Home(w, second), w.live[second].row) == Shows(w)[first]
  {
    Single(c);
    LiveRow(w, second);
    RowIsEntry(w, w.live[second].table, 0);
  }

  /** What a further insertion makes of such a world: the first entity's components are copied. */
  lemma CopiesFirst(w: WorldData, first: Entity, second: Entity, types: set<nat>, c: Component)
    requires Sound(w) && SecondMisplaced(w, first, second, types) && c.ty !in types
    ensures Insertable(w, second, [c]) && first in Shows(w)
    ensures Shows(Storage.Insert(w, second, [c])) == Shows(w)[second := Shows(w)[first] + AsMap([c])]
    ensures AllValues(Storage.Insert(w, second, [c])) == AllValues(w) + multiset([c]) <==>
      Shows(w)[first] == Shows(w)[second]
  {
    CanInsertThird(w, first, second, types, c);
    InsertKeeps(w, second, [c]);
    InsertConservesIff(w, second, [c]);
  }

  lemma MisplacedSameIff(first: Entity, second: Entity, a: Component, b: Component, z: Component, x: Component)
    requires first != second && a.ty != b.ty && z.ty == b.ty && x.ty == a.ty
    requires Insertable(TwoSpawned(first, second, a, b, z), second, [x])
    ensures var shown := Shows(Storage.Insert(TwoSpawned(first, second, a, b, z), second, [x]));
      first in shown && second in shown &&
      (shown[first] == shown[second] <==> a.data == x.data && b.data == z.data)
  {
    MisplacedShows(first, second, a, b, z, x);
    SameTwo(a, b, z, x);
  }

  lemma SameTwo(a: Component, b: Component, z: Component, x: Component)
    requires a.ty != b.ty && z.ty == b.ty && x.ty == a.ty
    ensures AsMap([a, b]) == AsMap([z]) + AsMap([x]) <==> a.data == x.data && b.data == z.data
  {
    Single(z);
    Single(x);
    Pair(a, b);
    var own, read := AsMap([z]) + AsMap([x]), AsMap([a, b]);
    assert own[a.ty] == x.data && own[b.ty] == z.data && read[a.ty] == a.data && read[b.ty] == b.data;
  }

  function TwoSpawns(first: Entity, second: Entity, a: Component, b: Component, z: Component): seq<Step> {
    [Spawning(first, [a, b]), Spawning(second, [z])]
  }

  lemma LeadsToSpawned(first: Entity, p: Bundle, second: Entity, q: Bundle)
    requires first != second && p != [] && DistinctTypes(p) && q != [] && DistinctTypes(q)
    ensures Sound(Empty()) && Inv(Storage.Spawn(Empty(), first, p))
    ensures Leads([Spawning(first, p), Spawning(second, q)], Storage.Spawn(Storage.Spawn(Empty(), first, p), second, q))
  {
    EmptyIsOk();
    LeadsNowhere();
    Appended(Spawning(first, p), Spawning(second, q), Despawning(first), Despawning(first));
    LeadsOnSpawn([], Empty(), first, p);
    SecondSpawn([Spawning(first, p)], Storage.Spawn(Empty(), first, p), first, second, q);
  }

  lemma SecondSpawn(steps: seq<Step>, w: WorldData, first: Entity, second: Entity, q: Bundle)
    requires Leads(steps, w) && Inv(w) && first != second && w.live.Keys == {first} && q != [] && DistinctTypes(q)
    ensures Leads(steps + [Spawning(second, q)], Storage.Spawn(w, second, q))
  {
    assert second !in w.live.Keys;
    LeadsOnSpawn(steps, w, second, q);
  }

  lemma LeadsToTwoSpawned(first: Entity, second: Entity, a: Component, b: Component, z: Component)
    requires a.ty != b.ty && first != second
    ensures Leads(TwoSpawns(first, second, a, b, z), TwoSpawned(first, second, a, b, z))
  {
    Pair(a, b);
    Single(z);
    LeadsToSpawned(first, [a, b], second, [z]);
  }

  lemma LeadsToMisplaced(first: Entity, second: Entity, a: Component, b: Component, z: Component, x: Component)
    requires first != second && a.ty != b.ty && z.ty == b.ty && x.ty == a.ty
    ensures Insertable(TwoSpawned(first, second, a, b, z), second, [x])
    ensures Leads(TwoSpawns(first, second, a, b, z) + [Inserting(second, [x])],
      Storage.Insert(TwoSpawned(first, second, a, b, z), second, [x]))
  {
    LeadsToTwoSpawned(first, second, a, b, z);
    InsertIsMisplaced(first, second, a, b, z, x);
    LeadsOnInsert(TwoSpawns(first, second, a, b, z), TwoSpawned(first, second, a, b, z), second, [x]);
  }

  /** Two entities are spawned, and two insertions are made into the second. */
  function FourSteps(
      first: Entity, second: Entity, a: Component, b: Component, z: Component, x: Component, c: Component): seq<Step>
  {
    [Spawning(first, [a, b]), Spawning(second, [z]), Inserting(second, [x]), Inserting(second, [c])]
  }

  /**
   Inserting twice into a misplaced entity copies its neighbour's components in place of its own: such a run
   conserves the values exactly if the two happen to hold the same.
   */
  lemma LosingRun(
      first: Entity, second: Entity, a: Component, b: Component, z: Component, x: Component, c: Component)
    requires first != second && a.ty != b.ty && z.ty == b.ty && x.ty == a.ty && c.ty != a.ty && c.ty != b.ty
    ensures Sound(Empty()) && Run(Empty(), FourSteps(first, second, a, b, z, x, c))
    ensures Conserved(Empty(), FourSteps(first, second, a, b, z, x, c)) <==> a.data == x.data && b.data == z.data
  {
    var types := {a.ty, b.ty};
    assert c.ty !in types;
    Appended(Spawning(first, [a, b]), Spawning(second, [z]), Inserting(second, [x]), Inserting(second, [c]));
    var steps, w := ThreeSteps(first, second, a, b, z, x);
    NextConservesIff(steps, w, first, second, types, c);
  }

  lemma ThreeSteps(first: Entity, second: Entity, a: Component, b: Component, z: Component, x: Component)
    returns (steps: seq<Step>, w: WorldData)
    requires first != second && a.ty != b.ty && z.ty == b.ty && x.ty == a.ty
    ensures steps == [Spawning(first, [a, b]), Spawning(second, [z]), Inserting(second, [x])]
    ensures Leads(steps, w) && Sound(w) && SecondMisplaced(w, first, second, {a.ty, b.ty})
    ensures first in Shows(w) && second in Shows(w)
    ensures Shows(w)[first] == Shows(w)[second] <==> a.data == x.data && b.data == z.data
  {
    Appended(Spawning(first, [a, b]), Spawning(second, [z]), Inserting(second, [x]), Inserting(second, [x]));
    LeadsToMisplaced(first, second, a, b, z, x);
    InsertIsMisplaced(first, second, a, b, z, x);
    MisplacedSameIff(first, second, a, b, z, x);
    steps := TwoSpawns(first, second, a, b, z) + [Inserting(second, [x])];
    w := Storage.Insert(TwoSpawned(first, second, a, b, z), second, [x]);
  }

  /** One more insertion into the misplaced entity conserves the values exactly if both entities hold the same. */
  lemma NextConservesIff(
      steps: seq<Step>, w: WorldData, first: Entity, second: Entity, types: set<nat>, c: Component)
    requires Leads(steps, w) && SecondMisplaced(w, first, second, types) && c.ty !in types
    ensures first in Shows(w) && second in Shows(w) && Run(Empty(), steps + [Inserting(second, [c])])
    ensures Conserved(Empty(), steps + [Inserting(second, [c])]) <==> Shows(w)[first] == Shows(w)[second]
  {
    CanInsertThird(w, first, second, types, c);
    LastConservesIff(steps, w, Inserting(second, [c]));
  }

  // ---------------------------------------------------------------- a row that wraps

  /** `insert` records a wrapped row exactly if it moves into an empty table whose first column it does not fill. */
  lemma InsertWrapsIff(w: WorldData, e: Entity, bundle: Bundle)
    requires Insertable(w, e, bundle) && |Target(w, e, bundle).entities| < USIZE_MAX
    ensures e in Storage.Insert(w, e, bundle).live
    ensures Storage.Insert(w, e, bundle).live[e].row == USIZE_MAX <==>
      !Column0Carried(w, e, bundle) && Target(w, e, bundle).entities == []
  {
    CopiedColumn0(w, e, bundle);
    InsertedHome(w, e, bundle);
  }

  lemma DespawnedTable(w: WorldData, first: Entity)
    requires Sound(w) && |w.archetypes.tables| == 1 && w.archetypes.tables[0].entities == [first] && first in w.live
    ensures var tables := Storage.Despawn(w, first).archetypes.tables;
      && |tables| == 1 && tables[0].entities == [] && tables[0].lookup == w.archetypes.tables[0].lookup
      && |tables[0].columns| == |w.archetypes.tables[0].columns|
      && forall c :: 0 <= c < |tables[0].columns| ==> tables[0].columns[c].ty == w.archetypes.tables[0].columns[c].ty
  {
    LiveRow(w, first);
  }

  /** The table of (a, b), emptied, is the destination of the second entity. */
  ghost predicate Emptied(w: WorldData, types: set<nat>, ty: nat) {
    && Inv(w) && w.live == map[] && |w.archetypes.tables| == 1 && TableOk(w.archetypes.tables[0])
    && w.archetypes.tables[0].entities == [] && w.archetypes.tables[0].lookup.Keys == types
    && w.archetypes.tables[0].columns[0].ty == ty
  }

  lemma SpawnAndDespawn(first: Entity, a: Component, b: Component) returns (w: WorldData)
    requires a.ty != b.ty
    ensures Leads([Spawning(first, [a, b]), Despawning(first)], w) && Emptied(w, {a.ty, b.ty}, a.ty)
  {
    Appended(Spawning(first, [a, b]), Despawning(first), Despawning(first), Despawning(first));
    Pair(a, b);
    EmptyIsOk();
    LeadsNowhere();
    LeadsOnSpawn([], Empty(), first, [a, b]);
    FirstSpawn(first, [a, b]);
    w := DespawnFirst([Spawning(first, [a, b])], Storage.Spawn(Empty(), first, [a, b]), first);
  }

  lemma DespawnFirst(steps: seq<Step>, w: WorldData, first: Entity) returns (w': WorldData)
    requires Leads(steps, w) && Inv(w) && w.live.Keys == {first}
    requires |w.archetypes.tables| == 1 && |w.archetypes.tables[0].columns| > 0
    requires w.archetypes.tables[0].entities == [first]
    ensures Leads(steps + [Despawning(first)], w')
    ensures Emptied(w', w.archetypes.tables[0].lookup.Keys, w.archetypes.tables[0].columns[0].ty)
  {
    w' := Storage.Despawn(w, first);
    LeadsOnDespawn(steps, w, first);
    DespawnedTable(w, first);
    DespawnRefines(w, first);
    assert w'.live.Keys == Shows(w').Keys == {};
  }

  lemma SpawnIntoEmptied(w: WorldData, types: set<nat>, ty: nat, second: Entity, z: Component)
    requires Emptied(w, types, ty) && types != {z.ty}
    ensures DistinctTypes([z]) && Inv(Storage.Spawn(w, second, [z])) && second in Storage.Spawn(w, second, [z]).live
    ensures Home(Storage.Spawn(w, second, [z]), second).lookup.Keys == {z.ty}
    ensures var tables := Storage.Spawn(w, second, [z]).archetypes.tables;
      |tables| > 0 && tables[0] == w.archetypes.tables[0]
  {
    Single(z);
    SpawnRefines(w, second, [z]);
    SpawnLeavesOthers(w, second, [z], 0);
    HomeIsArchetype(Storage.Spawn(w, second, [z]), second);
  }

  /** The second entity is alone in its table and its recorded row has wrapped: nothing can be inserted into it. */
  ghost predicate Wrapped(w: WorldData, e: Entity) {
    Sound(w) && e in w.live && w.live[e].row == USIZE_MAX && forall bundle :: !Insertable(w, e, bundle)
  }

  lemma InsertWraps(w: WorldData, second: Entity, a: Component, b: Component, z: Component, x: Component)
    requires Inv(w) && second in w.live && Home(w, second).lookup.Keys == {z.ty} && |w.archetypes.tables| > 0
    requires TableOk(w.archetypes.tables[0]) && w.archetypes.tables[0].entities == []
    requires w.archetypes.tables[0].lookup.Keys == {a.ty, b.ty} && w.archetypes.tables[0].columns[0].ty == a.ty
    requires a.ty != b.ty && z.ty == b.ty && x.ty == a.ty
    ensures Insertable(w, second, [x]) && Wrapped(Storage.Insert(w, second, [x]), second)
  {
    CanInsertIntoSecond(w, second, a, b, z, x);
    ExistingDestination(w, second, [x], 0);
    InsertWrapsIff(w, second, [x]);
    InsertedHome(w, second, [x]);
  }

  function WrappingSteps(
      first: Entity, second: Entity, a: Component, b: Component, z: Component, x: Component): seq<Step>
  {
    [Spawning(first, [a, b]), Despawning(first), Spawning(second, [z]), Inserting(second, [x])]
  }

  /** Spawn (a, b), despawn it, spawn (z) and insert an x: that leaves a row at which the next `insert` panics. */
  lemma WrappingRun(first: Entity, second: Entity, a: Component, b: Component, z: Component, x: Component)
    requires first != second && a.ty != b.ty && z.ty == b.ty && x.ty == a.ty
    ensures Sound(Empty()) && Run(Empty(), WrappingSteps(first, second, a, b, z, x))
    ensures Wrapped(After(Empty(), WrappingSteps(first, second, a, b, z, x)), second)
  {
    var types := {a.ty, b.ty};
    assert types != {z.ty} by { assert a.ty in types; }
    Appended(Spawning(first, [a, b]), Despawning(first), Spawning(second, [z]), Inserting(second, [x]));
    var w := SpawnAndDespawn(first, a, b);
    SpawnIntoEmptied(w, types, a.ty, second, z);
    LeadsOnSpawn([Spawning(first, [a, b]), Despawning(first)], w, second, [z]);
    var w' := Storage.Spawn(w, second, [z]);
    InsertWraps(w', second, a, b, z, x);
    LeadsOnInsert([Spawning(first, [a, b]), Despawning(first), Spawning(second, [z])], w', second, [x]);
  }
}
