/** The archetype registry and the world as objects, proved against the functions of `Storage`. */
module WorldObjects {
  import opened Widths
  import opened EntityRegistry
  import opened Signatures
  import opened Tables
  import opened TableObject
  import opened Placement
  import opened Storage

  ghost predicate Distinct(tables: seq<Table>) {
    forall i, j :: 0 <= i < j < |tables| ==> tables[i] != tables[j]
  }

  function ModelsOf(tables: seq<Table>): (r: seq<TableData>)
    reads tables
    ensures |r| == |tables| && forall i :: 0 <= i < |r| ==> r[i] == tables[i].Model()
  {
    seq(|tables|, i requires 0 <= i < |tables| reads tables => tables[i].Model())
  }

  lemma TwoChanged(tables: seq<Table>, before: seq<TableData>, i: nat, j: nat)
    requires |before| == |tables| && i < |tables| && j < |tables| && i != j
    requires forall k :: 0 <= k < |tables| && k != i && k != j ==> tables[k].Model() == before[k]
    ensures ModelsOf(tables) == before[i := tables[i].Model()][j := tables[j].Model()]
  {
  }

  /** `get_or_assign_signature`: the ids of the bundle's types are set one by one. */
  method BundleSignature(bundle: Bundle) returns (sig: Words)
    ensures sig == SigOf(bundle)
  {
    var s := new Signature();
    assert bundle[..0] == [];
    for k := 0 to |bundle|
      invariant s.words == SigOf(bundle[..k])
    {
      assert bundle[..k + 1][..k] == bundle[..k];
      s.Set(bundle[k].ty);
    }
    assert bundle[..|bundle|] == bundle;
    return s.words;
  }

  class Archetypes {
    var generation: nat
    var tables: seq<Table>
    var lookupArray: seq<Words>
    var lookup: map<Words, nat>

    function Model(): ArchetypesData
      reads this, tables
    {
      ArchetypesData(generation, ModelsOf(tables), lookupArray, lookup)
    }

    constructor ()
      ensures Distinct(tables) && tables == [] && Model() == ArchetypesData(0, [], [], map[])
    {
      generation, tables, lookupArray, lookup := 0, [], [], map[];
    }

    method InsertTable(table: Table)
      requires Distinct(tables) && table !in tables
      modifies this
      ensures tables == old(tables) + [table] && Distinct(tables)
      ensures Model() == AddTable(old(Model()), table.Model())
    {
      generation := generation + 1;
      lookup := lookup[table.signature := |tables|];
      lookupArray := lookupArray + [table.signature];
      tables := tables + [table];
    }

    /** The table of the bundle's archetype, made now if there is none. */
    method FindOrCreate(bundle: Bundle) returns (index: nat)
      requires Distinct(tables)
      modifies this
      ensures Distinct(tables) && forall t :: t in tables ==> t in old(tables) || fresh(t)
      ensures (Model(), index) == SpawnTable(old(Model()), bundle)
    {
      var sig := BundleSignature(bundle);
      index := if sig in lookup then lookup[sig] else |tables|;
      if sig !in lookup {
        var table := new Table(sig, bundle);
        InsertTable(table);
      }
    }

    /** The entity gets a row in the table of its bundle's archetype. */
    method Spawn(h: Entity, bundle: Bundle) returns (meta: EntityMeta)
      requires Distinct(tables) && var (a, t) := SpawnTable(Model(), bundle); Ready(a, t, bundle)
      modifies this, tables
      ensures Distinct(tables) && forall t :: t in tables ==> t in old(tables) || fresh(t)
      ensures var (a, t) := SpawnTable(old(Model()), bundle);
        Model() == AppendTo(a, t, h, bundle) && meta == EntityMeta(h, t, |a.tables[t].entities|)
    {
      var index := FindOrCreate(bundle);
      assert tables[index] in tables;
      var row := tables[index].Insert(h, bundle);
      meta := EntityMeta(h, index, row);
    }

    /** The table for the columns of table `source` and the bundle's types, made now if there is none. */
    method FindOrJoin(source: nat, bundle: Bundle) returns (index: nat)
      requires Distinct(tables) && source < |tables| && LookupOk(tables[source].Model())
      requires IsDisjoint(tables[source].signature, SigOf(bundle))
      modifies this
      ensures Distinct(tables) && old(tables) <= tables && forall t :: t in tables ==> t in old(tables) || fresh(t)
      ensures (Model(), index) == Storage.InsertTable(old(Model()), old(tables[source].Model()), bundle)
    {
      var signature := BundleSignature(bundle);
      var combined := Union(signature, tables[source].signature);
      if combined in lookup {
        return lookup[combined];
      }
      var table := new Table.Joined(tables[source], signature, bundle);
      InsertTable(table);
      return |tables| - 1;
    }

    /** The entity's row moves from one table to another. */
    method MigrateBetween(index: nat, registry: Entities, meta: EntityMeta, bundle: Bundle) returns (dropped: Bundle)
      requires Distinct(tables) && meta.table < |tables| && index < |tables| && index != meta.table
      requires Movers(ModelsOf(tables)[meta.table], ModelsOf(tables)[index], registry.Model(), meta, bundle)
      modifies tables[meta.table], tables[index], registry`dense
      ensures var before := old(ModelsOf(tables));
        && ModelsOf(tables) == before
             [meta.table := RemoveRow(before[meta.table], meta.handle)]
             [index := Filled(before[meta.table], before[index], old(registry.Model()), meta, bundle)]
        && registry.Model() == Rerecorded(before[meta.table], before[index], index, old(registry.Model()), meta, bundle)
      ensures dropped == []
    {
      ghost var before := ModelsOf(tables);
      dropped := Migrate(tables[meta.table], tables[index], index, registry, meta, bundle);
      forall k | 0 <= k < |tables| && k != meta.table && k != index ensures tables[k].Model() == before[k] {
        assert tables[k] != tables[meta.table] && tables[k] != tables[index];
      }
      TwoChanged(tables, before, meta.table, index);
    }

    /** The entity's row moves to the table of its combined archetype. */
    method MoveEntity(registry: Entities, meta: EntityMeta, bundle: Bundle, ghost a: ArchetypesData, ghost t: nat)
      returns (dropped: Bundle)
      requires Distinct(tables) && meta.table < |tables| && LookupOk(ModelsOf(tables)[meta.table])
      requires IsDisjoint(tables[meta.table].signature, SigOf(bundle))
      requires (a, t) == Storage.InsertTable(Model(), ModelsOf(tables)[meta.table], bundle)
      requires Movable(a, t, registry.Model(), meta, bundle)
      modifies this, tables, registry`dense
      ensures Distinct(tables) && forall t :: t in tables ==> t in old(tables) || fresh(t)
      ensures Model() == MovedTables(a, t, old(registry.Model()), meta, bundle)
      ensures registry.Model() == MovedRegistry(a, t, old(registry.Model()), meta, bundle)
      ensures dropped == []
    {
      var index := FindOrJoin(meta.table, bundle);
      assert tables[meta.table] in tables && tables[index] in tables;
      assert ModelsOf(tables) == a.tables && index == t;
      dropped := MigrateBetween(index, registry, meta, bundle);
    }

    /**
     `insert`: nothing happens to a dead entity; a live one moves to the table of its combined archetype. In no case
     is anything dropped out of the tables.
     */
    method Insert(registry: Entities, meta: EntityMeta, bundle: Bundle) returns (inserted: bool, dropped: Bundle)
      requires Distinct(tables) && registry.Model().Valid() && meta.handle.index < |registry.sparse|
      requires meta.handle in registry.Model().Live() ==>
        && Insertable(WorldData(Model(), registry.Model().Live()), meta.handle, bundle)
        && registry.Model().Live()[meta.handle] == meta
      modifies this, tables, registry`dense
      ensures Distinct(tables) && forall t :: t in tables ==> t in old(tables) || fresh(t)
      ensures registry.Model().Valid() && (inserted <==> meta.handle in old(registry.Model().Live()))
      ensures WorldData(Model(), registry.Model().Live()) == var w := old(WorldData(Model(), registry.Model().Live()));
        if inserted then Storage.Insert(w, meta.handle, bundle) else w
      ensures dropped == []
    {
      dropped := [];
      inserted := registry.IsAlive(meta.handle);
      if inserted {
        LiveRow(WorldData(Model(), registry.Model().Live()), meta.handle);
        ghost var (a, t) := Storage.InsertTable(Model(), Model().tables[meta.table], bundle);
        MovingIsInserting(Model(), registry.Model(), meta, bundle, a, t);
        dropped := MoveEntity(registry, meta, bundle, a, t);
      }
    }

    /** The entity's row leaves its table, and its components are dropped. */
    method Despawn(registry: Entities, meta: EntityMeta) returns (dropped: Bundle)
      requires Distinct(tables) && registry.Model().Valid() && meta.table < |tables|
      requires var source := Model().tables[meta.table];
        TableOk(source) && meta.handle in source.entityLookup && source.entityLookup[meta.handle] < |source.entities|
      modifies tables, registry`dense
      ensures var source := old(Model()).tables[meta.table];
        && Model() == old(Model()).(tables := old(Model()).tables[meta.table := RemoveRow(source, meta.handle)])
        && registry.Model() == AfterRemoval(old(registry.Model()), source, meta.handle)
        && dropped == RemoveDrops(source, meta.handle, true)
    {
      assert tables[meta.table] in tables;
      dropped := tables[meta.table].Remove(registry, meta.handle, true);
    }
  }

  /** What moving an entity needs: a row to leave, and a column for everything. */
  ghost predicate Movers(source: TableData, target: TableData, r: Registry, meta: EntityMeta, bundle: Bundle) {
    && TableOk(source) && meta.row < |source.entities|
    && meta.handle in source.entityLookup && source.entityLookup[meta.handle] < |source.entities|
    && LookupOk(target) && Fits(target, RowBundle(source, meta.row)) && Fits(target, bundle)
    && r.Valid() && AfterRemoval(r, source, meta.handle).Valid()
  }

  /** The destination with the new row, without and with the new components. */
  function WithCopy(source: TableData, target: TableData, r: Registry, meta: EntityMeta, bundle: Bundle)
    : (copied: TableData)
    requires Movers(source, target, r, meta, bundle)
    ensures LookupOk(copied) && Fits(copied, bundle)
  {
    AppendRow(target, meta.handle, RowBundle(source, meta.row))
  }

  function Filled(source: TableData, target: TableData, r: Registry, meta: EntityMeta, bundle: Bundle): TableData
    requires Movers(source, target, r, meta, bundle)
  {
    Tables.InsertInto(WithCopy(source, target, r, meta, bundle), bundle)
  }

  function Rerecorded(source: TableData, target: TableData, t: nat, r: Registry, meta: EntityMeta, bundle: Bundle)
    : Registry
    requires Movers(source, target, r, meta, bundle)
  {
    AfterRemoval(r, source, meta.handle)
      .SetMeta(meta.handle.index, EntityMeta(meta.handle, t, RecordedRow(WithCopy(source, target, r, meta, bundle))))
  }

  /** The same once the destination has been found or made. */
  ghost predicate Movable(a: ArchetypesData, t: nat, r: Registry, meta: EntityMeta, bundle: Bundle) {
    && t < |a.tables| && meta.table < |a.tables| && t != meta.table
    && Movers(a.tables[meta.table], a.tables[t], r, meta, bundle)
  }

  function MovedTables(a: ArchetypesData, t: nat, r: Registry, meta: EntityMeta, bundle: Bundle): ArchetypesData
    requires Movable(a, t, r, meta, bundle)
  {
    var source := a.tables[meta.table];
    a.(tables := a.tables
      [meta.table := RemoveRow(source, meta.handle)]
      [t := Filled(source, a.tables[t], r, meta, bundle)])
  }

  function MovedRegistry(a: ArchetypesData, t: nat, r: Registry, meta: EntityMeta, bundle: Bundle): Registry
    requires Movable(a, t, r, meta, bundle)
  {
    Rerecorded(a.tables[meta.table], a.tables[t], t, r, meta, bundle)
  }

  lemma CanMove(w: WorldData, r: Registry, meta: EntityMeta, bundle: Bundle)
    requires r.Valid() && r.Live() == w.live && Insertable(w, meta.handle, bundle) && w.live[meta.handle] == meta
    ensures Movable(Extended(w, meta.handle, bundle).archetypes, Destination(w, meta.handle, bundle), r, meta, bundle)
    ensures meta.table < |w.archetypes.tables| && Home(w, meta.handle) == w.archetypes.tables[meta.table]
    ensures Home(w, meta.handle) == Extended(w, meta.handle, bundle).archetypes.tables[meta.table]
    ensures IsDisjoint(Home(w, meta.handle).signature, SigOf(bundle))
  {
    LiveRow(w, meta.handle);
    DisjointSignatures(Home(w, meta.handle), bundle);
    InsertTableOk(w, meta.handle, bundle);
    assert TableOk(Target(w, meta.handle, bundle));
    RegistryFollows(r, w, meta.handle, meta);
  }

  lemma DisjointSignatures(source: TableData, bundle: Bundle)
    requires TableOk(source) && TypesOf(bundle) !! source.lookup.Keys
    ensures IsDisjoint(source.signature, SigOf(bundle))
  {
    SigOfMeaning(bundle);
    IsDisjointIff(source.signature, SigOf(bundle));
    forall ty: nat ensures !(Has(source.signature, ty) && Has(SigOf(bundle), ty)) {
      assert Has(source.signature, ty) <==> ty in source.lookup.Keys;
    }
  }

  lemma MovingIsInserting(a0: ArchetypesData, r: Registry, meta: EntityMeta, bundle: Bundle, a: ArchetypesData, t: nat)
    requires r.Valid() && Insertable(WorldData(a0, r.Live()), meta.handle, bundle) && r.Live()[meta.handle] == meta
    requires meta.table < |a0.tables| ==> (a, t) == InsertTable(a0, a0.tables[meta.table], bundle)
    ensures meta.table < |a0.tables| && LookupOk(a0.tables[meta.table])
    ensures IsDisjoint(a0.tables[meta.table].signature, SigOf(bundle))
    ensures Movable(a, t, r, meta, bundle) && MovedRegistry(a, t, r, meta, bundle).Valid()
    ensures Storage.Insert(WorldData(a0, r.Live()), meta.handle, bundle) ==
      WorldData(MovedTables(a, t, r, meta, bundle), MovedRegistry(a, t, r, meta, bundle).Live())
  {
    var w := WorldData(a0, r.Live());
    CanMove(w, r, meta, bundle);
    RegistryFollows(r, w, meta.handle,
      EntityMeta(meta.handle, Destination(w, meta.handle, bundle), RecordedRow(Copied(w, meta.handle, bundle))));
  }

  /** The registry keeps up with the tables: its live entries move exactly as the tables' rows do. */
  lemma RegistryFollows(r: Registry, w: WorldData, e: Entity, m: EntityMeta)
    requires r.Valid() && r.Live() == w.live && Sound(w) && e in w.live && m.handle == e
    ensures var after := AfterRemoval(r, Home(w, e), e);
      && after.Valid() && after.Live() == MovedLive(w.live, Records(Home(w, e)), Home(w, e).entityLookup[e])
      && after.SetMeta(e.index, m).Valid() && after.SetMeta(e.index, m).Live() == after.Live()[e := m]
  {
    LastIsLive(w, e);
    RemovalFollows(r, Home(w, e), e);
    var after := AfterRemoval(r, Home(w, e), e);
    after.LiveIff(e);
    after.SetMetaUpdates(e, m);
  }

  lemma LastIsLive(w: WorldData, e: Entity)
    requires Sound(w) && e in w.live
    ensures var t := Home(w, e); t.entities[|t.entities| - 1] in w.live
  {
    LiveRow(w, e);
    var grid, t, last := GridOf(w.archetypes.tables), w.live[e].table, |Home(w, e).entities| - 1;
    assert RowOwned(grid, Places(w), t, last);
    assert grid[t][last].entity == Home(w, e).entities[last];
  }

  lemma RemovalFollows(r: Registry, t: TableData, e: Entity)
    requires r.Valid() && TableOk(t) && e in t.entityLookup
    requires |t.entities| > 0 && t.entities[|t.entities| - 1] in r.Live()
    ensures AfterRemoval(r, t, e).Valid()
    ensures AfterRemoval(r, t, e).Live() == MovedLive(r.Live(), Records(t), t.entityLookup[e])
  {
    var moved := t.entities[|t.entities| - 1];
    r.LiveIff(moved);
    SetRowUpdates(r, moved, t.entityLookup[e]);
  }

  /** The registry once the row of `e` has left table `source`. */
  function AfterRemoval(r: Registry, source: TableData, e: Entity): Registry
    requires r.Valid()
  {
    if e in source.entityLookup && |source.entities| > 1
    then r.SetRow(source.entities[|source.entities| - 1].index, source.entityLookup[e])
    else r
  }

  /**
   `insert` after the destination is known: copy, remove, record the row, push the new components. What has been
   copied lives on in the destination, so nothing may be dropped.
   */
  method Migrate(source: Table, target: Table, index: nat, registry: Entities, meta: EntityMeta, bundle: Bundle)
    returns (dropped: Bundle)
    requires source != target && Movers(source.Model(), target.Model(), registry.Model(), meta, bundle)
    modifies source, target, registry`dense
    ensures source.Model() == RemoveRow(old(source.Model()), meta.handle)
    ensures target.Model() == Filled(old(source.Model()), old(target.Model()), old(registry.Model()), meta, bundle)
    ensures registry.Model() ==
      Rerecorded(old(source.Model()), old(target.Model()), index, old(registry.Model()), meta, bundle)
    ensures dropped == []
  {
    target.InsertCopy(meta.handle, source, meta.row);
    dropped := source.Remove(registry, meta.handle, false);
    var row := if |target.columns[0].items| == 0 then USIZE_MAX else |target.columns[0].items| - 1;
    var _ := registry.SetMeta(meta.handle.index, EntityMeta(meta.handle, index, row));
    target.InsertInto(bundle);
  }
}
