/**
 `spawn`, `insert` and `despawn` over all tables and the entity metadata at once.

 Each operation is written in the order of the source, shown to be a composition of three moves
 (an empty table is added, an entity leaves its table, an entity gets a full row at the end of a
 table), and the tables are shown to represent a map from entities to components.

 The row recorded in an entity's metadata can be wrong (see `InsertRefinesIff`), the row its table has for
 it never is. `Sound` and `Shows` go by the tables; `Inv` says that the recorded rows are right as well.
 */
module Storage {
  import opened Widths
  import opened EntityRegistry
  import opened Signatures
  import opened Tables
  import opened Placement

  /** The fields of `Archetypes`. */
  datatype ArchetypesData = ArchetypesData(
    generation: nat, tables: seq<TableData>, lookupArray: seq<Words>, lookup: map<Words, nat>)

  /** The archetypes, and the live entities with their metadata as the registry resolves them. */
  datatype WorldData = WorldData(archetypes: ArchetypesData, live: Live)

  // ---------------------------------------------------------------- the invariant

  /** One table per archetype, and the three indices agree. */
  ghost predicate ArchetypesOk(a: ArchetypesData) {
    && a.generation == |a.tables| == |a.lookupArray|
    && (forall i :: 0 <= i < |a.tables| ==> TableOk(a.tables[i]))
    && (forall i :: 0 <= i < |a.tables| ==> a.lookupArray[i] == a.tables[i].signature)
    && (forall i :: 0 <= i < |a.tables| ==> a.tables[i].signature in a.lookup && a.lookup[a.tables[i].signature] == i)
    && (forall sig :: sig in a.lookup ==> a.lookup[sig] < |a.tables| && a.tables[a.lookup[sig]].signature == sig)
  }

  function GridOf(tables: seq<TableData>): (g: Grid)
    ensures |g| == |tables| && forall i :: 0 <= i < |g| ==> g[i] == Records(tables[i])
  {
    seq(|tables|, i requires 0 <= i < |tables| => Records(tables[i]))
  }

  /** The metadata with the row that the entity's table has for it. */
  function Located(a: ArchetypesData, m: EntityMeta): EntityMeta {
    if m.table < |a.tables| && m.handle in a.tables[m.table].entityLookup
    then m.(row := a.tables[m.table].entityLookup[m.handle])
    else m
  }

  /** Where the live entities are, whatever rows are recorded. */
  function Places(w: WorldData): Live {
    map e | e in w.live :: Located(w.archetypes, w.live[e])
  }

  /** The indices agree, and every row of every table belongs to exactly one live entity. */
  ghost predicate Sound(w: WorldData) {
    ArchetypesOk(w.archetypes) && Placed(GridOf(w.archetypes.tables), Places(w))
  }

  /** The recorded rows are right, too. */
  ghost predicate Inv(w: WorldData) {
    Sound(w) && w.live == Places(w)
  }

  /** The world as a map from live entities to their components. */
  function Shows(w: WorldData): Contents {
    Abs(GridOf(w.archetypes.tables), Places(w))
  }

  /** The same read through the recorded rows. */
  function View(w: WorldData): Contents {
    Abs(GridOf(w.archetypes.tables), w.live)
  }

  ghost predicate SameHomes(live: Live, rows: Live) {
    live.Keys == rows.Keys &&
    forall e :: e in live ==> live[e].handle == rows[e].handle && live[e].table == rows[e].table
  }

  /** Only one assignment of rows fits the tables. */
  lemma RowsFollow(w: WorldData, rows: Live)
    requires ArchetypesOk(w.archetypes) && Placed(GridOf(w.archetypes.tables), rows) && SameHomes(w.live, rows)
    ensures Places(w) == rows
  {
    forall e | e in w.live ensures Located(w.archetypes, w.live[e]) == rows[e] {
      assert PointsRight(GridOf(w.archetypes.tables), e, rows[e]);
      assert TableOk(w.archetypes.tables[rows[e].table]);
    }
  }

  /** A world is sound if some assignment of rows fits its tables. */
  lemma SoundBy(w: WorldData, grid: Grid, rows: Live)
    requires ArchetypesOk(w.archetypes) && grid == GridOf(w.archetypes.tables)
    requires Placed(grid, rows) && SameHomes(w.live, rows)
    ensures Sound(w) && Places(w) == rows && Shows(w) == Abs(grid, rows)
    ensures Inv(w) <==> w.live == rows
  {
    RowsFollow(w, rows);
  }

  lemma PlacesHomes(w: WorldData)
    ensures SameHomes(w.live, Places(w))
  {
  }

  lemma MovedHomes(live: Live, rows: Live, records: seq<Record>, row: nat, e: Entity)
    requires SameHomes(live, rows)
    ensures SameHomes(MovedLive(live, records, row) - {e}, MovedLive(rows, records, row) - {e})
  {
  }

  function TablesValues(tables: seq<TableData>): multiset<Component> {
    if tables == [] then multiset{} else TablesValues(tables[..|tables| - 1]) + Values(tables[|tables| - 1])
  }

  /** All component values in all columns. */
  function AllValues(w: WorldData): multiset<Component> {
    TablesValues(w.archetypes.tables)
  }

  lemma {:induction false} TablesValuesUpdate(tables: seq<TableData>, t: nat, table: TableData)
    requires t < |tables|
    ensures TablesValues(tables[t := table]) + Values(tables[t]) == TablesValues(tables) + Values(table)
  {
    var n := |tables| - 1;
    var after := tables[t := table];
    if t < n {
      assert after[..n] == tables[..n][t := table] && after[n] == tables[n];
      TablesValuesUpdate(tables[..n], t, table);
      Regroup(TablesValues(after[..n]), Values(tables[t]), TablesValues(tables[..n]), Values(table), Values(tables[n]));
    } else {
      assert after[..n] == tables[..n];
    }
  }

  lemma GridUpdate(tables: seq<TableData>, t: nat, table: TableData)
    requires t < |tables|
    ensures GridOf(tables[t := table]) == GridOf(tables)[t := Records(table)]
  {
  }

  /** Replacing a table by one of the same signature keeps the indices right. */
  lemma ReplaceTableOk(a: ArchetypesData, t: nat, table: TableData)
    requires ArchetypesOk(a) && t < |a.tables| && TableOk(table) && table.signature == a.tables[t].signature
    ensures ArchetypesOk(a.(tables := a.tables[t := table]))
  {
  }

  lemma AddedHomes(live: Live, rows: Live, e: Entity, m: EntityMeta)
    requires SameHomes(live, rows)
    ensures SameHomes(live[e := m], rows[e := m])
  {
  }

  // ---------------------------------------------------------------- an entity leaves

  lemma LiveRow(w: WorldData, e: Entity)
    requires Sound(w) && e in w.live
    ensures var m := w.live[e]; m.handle == e && m.table < |w.archetypes.tables|
    ensures var m := w.live[e]; var t := w.archetypes.tables[m.table];
      && TableOk(t) && e in t.entityLookup && t.entityLookup[e] < |t.entities| && t.entities[t.entityLookup[e]] == e
      && Places(w)[e] == EntityMeta(e, m.table, t.entityLookup[e])
  {
    assert PointsRight(GridOf(w.archetypes.tables), e, Places(w)[e]);
  }

  /** The table a live entity is in. */
  function Home(w: WorldData, e: Entity): (t: TableData)
    requires Sound(w) && e in w.live
    ensures TableOk(t) && e in t.entityLookup && t.entityLookup[e] < |t.entities| && t.entities[t.entityLookup[e]] == e
  {
    LiveRow(w, e);
    w.archetypes.tables[w.live[e].table]
  }

  /** `Table::remove` for a live entity, whose entry then leaves the registry. */
  function Detach(w: WorldData, e: Entity): WorldData
    requires Sound(w) && e in w.live
  {
    LiveRow(w, e);
    var table := Home(w, e);
    WorldData(
      w.archetypes.(tables := w.archetypes.tables[w.live[e].table := RemoveRow(table, e)]),
      MovedLive(w.live, Records(table), table.entityLookup[e]) - {e})
  }

  lemma DetachTables(w: WorldData, e: Entity)
    requires Sound(w) && e in w.live
    ensures ArchetypesOk(Detach(w, e).archetypes)
    ensures var t, row := w.live[e].table, Home(w, e).entityLookup[e];
      var grid := GridOf(w.archetypes.tables);
      && t < |grid| && grid[t] == Records(Home(w, e)) && row < |grid[t]|
      && GridOf(Detach(w, e).archetypes.tables) == grid[t := SwapRemoved(grid[t], row)]
      && Places(w)[e] == EntityMeta(e, t, row)
  {
    LiveRow(w, e);
    var t, row, a := w.live[e].table, Home(w, e).entityLookup[e], w.archetypes;
    RemoveRowOk(a.tables[t], e, row);
    RemoveRowRecords(a.tables[t], e, row);
    ReplaceTableOk(a, t, RemoveRow(a.tables[t], e));
    GridUpdate(a.tables, t, RemoveRow(a.tables[t], e));
  }

  lemma DetachOk(w: WorldData, e: Entity)
    requires Sound(w) && e in w.live
    ensures Sound(Detach(w, e)) && Shows(Detach(w, e)) == Shows(w) - {e}
    ensures Places(Detach(w, e)) == MovedLive(Places(w), Records(Home(w, e)), Home(w, e).entityLookup[e]) - {e}
    ensures Inv(w) ==> Inv(Detach(w, e))
  {
    DetachTables(w, e);
    DetachPlaced(GridOf(w.archetypes.tables), Places(w), e);
    PlacesHomes(w);
    var records, row := Records(Home(w, e)), Home(w, e).entityLookup[e];
    MovedHomes(w.live, Places(w), records, row, e);
    SoundBy(Detach(w, e), GridOf(Detach(w, e).archetypes.tables), MovedLive(Places(w), records, row) - {e});
  }

  /** The values of a live entity, column by column. */
  function Owned(w: WorldData, e: Entity): Bundle
    requires Sound(w) && e in w.live
  {
    RowBundle(Home(w, e), Home(w, e).entityLookup[e])
  }

  lemma DetachValues(w: WorldData, e: Entity)
    requires Sound(w) && e in w.live
    ensures AllValues(Detach(w, e)) + multiset(Owned(w, e)) == AllValues(w)
  {
    LiveRow(w, e);
    var table := Home(w, e);
    RemoveRowValues(table, e, table.entityLookup[e]);
    TablesValuesUpdate(w.archetypes.tables, w.live[e].table, RemoveRow(table, e));
    Cancel(AllValues(w), Values(RemoveRow(table, e)), AllValues(Detach(w, e)), multiset(Owned(w, e)));
  }

  // ---------------------------------------------------------------- an entity arrives

  ghost predicate Attachable(w: WorldData, e: Entity, t: nat, bundle: Bundle) {
    && Sound(w) && e !in w.live && t < |w.archetypes.tables|
    && Full(w.archetypes.tables[t], bundle)
  }

  /** Table `t` has a column for everything in the bundle. */
  ghost predicate Ready(a: ArchetypesData, t: nat, bundle: Bundle) {
    t < |a.tables| && LookupOk(a.tables[t]) && Fits(a.tables[t], bundle)
  }

  function AppendTo(a: ArchetypesData, t: nat, e: Entity, bundle: Bundle): ArchetypesData
    requires Ready(a, t, bundle)
  {
    a.(tables := a.tables[t := AppendRow(a.tables[t], e, bundle)])
  }

  /** The entity gets a new row at the end of table `t`. */
  function Attach(w: WorldData, e: Entity, t: nat, bundle: Bundle): WorldData
    requires Ready(w.archetypes, t, bundle)
  {
    WorldData(
      AppendTo(w.archetypes, t, e, bundle), w.live[e := EntityMeta(e, t, |w.archetypes.tables[t].entities|)])
  }

  lemma AttachTables(w: WorldData, e: Entity, t: nat, bundle: Bundle)
    requires Attachable(w, e, t, bundle)
    ensures Ready(w.archetypes, t, bundle) && ArchetypesOk(AppendTo(w.archetypes, t, e, bundle))
    ensures var grid := GridOf(w.archetypes.tables);
      && |grid[t]| == |w.archetypes.tables[t].entities|
      && GridOf(AppendTo(w.archetypes, t, e, bundle).tables) == grid[t := grid[t] + [Record(e, AsMap(bundle))]]
  {
    var a := w.archetypes;
    forall r | 0 <= r < |a.tables[t].entities| ensures a.tables[t].entities[r] != e {
      NotStored(GridOf(a.tables), Places(w), e, t, r);
    }
    AppendRowOk(a.tables[t], e, bundle);
    AppendRowRecords(a.tables[t], e, bundle);
    ReplaceTableOk(a, t, AppendRow(a.tables[t], e, bundle));
    GridUpdate(a.tables, t, AppendRow(a.tables[t], e, bundle));
  }

  lemma AttachOk(w: WorldData, e: Entity, t: nat, bundle: Bundle)
    requires Attachable(w, e, t, bundle)
    ensures Ready(w.archetypes, t, bundle)
    ensures Sound(Attach(w, e, t, bundle)) && Shows(Attach(w, e, t, bundle)) == Shows(w)[e := AsMap(bundle)]
    ensures Places(Attach(w, e, t, bundle)) == Places(w)[e := EntityMeta(e, t, |w.archetypes.tables[t].entities|)]
    ensures Inv(w) ==> Inv(Attach(w, e, t, bundle))
  {
    AttachTables(w, e, t, bundle);
    AttachPlaced(GridOf(w.archetypes.tables), Places(w), e, t, AsMap(bundle));
    PlacesHomes(w);
    var w' := Attach(w, e, t, bundle);
    AddedHomes(w.live, Places(w), e, EntityMeta(e, t, |w.archetypes.tables[t].entities|));
    SoundBy(w', GridOf(w'.archetypes.tables), Places(w)[e := EntityMeta(e, t, |w.archetypes.tables[t].entities|)]);
  }

  lemma AttachValues(w: WorldData, e: Entity, t: nat, bundle: Bundle)
    requires Attachable(w, e, t, bundle)
    ensures Ready(w.archetypes, t, bundle)
    ensures AllValues(Attach(w, e, t, bundle)) == AllValues(w) + multiset(bundle)
  {
    var table := w.archetypes.tables[t];
    assert TableOk(table);
    InsertIntoValues(
      table.(entities := table.entities + [e], entityLookup := table.entityLookup[e := |table.entities|]), bundle);
    TablesValuesUpdate(w.archetypes.tables, t, AppendRow(table, e, bundle));
    Cancel(AllValues(Attach(w, e, t, bundle)), Values(table), AllValues(w), multiset(bundle));
  }

  // ---------------------------------------------------------------- a table is added

  /** `insert_table`. */
  function AddTable(a: ArchetypesData, table: TableData): ArchetypesData {
    ArchetypesData(
      a.generation + 1, a.tables + [table], a.lookupArray + [table.signature], a.lookup[table.signature := |a.tables|])
  }

  lemma AddTableIndices(a: ArchetypesData, table: TableData)
    requires ArchetypesOk(a) && TableOk(table) && table.signature !in a.lookup
    ensures ArchetypesOk(AddTable(a, table))
  {
  }

  lemma AddTableGrid(tables: seq<TableData>, table: TableData)
    requires table.entities == []
    ensures GridOf(tables + [table]) == GridOf(tables) + [[]]
  {
  }

  lemma AddTableValues(tables: seq<TableData>, table: TableData)
    requires Blank(table)
    ensures TablesValues(tables + [table]) == TablesValues(tables)
  {
    assert (tables + [table])[..|tables|] == tables;
    NoValues(table.columns);
  }

  lemma AddTableOk(w: WorldData, table: TableData)
    requires Sound(w) && TableOk(table) && Blank(table) && table.signature !in w.archetypes.lookup
    ensures var w' := w.(archetypes := AddTable(w.archetypes, table));
      Sound(w') && Places(w') == Places(w) && Shows(w') == Shows(w) && AllValues(w') == AllValues(w)
  {
    AddTableIndices(w.archetypes, table);
    AddTableGrid(w.archetypes.tables, table);
    AddTableValues(w.archetypes.tables, table);
    var grid := GridOf(w.archetypes.tables);
    EmptyTablePlaced(grid, Places(w));
    PlacesHomes(w);
    SoundBy(w.(archetypes := AddTable(w.archetypes, table)), grid + [[]], Places(w));
  }

  lemma {:induction false} NoValues(columns: seq<ColumnData>)
    requires forall c :: 0 <= c < |columns| ==> columns[c].items == []
    ensures ColumnsValues(columns) == multiset{}
  {
    if columns != [] { NoValues(columns[..|columns| - 1]); }
  }

  // ---------------------------------------------------------------- spawn

  /** The archetypes with a table for the bundle, and its index: `spawn` up to the insertion. */
  function SpawnTable(a: ArchetypesData, bundle: Bundle): (ArchetypesData, nat) {
    var sig := SigOf(bundle);
    if sig in a.lookup then (a, a.lookup[sig]) else (AddTable(a, NewTable(sig, bundle)), |a.tables|)
  }

  /** `w'` stores what `w` stores, and has table `t` with exactly the columns `types`. */
  ghost predicate Prepared(w: WorldData, w': WorldData, t: nat, types: set<nat>) {
    && Sound(w') && w'.live == w.live && Places(w') == Places(w)
    && Shows(w') == Shows(w) && AllValues(w') == AllValues(w)
    && |w.archetypes.tables| <= |w'.archetypes.tables|
    && (forall i :: 0 <= i < |w.archetypes.tables| ==> w'.archetypes.tables[i] == w.archetypes.tables[i])
    && t < |w'.archetypes.tables| && w'.archetypes.tables[t].lookup.Keys == types
  }

  lemma ReusedTable(w: WorldData, sig: Words, types: set<nat>)
    requires Sound(w) && sig in w.archetypes.lookup && forall ty: nat :: Has(sig, ty) <==> ty in types
    ensures Prepared(w, w, w.archetypes.lookup[sig], types)
  {
  }

  lemma AddedTable(w: WorldData, table: TableData)
    requires Sound(w) && TableOk(table) && Blank(table) && table.signature !in w.archetypes.lookup
    ensures Prepared(w, w.(archetypes := AddTable(w.archetypes, table)), |w.archetypes.tables|, table.lookup.Keys)
  {
    AddTableOk(w, table);
  }

  lemma SpawnTableOk(w: WorldData, bundle: Bundle)
    requires Sound(w) && bundle != [] && DistinctTypes(bundle)
    ensures var (a, t) := SpawnTable(w.archetypes, bundle);
      Prepared(w, w.(archetypes := a), t, TypesOf(bundle))
  {
    if SigOf(bundle) in w.archetypes.lookup {
      SigOfMeaning(bundle);
      ReusedTable(w, SigOf(bundle), TypesOf(bundle));
    } else {
      NewTableOk(bundle);
      AddedTable(w, NewTable(SigOf(bundle), bundle));
    }
  }

  lemma SpawnTableReady(w: WorldData, bundle: Bundle)
    requires Sound(w) && bundle != [] && DistinctTypes(bundle)
    ensures var (a, t) := SpawnTable(w.archetypes, bundle); Ready(a, t, bundle)
  {
    SpawnTableOk(w, bundle);
    var (a, t) := SpawnTable(w.archetypes, bundle);
    assert TableOk(a.tables[t]);
    TypesFit(a.tables[t], bundle);
  }

  function Spawn(w: WorldData, h: Entity, bundle: Bundle): WorldData
    requires Sound(w) && bundle != [] && DistinctTypes(bundle)
  {
    SpawnTableReady(w, bundle);
    var (a, t) := SpawnTable(w.archetypes, bundle);
    Attach(w.(archetypes := a), h, t, bundle)
  }

  /** `spawn` adds one entry to the map and leaves every other alone; no value is lost or invented. */
  lemma SpawnRefines(w: WorldData, h: Entity, bundle: Bundle)
    requires Sound(w) && bundle != [] && DistinctTypes(bundle) && h !in w.live
    ensures Sound(Spawn(w, h, bundle)) && (Inv(w) ==> Inv(Spawn(w, h, bundle)))
    ensures Shows(Spawn(w, h, bundle)) == Shows(w)[h := AsMap(bundle)]
    ensures AllValues(Spawn(w, h, bundle)) == AllValues(w) + multiset(bundle)
  {
    SpawnTableOk(w, bundle);
    var (a, t) := SpawnTable(w.archetypes, bundle);
    TypesFit(a.tables[t], bundle);
    AttachOk(w.(archetypes := a), h, t, bundle);
    AttachValues(w.(archetypes := a), h, t, bundle);
  }

  // ---------------------------------------------------------------- despawn

  /** `World::despawn`: nothing happens to a handle that does not resolve. */
  function Despawn(w: WorldData, e: Entity): WorldData
    requires Sound(w)
  {
    if e in w.live then Detach(w, e) else w
  }

  /** What `despawn` drops: the row it removes. */
  function DespawnDrops(w: WorldData, e: Entity): Bundle
    requires Sound(w)
  {
    if e in w.live then RemoveDrops(Home(w, e), e, true) else []
  }

  /** `despawn` takes one entry away and drops exactly the components of that entity. */
  lemma DespawnRefines(w: WorldData, e: Entity)
    requires Sound(w)
    ensures Sound(Despawn(w, e)) && (Inv(w) ==> Inv(Despawn(w, e)))
    ensures Shows(Despawn(w, e)) == Shows(w) - {e}
    ensures AllValues(Despawn(w, e)) + multiset(DespawnDrops(w, e)) == AllValues(w)
    ensures DespawnDrops(w, e) == if e in w.live then Owned(w, e) else []
    ensures e in w.live ==> DistinctTypes(Owned(w, e)) && AsMap(Owned(w, e)) == Shows(w)[e]
  {
    if e in w.live {
      DetachOk(w, e);
      DetachValues(w, e);
      OwnedIsShown(w, e);
    } else {
      assert Shows(w) - {e} == Shows(w);
    }
  }

  lemma OwnedIsShown(w: WorldData, e: Entity)
    requires Sound(w) && e in w.live
    ensures DistinctTypes(Owned(w, e)) && AsMap(Owned(w, e)) == Shows(w)[e]
    ensures RowOf(Home(w, e), Home(w, e).entityLookup[e]) == Shows(w)[e]
    ensures TypesOf(Owned(w, e)) == Home(w, e).lookup.Keys
  {
    LiveRow(w, e);
    RowBundleIsRow(Home(w, e), Home(w, e).entityLookup[e]);
  }

  // ---------------------------------------------------------------- insert

  /** The archetypes with a table for the columns of `source` and the bundle's types, and its index. */
  function InsertTable(a: ArchetypesData, source: TableData, bundle: Bundle): (ArchetypesData, nat) {
    var combined := CombinedSignature(source, bundle);
    if combined in a.lookup then (a, a.lookup[combined])
    else (AddTable(a, NewJoinedTable(source, SigOf(bundle), bundle)), |a.tables|)
  }

  /**
   What `insert` requires: the bundle shares no type with the table the entity is in, and the recorded row is a
   row of that table. (The source panics otherwise, before it has stored anything of the bundle.)
   */
  ghost predicate Insertable(w: WorldData, e: Entity, bundle: Bundle) {
    && Sound(w) && e in w.live && bundle != [] && DistinctTypes(bundle)
    && TypesOf(bundle) !! Home(w, e).lookup.Keys
    && w.live[e].row < |Home(w, e).entities|
  }

  /** What `insert` copies: the values in the recorded row. */
  function Fetched(w: WorldData, e: Entity): Bundle
    requires Sound(w) && e in w.live && w.live[e].row < |Home(w, e).entities|
  {
    RowBundle(Home(w, e), w.live[e].row)
  }

  lemma FetchedIsRow(w: WorldData, e: Entity)
    requires Sound(w) && e in w.live && w.live[e].row < |Home(w, e).entities|
    ensures DistinctTypes(Fetched(w, e)) && AsMap(Fetched(w, e)) == RowOf(Home(w, e), w.live[e].row)
    ensures TypesOf(Fetched(w, e)) == Home(w, e).lookup.Keys
  {
    RowBundleIsRow(Home(w, e), w.live[e].row);
  }

  /** The world with the destination table in place, and its index. */
  function Extended(w: WorldData, e: Entity, bundle: Bundle): WorldData
    requires Insertable(w, e, bundle)
  {
    w.(archetypes := InsertTable(w.archetypes, Home(w, e), bundle).0)
  }

  function Destination(w: WorldData, e: Entity, bundle: Bundle): nat
    requires Insertable(w, e, bundle)
  {
    InsertTable(w.archetypes, Home(w, e), bundle).1
  }

  lemma InsertTableOk(w: WorldData, e: Entity, bundle: Bundle)
    requires Insertable(w, e, bundle)
    ensures Prepared(w, Extended(w, e, bundle), Destination(w, e, bundle), Home(w, e).lookup.Keys + TypesOf(bundle))
  {
    var source, combined := Home(w, e), CombinedSignature(Home(w, e), bundle);
    LiveRow(w, e);
    if combined in w.archetypes.lookup {
      CombinedMeaning(source, bundle);
      ReusedTable(w, combined, source.lookup.Keys + TypesOf(bundle));
    } else {
      NewJoinedTableOk(source, bundle);
      AddedTable(w, NewJoinedTable(source, SigOf(bundle), bundle));
    }
  }

  /** The destination table, which is never the one the entity is in. */
  function Target(w: WorldData, e: Entity, bundle: Bundle): (t: TableData)
    requires Insertable(w, e, bundle)
    ensures TableOk(t) && Fits(t, Fetched(w, e)) && Fits(t, bundle)
    ensures t.lookup.Keys == Home(w, e).lookup.Keys + TypesOf(bundle)
    ensures Destination(w, e, bundle) < |Extended(w, e, bundle).archetypes.tables|
    ensures t == Extended(w, e, bundle).archetypes.tables[Destination(w, e, bundle)]
    ensures Destination(w, e, bundle) != w.live[e].table < |Extended(w, e, bundle).archetypes.tables|
  {
    InsertTableOk(w, e, bundle);
    FetchedIsRow(w, e);
    LiveRow(w, e);
    assert bundle[|bundle| - 1].ty in TypesOf(bundle);
    var t := Extended(w, e, bundle).archetypes.tables[Destination(w, e, bundle)];
    TypesFit(t, Fetched(w, e));
    TypesFit(t, bundle);
    t
  }

  /** `columns[0].len() - 1` in `usize` arithmetic. */
  function RecordedRow(t: TableData): nat
    requires t.columns != []
  {
    if |t.columns[0].items| == 0 then USIZE_MAX else |t.columns[0].items| - 1
  }

  /** The destination once the entity and its old components are in it, before the new ones are. */
  function Copied(w: WorldData, e: Entity, bundle: Bundle): (r: TableData)
    requires Insertable(w, e, bundle)
    ensures LookupOk(r) && r.lookup == Target(w, e, bundle).lookup
    ensures r.columns[0].ty == Target(w, e, bundle).columns[0].ty
  {
    AppendRow(Target(w, e, bundle), e, Fetched(w, e))
  }

  /** `insert`, in the order of the source: the row is recorded between the copied and the new components. */
  function Insert(w: WorldData, e: Entity, bundle: Bundle): WorldData
    requires Insertable(w, e, bundle)
  {
    var source, target, t := Home(w, e), Target(w, e, bundle), Destination(w, e, bundle);
    var extended, copied := Extended(w, e, bundle).archetypes, Copied(w, e, bundle);
    WorldData(
      extended.(tables := extended.tables[w.live[e].table := RemoveRow(source, e)][t := InsertInto(copied, bundle)]),
      MovedLive(w.live, Records(source), source.entityLookup[e])[e := EntityMeta(e, t, RecordedRow(copied))])
  }

  /** Column 0 of the destination holds a component the entity already has. */
  predicate Column0Carried(w: WorldData, e: Entity, bundle: Bundle)
    requires Insertable(w, e, bundle)
  {
    Target(w, e, bundle).columns[0].ty in Home(w, e).lookup
  }

  lemma CopiedColumn0(w: WorldData, e: Entity, bundle: Bundle)
    requires Insertable(w, e, bundle)
    ensures |Copied(w, e, bundle).columns[0].items| ==
      |Target(w, e, bundle).entities| + if Column0Carried(w, e, bundle) then 1 else 0
  {
    FetchedIsRow(w, e);
    var dst := Target(w, e, bundle);
    InsertIntoItems(
      dst.(entities := dst.entities + [e], entityLookup := dst.entityLookup[e := |dst.entities|]), Fetched(w, e), 0);
    assert dst.columns[0].ty in AsMap(Fetched(w, e)) <==> dst.columns[0].ty in TypesOf(Fetched(w, e));
  }

  lemma RecordedRowRightIff(w: WorldData, e: Entity, bundle: Bundle)
    requires Insertable(w, e, bundle)
    ensures RecordedRow(Copied(w, e, bundle)) == |Target(w, e, bundle).entities| <==> Column0Carried(w, e, bundle)
  {
    CopiedColumn0(w, e, bundle);
  }

  /** The entity's old and new components together are a full row of the destination. */
  lemma BothAreFull(w: WorldData, e: Entity, bundle: Bundle)
    requires Insertable(w, e, bundle)
    ensures Full(Target(w, e, bundle), Fetched(w, e) + bundle)
    ensures AsMap(Fetched(w, e) + bundle) == RowOf(Home(w, e), w.live[e].row) + AsMap(bundle)
  {
    FetchedIsRow(w, e);
    AsMapConcat(Fetched(w, e), bundle);
    TypesConcat(Fetched(w, e), bundle);
  }

  /** The destination after the whole of `insert` is the destination with one full row appended. */
  lemma FilledIsAppended(w: WorldData, e: Entity, bundle: Bundle)
    requires Insertable(w, e, bundle) && Full(Target(w, e, bundle), Fetched(w, e) + bundle)
    ensures InsertInto(Copied(w, e, bundle), bundle) == AppendRow(Target(w, e, bundle), e, Fetched(w, e) + bundle)
  {
    var dst := Target(w, e, bundle);
    var entered := dst.(entities := dst.entities + [e], entityLookup := dst.entityLookup[e := |dst.entities|]);
    InsertIntoConcat(entered, Fetched(w, e), bundle);
  }

  /** The world between the two moves: the destination is there and the entity is nowhere. */
  function Outside(w: WorldData, e: Entity, bundle: Bundle): WorldData
    requires Insertable(w, e, bundle)
  {
    InsertTableOk(w, e, bundle);
    Detach(Extended(w, e, bundle), e)
  }

  lemma OutsideOk(w: WorldData, e: Entity, bundle: Bundle)
    requires Insertable(w, e, bundle)
    ensures Attachable(Outside(w, e, bundle), e, Destination(w, e, bundle), Fetched(w, e) + bundle)
    ensures AllValues(Outside(w, e, bundle)) + multiset(Owned(w, e)) == AllValues(w)
    ensures Shows(Outside(w, e, bundle)) == Shows(w) - {e}
    ensures Places(Outside(w, e, bundle)) == MovedLive(Places(w), Records(Home(w, e)), Home(w, e).entityLookup[e]) - {e}
    ensures Inv(w) ==> Inv(Outside(w, e, bundle))
  {
    InsertTableOk(w, e, bundle);
    BothAreFull(w, e, bundle);
    var extended := Extended(w, e, bundle);
    LiveRow(w, e);
    assert Home(extended, e) == Home(w, e);
    assert Target(w, e, bundle) == Outside(w, e, bundle).archetypes.tables[Destination(w, e, bundle)];
    DetachOk(extended, e);
    DetachValues(extended, e);
  }

  /** The entity has arrived with both bundles. */
  function Moved(w: WorldData, e: Entity, bundle: Bundle): WorldData
    requires Insertable(w, e, bundle)
  {
    OutsideOk(w, e, bundle);
    Attach(Outside(w, e, bundle), e, Destination(w, e, bundle), Fetched(w, e) + bundle)
  }

  lemma OutsideParts(w: WorldData, e: Entity, bundle: Bundle)
    requires Insertable(w, e, bundle)
    ensures w.live[e].table < |Extended(w, e, bundle).archetypes.tables|
    ensures Outside(w, e, bundle).archetypes == Extended(w, e, bundle).archetypes.(
      tables := Extended(w, e, bundle).archetypes.tables[w.live[e].table := RemoveRow(Home(w, e), e)])
    ensures Outside(w, e, bundle).live == MovedLive(w.live, Records(Home(w, e)), Home(w, e).entityLookup[e]) - {e}
  {
    InsertTableOk(w, e, bundle);
    LiveRow(w, e);
  }

  lemma MapMove<K, V>(m: map<K, V>, k: K, v: V, v': V)
    ensures (m - {k})[k := v] == m[k := v] && m[k := v][k := v'] == m[k := v']
  {
  }

  /** `insert` is: take the entity out, put it back with what was copied and the bundle, then rewrite its row. */
  lemma InsertIsAMove(w: WorldData, e: Entity, bundle: Bundle)
    requires Insertable(w, e, bundle)
    ensures Moved(w, e, bundle).live[e] == EntityMeta(e, Destination(w, e, bundle), |Target(w, e, bundle).entities|)
    ensures Insert(w, e, bundle).archetypes == Moved(w, e, bundle).archetypes
    ensures Insert(w, e, bundle).live == Moved(w, e, bundle).live[e :=
      EntityMeta(e, Destination(w, e, bundle), RecordedRow(Copied(w, e, bundle)))]
  {
    OutsideParts(w, e, bundle);
    BothAreFull(w, e, bundle);
    FilledIsAppended(w, e, bundle);
    var live := MovedLive(w.live, Records(Home(w, e)), Home(w, e).entityLookup[e]);
    var m := EntityMeta(e, Destination(w, e, bundle), RecordedRow(Copied(w, e, bundle)));
    MapMove(live, e, Moved(w, e, bundle).live[e], m);
  }

  lemma MovedOk(w: WorldData, e: Entity, bundle: Bundle)
    requires Insertable(w, e, bundle)
    ensures Sound(Moved(w, e, bundle)) && (Inv(w) ==> Inv(Moved(w, e, bundle)))
    ensures Shows(Moved(w, e, bundle)) == Shows(w)[e := RowOf(Home(w, e), w.live[e].row) + AsMap(bundle)]
    ensures Places(Moved(w, e, bundle)) == Places(Outside(w, e, bundle))[e := Moved(w, e, bundle).live[e]]
  {
    OutsideOk(w, e, bundle);
    BothAreFull(w, e, bundle);
    AttachOk(Outside(w, e, bundle), e, Destination(w, e, bundle), Fetched(w, e) + bundle);
    MapMove(Shows(w), e, RowOf(Home(w, e), w.live[e].row) + AsMap(bundle), map[]);
  }

  /** The values copied and those handed over come in, the entity's own go out. */
  lemma MovedValues(w: WorldData, e: Entity, bundle: Bundle)
    requires Insertable(w, e, bundle)
    ensures AllValues(Moved(w, e, bundle)) + multiset(Owned(w, e)) ==
      AllValues(w) + multiset(Fetched(w, e)) + multiset(bundle)
  {
    OutsideOk(w, e, bundle);
    AttachValues(Outside(w, e, bundle), e, Destination(w, e, bundle), Fetched(w, e) + bundle);
    Readd(AllValues(Outside(w, e, bundle)), Fetched(w, e), bundle);
    Exchange(AllValues(Outside(w, e, bundle)), multiset(Fetched(w, e)), multiset(bundle), multiset(Owned(w, e)));
  }

  lemma Readd<T>(rest: multiset<T>, first: seq<T>, second: seq<T>)
    ensures rest + multiset(first + second) == rest + multiset(first) + multiset(second)
  {
  }

  lemma Exchange<T>(a: multiset<T>, b: multiset<T>, c: multiset<T>, d: multiset<T>)
    ensures a + b + c + d == (a + d) + b + c
  {
  }

  /** Rewriting the row of one entity changes nothing that is stored, and is right exactly when it changes nothing. */
  lemma RewrittenRow(w: WorldData, w': WorldData, e: Entity, m: EntityMeta)
    requires Sound(w) && e in w.live && m.handle == w.live[e].handle && m.table == w.live[e].table
    requires w'.archetypes == w.archetypes && w'.live == w.live[e := m]
    ensures Sound(w') && Places(w') == Places(w) && Shows(w') == Shows(w)
    ensures Inv(w) ==> (Inv(w') <==> m == w.live[e])
  {
    PlacesHomes(w);
    OneRewritten(w.live, Places(w), e, m);
    SoundBy(w', GridOf(w.archetypes.tables), Places(w));
    SameEntry(w.live, e, m);
  }

  lemma SameEntry(live: Live, e: Entity, m: EntityMeta)
    requires e in live
    ensures live[e := m] == live <==> m == live[e]
  {
  }

  lemma OneRewritten(live: Live, rows: Live, e: Entity, m: EntityMeta)
    requires SameHomes(live, rows) && e in live && m.handle == live[e].handle && m.table == live[e].table
    ensures SameHomes(live[e := m], rows)
  {
  }

  /**
   `insert` in any sound world: the entity shows what its recorded row showed and the bundle, no other entity
   shows anything else. The values of the recorded row are copied, those of the entity's own row are gone.
   */
  lemma InsertKeeps(w: WorldData, e: Entity, bundle: Bundle)
    requires Insertable(w, e, bundle)
    ensures Sound(Insert(w, e, bundle))
    ensures Shows(Insert(w, e, bundle)) == Shows(w)[e := RowOf(Home(w, e), w.live[e].row) + AsMap(bundle)]
    ensures AllValues(Insert(w, e, bundle)) + multiset(Owned(w, e)) ==
      AllValues(w) + multiset(Fetched(w, e)) + multiset(bundle)
  {
    InsertIsAMove(w, e, bundle);
    MovedOk(w, e, bundle);
    MovedValues(w, e, bundle);
    RewrittenRow(Moved(w, e, bundle), Insert(w, e, bundle), e,
      EntityMeta(e, Destination(w, e, bundle), RecordedRow(Copied(w, e, bundle))));
  }

  /** What `insert` drops out of the tables: it removes the row without dropping it. */
  function InsertDrops(w: WorldData, e: Entity, bundle: Bundle): Bundle
    requires Insertable(w, e, bundle)
  {
    RemoveDrops(Home(w, e), e, false)
  }

  /** The row recorded by `insert` is right exactly when column 0 of the destination is carried over. */
  lemma InsertRecordsRightRowIff(w: WorldData, e: Entity, bundle: Bundle)
    requires Insertable(w, e, bundle)
    ensures var w' := Insert(w, e, bundle); w'.live[e] == Places(w')[e] <==> Column0Carried(w, e, bundle)
  {
    InsertIsAMove(w, e, bundle);
    MovedOk(w, e, bundle);
    RecordedRowRightIff(w, e, bundle);
    RewrittenRow(Moved(w, e, bundle), Insert(w, e, bundle), e,
      EntityMeta(e, Destination(w, e, bundle), RecordedRow(Copied(w, e, bundle))));
  }

  /**
   Where all recorded rows are right, `insert` keeps them right exactly when column 0 of the destination is
   carried over. In either case it adds the bundle to the entity's entry, changes no other, moves each old
   value once and drops none.
   */
  lemma InsertRefinesIff(w: WorldData, e: Entity, bundle: Bundle)
    requires Inv(w) && Insertable(w, e, bundle)
    ensures Inv(Insert(w, e, bundle)) <==> Column0Carried(w, e, bundle)
    ensures Sound(Insert(w, e, bundle)) && Shows(Insert(w, e, bundle)) == Shows(w)[e := Shows(w)[e] + AsMap(bundle)]
    ensures AllValues(Insert(w, e, bundle)) == AllValues(w) + multiset(bundle)
  {
    InsertIsAMove(w, e, bundle);
    MovedOk(w, e, bundle);
    RecordedRowRightIff(w, e, bundle);
    RewrittenRow(Moved(w, e, bundle), Insert(w, e, bundle), e,
      EntityMeta(e, Destination(w, e, bundle), RecordedRow(Copied(w, e, bundle))));
    InsertKeeps(w, e, bundle);
    LiveRow(w, e);
    OwnedIsShown(w, e);
    Uncross(AllValues(Insert(w, e, bundle)), multiset(Owned(w, e)), AllValues(w), multiset(bundle));
  }

  lemma Uncross<T>(a: multiset<T>, x: multiset<T>, b: multiset<T>, y: multiset<T>)
    ensures a + x == b + x + y <==> a == b + y
  {
    assert (a + x) - x == a;
    assert (b + x + y) - x == b + y;
  }

  /** `insert` conserves the values exactly when the recorded row holds what the entity's own row holds. */
  lemma InsertConservesIff(w: WorldData, e: Entity, bundle: Bundle)
    requires Insertable(w, e, bundle)
    ensures AllValues(Insert(w, e, bundle)) == AllValues(w) + multiset(bundle) <==>
      RowOf(Home(w, e), w.live[e].row) == Shows(w)[e]
  {
    InsertKeeps(w, e, bundle);
    OwnedIsShown(w, e);
    SameRowIff(Home(w, e), w.live[e].row, Home(w, e).entityLookup[e]);
    Crossed(AllValues(Insert(w, e, bundle)), multiset(Owned(w, e)),
      AllValues(w), multiset(Fetched(w, e)), multiset(bundle));
  }

  lemma Crossed<T>(a: multiset<T>, x: multiset<T>, b: multiset<T>, z: multiset<T>, y: multiset<T>)
    requires a + x == b + z + y
    ensures a == b + y <==> x == z
  {
    if a == b + y {
      assert (b + y + x) - (b + y) == x && (b + y + z) - (b + y) == z;
      assert b + y + x == b + y + z;
    } else if x == z {
      Uncross(a, x, b, y);
    }
  }

  /** Seen before the call: the destination is new, or its first column is already among the entity's. */
  lemma Column0CarriedIff(w: WorldData, e: Entity, bundle: Bundle)
    requires Insertable(w, e, bundle)
    ensures var combined, lookup := CombinedSignature(Home(w, e), bundle), w.archetypes.lookup;
      Column0Carried(w, e, bundle) <==>
        combined in lookup ==> w.archetypes.tables[lookup[combined]].columns[0].ty in Home(w, e).lookup
  {
    var combined := CombinedSignature(Home(w, e), bundle);
    if combined in w.archetypes.lookup {
      assert TableOk(w.archetypes.tables[w.archetypes.lookup[combined]]);
    } else {
      NewJoinedTableOk(Home(w, e), bundle);
    }
  }

  // ---------------------------------------------------------------- one table per archetype

  /** Two tables with the same component set are the same table. */
  lemma OneTablePerArchetype(a: ArchetypesData, i: nat, j: nat)
    requires ArchetypesOk(a) && i < |a.tables| && j < |a.tables|
    ensures a.tables[i].lookup.Keys == a.tables[j].lookup.Keys <==> i == j
  {
    assert TableOk(a.tables[i]) && TableOk(a.tables[j]);
    if a.tables[i].lookup.Keys == a.tables[j].lookup.Keys {
      forall ty: nat ensures Has(a.tables[i].signature, ty) <==> Has(a.tables[j].signature, ty) {
        assert ty in a.tables[i].lookup.Keys <==> ty in a.tables[j].lookup.Keys;
      }
      NormalUnique(a.tables[i].signature, a.tables[j].signature);
    }
  }

  /** `lookup` finds the table of a component set whenever there is one, by the bundle's signature alone. */
  lemma LookupFindsArchetype(a: ArchetypesData, i: nat, bundle: Bundle)
    requires ArchetypesOk(a) && i < |a.tables|
    ensures a.tables[i].lookup.Keys == TypesOf(bundle) <==> SigOf(bundle) in a.lookup && a.lookup[SigOf(bundle)] == i
  {
    var t := a.tables[i];
    assert TableOk(t);
    SigOfMeaning(bundle);
    if t.lookup.Keys == TypesOf(bundle) {
      forall ty: nat ensures Has(t.signature, ty) <==> Has(SigOf(bundle), ty) {
        assert ty in t.lookup.Keys <==> ty in TypesOf(bundle);
      }
      NormalUnique(t.signature, SigOf(bundle));
    } else if SigOf(bundle) in a.lookup && a.lookup[SigOf(bundle)] == i {
      ColumnsOfSignature(t, TypesOf(bundle));
    }
  }

  /** A live entity is in the table whose columns are exactly its components. */
  lemma HomeIsArchetype(w: WorldData, e: Entity)
    requires Sound(w) && e in w.live
    ensures Home(w, e).lookup.Keys == Shows(w)[e].Keys
  {
    OwnedIsShown(w, e);
  }

  /** A row belongs to exactly one live entity, and holds what the map has for it. */
  lemma RowIsEntry(w: WorldData, t: nat, r: nat)
    requires Sound(w) && t < |w.archetypes.tables| && r < |w.archetypes.tables[t].entities|
    ensures var table := w.archetypes.tables[t];
      && table.entities[r] in w.live && Places(w)[table.entities[r]] == EntityMeta(table.entities[r], t, r)
      && Shows(w)[table.entities[r]] == RowOf(table, r) && RowOf(table, r).Keys == table.lookup.Keys
  {
    var grid, e := GridOf(w.archetypes.tables), w.archetypes.tables[t].entities[r];
    assert TableOk(w.archetypes.tables[t]);
    assert RowOwned(grid, Places(w), t, r);
    assert PointsRight(grid, e, Places(w)[e]);
    RowBundleIsRow(w.archetypes.tables[t], r);
  }
}
