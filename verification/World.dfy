/** The world as an object: the entity registry and the archetypes, kept in step. */
module Worlds {
  import opened EntityRegistry
  import opened Tables
  import opened Placement
  import opened Storage
  import opened WorldObjects

  /** A row to leave, and a registry that can follow. */
  ghost predicate Leaver(a: ArchetypesData, r: Registry, meta: EntityMeta) {
    && meta.table < |a.tables| && TableOk(a.tables[meta.table])
    && meta.handle in a.tables[meta.table].entityLookup
    && a.tables[meta.table].entityLookup[meta.handle] < |a.tables[meta.table].entities|
    && r.Valid() && AfterRemoval(r, a.tables[meta.table], meta.handle).Valid()
    && meta.handle.index < |AfterRemoval(r, a.tables[meta.table], meta.handle).sparse|
  }

  function LeftTables(a: ArchetypesData, r: Registry, meta: EntityMeta): ArchetypesData
    requires Leaver(a, r, meta)
  {
    a.(tables := a.tables[meta.table := RemoveRow(a.tables[meta.table], meta.handle)])
  }

  function LeftRegistry(a: ArchetypesData, r: Registry, meta: EntityMeta): Registry
    requires Leaver(a, r, meta)
  {
    AfterRemoval(r, a.tables[meta.table], meta.handle).Despawn(meta.handle)
  }

  function LeftBehind(a: ArchetypesData, r: Registry, meta: EntityMeta): Bundle
    requires Leaver(a, r, meta)
  {
    RemoveDrops(a.tables[meta.table], meta.handle, true)
  }

  lemma CanLeave(r: Registry, w: WorldData, meta: EntityMeta)
    requires r.Valid() && r.Live() == w.live && Sound(w) && meta.handle in w.live && w.live[meta.handle] == meta
    ensures Leaver(w.archetypes, r, meta) && LeftRegistry(w.archetypes, r, meta).Valid()
    ensures Detach(w, meta.handle) ==
      WorldData(LeftTables(w.archetypes, r, meta), LeftRegistry(w.archetypes, r, meta).Live())
    ensures Owned(w, meta.handle) == LeftBehind(w.archetypes, r, meta)
  {
    LiveRow(w, meta.handle);
    RegistryFollows(r, w, meta.handle, meta);
    var after := AfterRemoval(r, Home(w, meta.handle), meta.handle);
    after.LiveIff(meta.handle);
    after.DespawnRemoves(meta.handle);
  }

  /** Leaving that way is `despawn`. */
  lemma LeavingIsDespawning(r: Registry, w: WorldData, meta: EntityMeta)
    requires r.Valid() && r.Live() == w.live && Sound(w) && meta.handle in w.live && w.live[meta.handle] == meta
    ensures Leaver(w.archetypes, r, meta) && LeftRegistry(w.archetypes, r, meta).Valid()
    ensures Storage.Despawn(w, meta.handle) ==
      WorldData(LeftTables(w.archetypes, r, meta), LeftRegistry(w.archetypes, r, meta).Live())
    ensures LeftBehind(w.archetypes, r, meta) == Owned(w, meta.handle)
  {
    CanLeave(r, w, meta);
  }

  /** What leaves the world is exactly what it showed for the entity. */
  ghost predicate Dropped(w: WorldData, e: Entity, dropped: Bundle) {
    if e in Shows(w) then DistinctTypes(dropped) && AsMap(dropped) == Shows(w)[e] else dropped == []
  }

  lemma DroppedIsOwned(w: WorldData, e: Entity, dropped: Bundle)
    requires Sound(w) && dropped == if e in w.live then Owned(w, e) else []
    ensures Dropped(w, e, dropped)
  {
    if e in w.live { OwnedIsShown(w, e); }
  }

  class World {
    const archetypes: Archetypes
    const entities: Entities

    ghost function Model(): WorldData
      requires entities.Model().Valid()
      reads archetypes, archetypes.tables, entities
    {
      WorldData(archetypes.Model(), entities.Model().Live())
    }

    ghost predicate Valid()
      reads archetypes, archetypes.tables, entities
    {
      Distinct(archetypes.tables) && entities.Model().Valid() && Sound(Model())
    }

    /** What the world shows, as long as its tables are in order: the live entities and their components. */
    ghost function Shown(): Option<Contents>
      reads archetypes, archetypes.tables, entities
    {
      if Valid() then Some(Shows(Model())) else None
    }

    constructor ()
      ensures fresh(archetypes) && fresh(entities) && Shown() == Some(map[])
    {
      archetypes := new Archetypes();
      entities := new Entities();
    }

    /** The entity spawned has a handle never handed out before and exactly the components of the bundle. */
    method Spawn(bundle: Bundle) returns (h: Entity)
      requires Valid() && entities.Model().CanAllocate() && bundle != [] && DistinctTypes(bundle)
      modifies archetypes, archetypes.tables, entities
      ensures !old(entities.Model().Issued(h)) && entities.Model().Valid()
      ensures Model() == Storage.Spawn(old(Model()), h, bundle)
      ensures Shown() == Some(old(Shows(Model()))[h := AsMap(bundle)])
      ensures h !in old(Model()).live && forall t :: t in archetypes.tables ==> t in old(archetypes.tables) || fresh(t)
    {
      ghost var w := Model();
      SpawnTableReady(w, bundle);
      h := SpawnRow(bundle);
      SpawnRefines(w, h, bundle);
      assert Model() == Storage.Spawn(w, h, bundle);
    }

    method SpawnRow(bundle: Bundle) returns (h: Entity)
      requires Distinct(archetypes.tables) && entities.Model().Valid() && entities.Model().CanAllocate()
      requires var (a, t) := SpawnTable(archetypes.Model(), bundle); Ready(a, t, bundle)
      modifies archetypes, archetypes.tables, entities
      ensures Distinct(archetypes.tables) && entities.Model().Valid()
      ensures forall t :: t in archetypes.tables ==> t in old(archetypes.tables) || fresh(t)
      ensures !old(entities.Model().Issued(h)) && h !in old(entities.Model().Live())
      ensures var (a, t) := SpawnTable(old(archetypes.Model()), bundle);
        && archetypes.Model() == AppendTo(a, t, h, bundle)
        && entities.Model().Live() == old(entities.Model().Live())[h := EntityMeta(h, t, |a.tables[t].entities|)]
    {
      h := NewHandle();
      var meta := archetypes.Spawn(h, bundle);
      ghost var after := archetypes.Model();
      entities.Spawn(meta);
      assert archetypes.Model() == after;
    }

    method NewHandle() returns (h: Entity)
      requires entities.Model().Valid() && entities.Model().CanAllocate()
      modifies entities
      ensures entities.Model().Valid() && entities.Model().Live() == old(entities.Model().Live())
      ensures !old(entities.Model().Issued(h)) && entities.Model().Pending(h) && h !in entities.Model().Live()
    {
      h := entities.Allocate();
      entities.Model().LiveIff(h);
    }

    /**
     `EntityMut::insert`: the entity shows what its recorded row showed and the bundle, no other entity shows
     anything else. Where all recorded rows were right they stay so exactly when column 0 is carried over.
     */
    method Insert(e: Entity, bundle: Bundle) returns (dropped: Bundle)
      requires Valid() && Insertable(Model(), e, bundle)
      modifies archetypes, archetypes.tables, entities
      ensures entities.Model().Valid() && Model() == Storage.Insert(old(Model()), e, bundle)
      ensures dropped == []
      ensures forall t :: t in archetypes.tables ==> t in old(archetypes.tables) || fresh(t)
      ensures Shown() == Some(old(Shows(Model())[e := RowOf(Home(Model(), e), Model().live[e].row) + AsMap(bundle)]))
      ensures old(Inv(Model())) ==> (Inv(Model()) <==> old(Column0Carried(Model(), e, bundle)))
    {
      ghost var w := Model();
      entities.Model().LiveIff(e);
      var meta := entities.GetMeta(e);
      var inserted;
      inserted, dropped := archetypes.Insert(entities, meta.value, bundle);
      assert Model() == Storage.Insert(w, e, bundle);
      InsertKeeps(w, e, bundle);
      if Inv(w) { InsertRefinesIff(w, e, bundle); }
    }

    /** A dead handle changes nothing; a live entity leaves, and no other entity shows anything else. */
    method Despawn(e: Entity) returns (dropped: Bundle)
      requires Valid()
      modifies archetypes.tables, entities
      ensures Shown() == Some(old(Shows(Model())) - {e})
      ensures Dropped(old(Model()), e, dropped)
      ensures entities.Model().Valid() && Model() == Storage.Despawn(old(Model()), e)
      ensures dropped == DespawnDrops(old(Model()), e)
    {
      ghost var w := Model();
      dropped := DespawnRowOf(e);
      DespawnRefines(w, e);
      DroppedIsOwned(w, e, dropped);
    }

    method DespawnRowOf(e: Entity) returns (dropped: Bundle)
      requires Valid()
      modifies archetypes.tables, entities
      ensures entities.Model().Valid() && Model() == Storage.Despawn(old(Model()), e)
      ensures dropped == if e in old(Model()).live then Owned(old(Model()), e) else []
    {
      ghost var w := Model();
      var meta := entities.GetMeta(e);
      if meta.None? {
        return [];
      }
      LeavingIsDespawning(entities.Model(), w, meta.value);
      dropped := DespawnRow(meta.value);
      assert Model() == Storage.Despawn(w, e);
    }

    method DespawnRow(meta: EntityMeta) returns (dropped: Bundle)
      requires Distinct(archetypes.tables) && Leaver(archetypes.Model(), entities.Model(), meta)
      modifies archetypes.tables, entities
      ensures archetypes.Model() == LeftTables(old(archetypes.Model()), old(entities.Model()), meta)
      ensures entities.Model() == LeftRegistry(old(archetypes.Model()), old(entities.Model()), meta)
      ensures dropped == LeftBehind(old(archetypes.Model()), old(entities.Model()), meta)
    {
      dropped := archetypes.Despawn(entities, meta);
      var _ := entities.DespawnMeta(meta.handle);
    }

    /** `get_entity` finds exactly the live entities. */
    method GetEntity(e: Entity) returns (found: bool)
      requires Valid() && e.index < |entities.sparse|
      ensures found <==> e in Shows(Model())
    {
      found := entities.IsAlive(e);
    }
  }
}
