/** The generational entity registry: a dense list of metadata indexed by a sparse list. */
module EntityRegistry {
  import opened Widths

  datatype Option<+T> = None | Some(value: T)

  datatype Entity = Entity(index: nat, generation: nat)

  /** Where an entity's components are: a table, by its index, and a row of it. */
  datatype EntityMeta = EntityMeta(handle: Entity, table: nat, row: nat)

  /** `after` is `before` with `e` taken away, seen from `x`. */
  predicate WithoutAt(before: map<Entity, EntityMeta>, after: map<Entity, EntityMeta>, e: Entity, x: Entity) {
    (x in after <==> x in before && x != e) && (x in after ==> after[x] == before[x])
  }

  /** `after` is `before` with `e` mapped to `meta`, seen from `x`. */
  predicate UpdatedAt(
      before: map<Entity, EntityMeta>, after: map<Entity, EntityMeta>, e: Entity, meta: EntityMeta, x: Entity) {
    (x in after <==> x in before || x == e) && (x in after ==> after[x] == if x == e then meta else before[x])
  }

  lemma WithoutEverywhere(before: map<Entity, EntityMeta>, after: map<Entity, EntityMeta>, e: Entity)
    requires forall x :: WithoutAt(before, after, e, x)
    ensures after == before - {e}
  {
    forall x ensures x in after <==> x in before - {e} { assert WithoutAt(before, after, e, x); }
    forall x | x in after ensures after[x] == before[x] { assert WithoutAt(before, after, e, x); }
  }

  lemma UpdatedEverywhere(before: map<Entity, EntityMeta>, after: map<Entity, EntityMeta>, e: Entity, meta: EntityMeta)
    requires forall x :: UpdatedAt(before, after, e, meta, x)
    ensures after == before[e := meta]
  {
    forall x ensures x in after <==> x in before[e := meta] { assert UpdatedAt(before, after, e, meta, x); }
    forall x | x in after ensures after[x] == before[e := meta][x] { assert UpdatedAt(before, after, e, meta, x); }
  }

  /** The fields of `Entities`. */
  datatype Registry = Registry(
    nextId: nat, freelist: seq<nat>, generations: seq<nat>, dense: seq<EntityMeta>, sparse: seq<Option<nat>>)
  {
    predicate Occupied(index: nat) {
      index < |sparse| && sparse[index].Some?
    }

    ghost predicate Valid() {
      && |sparse| <= |generations| == nextId <= U32_MAX
      && (forall i :: 0 <= i < nextId ==> generations[i] <= U32_MAX)
      && (forall i, j :: 0 <= i < j < |freelist| ==> freelist[i] != freelist[j])
      && (forall i :: 0 <= i < |freelist| ==> freelist[i] < nextId && !Occupied(freelist[i]))
      && (forall d :: 0 <= d < |dense| ==>
            var h := dense[d].handle;
            h.index < |sparse| && sparse[h.index] == Some(d) && h.generation == generations[h.index])
      && (forall i :: 0 <= i < |sparse| && sparse[i].Some? ==>
            sparse[i].value < |dense| && dense[sparse[i].value].handle.index == i)
    }

    predicate IsLive(e: Entity) {
      exists d :: 0 <= d < |dense| && dense[d].handle == e
    }

    /** The handles that resolve, with their metadata. */
    ghost function Live(): map<Entity, EntityMeta>
      requires Valid()
    {
      map e | e in (set d | 0 <= d < |dense| :: dense[d].handle) :: dense[sparse[e.index].value]
    }

    /** `allocate` has returned this handle at some time. */
    predicate Issued(e: Entity) {
      e.index < |generations| && e.generation <= generations[e.index]
    }

    /** Issued, and neither spawned nor despawned since. */
    predicate Pending(e: Entity) {
      Issued(e) && e.generation == generations[e.index] && e.index !in freelist && !Occupied(e.index)
    }

    /** Issued, and despawned since: such a handle must never resolve again. */
    predicate Retired(e: Entity) {
      Issued(e) && !IsLive(e) && !Pending(e)
    }

    lemma LiveIff(e: Entity)
      requires Valid()
      ensures IsLive(e) <==> Occupied(e.index) && e.generation == generations[e.index]
      ensures e in Live() <==> IsLive(e)
      ensures e in Live() ==> Live()[e].handle == e && Live()[e] == dense[sparse[e.index].value] && Issued(e)
    {
    }

    /** Ids and generations are 32 bits wide. */
    predicate CanAllocate() {
      if freelist == [] then nextId < U32_MAX
      else freelist[|freelist| - 1] < |generations| && generations[freelist[|freelist| - 1]] < U32_MAX
    }

    // -------------------------------------------------------------- the operations

    function Allocate(): (Registry, Entity)
      requires Valid()
    {
      if freelist != [] then
        var id := freelist[|freelist| - 1];
        var generation := generations[id] + 1;
        (this.(freelist := freelist[..|freelist| - 1], generations := generations[id := generation]),
         Entity(id, generation))
      else
        (this.(nextId := nextId + 1, generations := generations + [0]), Entity(nextId, 0))
    }

    function Spawn(meta: EntityMeta): Registry {
      var index := meta.handle.index;
      var wide := if index >= |sparse| then sparse + seq(index + 1 - |sparse|, _ => None) else sparse;
      this.(dense := dense + [meta], sparse := wide[index := Some(|dense|)])
    }

    /** `despawn_meta` indexes both lists; a stale handle never gets to the second. */
    predicate CanDespawn(e: Entity) {
      e.index < |generations| && (generations[e.index] == e.generation ==> e.index < |sparse|)
    }

    function Despawn(e: Entity): Registry
      requires Valid()
    {
      if !Occupied(e.index) || generations[e.index] != e.generation then this
      else
        var d, last := sparse[e.index].value, |dense| - 1;
        var s := sparse[e.index := None];
        this.(freelist := freelist + [e.index],
              dense := dense[d := dense[last]][..last],
              sparse := if d != last then s[dense[last].handle.index := Some(d)] else s)
    }

    function SetMeta(index: nat, meta: EntityMeta): Registry
      requires Valid()
    {
      if Occupied(index) then this.(dense := dense[sparse[index].value := meta]) else this
    }

    function SetRow(index: nat, row: nat): Registry
      requires Valid()
    {
      if Occupied(index) then SetMeta(index, dense[sparse[index].value].(row := row)) else this
    }

    // -------------------------------------------------------------- what they do

    /** `allocate` never returns a handle it has returned before, and changes nothing else. */
    lemma AllocateIsFresh()
      requires Valid() && CanAllocate()
      ensures var (r, h) := Allocate();
        && r.Valid() && r.Live() == Live()
        && !Issued(h) && r.Pending(h)
        && (forall e :: r.Issued(e) <==> Issued(e) || e == h)
        && (forall e :: r.Pending(e) <==> Pending(e) || e == h)
    {
    }

    lemma SpawnValid(meta: EntityMeta)
      requires Valid() && Pending(meta.handle)
      ensures Spawn(meta).Valid()
    {
    }

    lemma SpawnOne(meta: EntityMeta, e: Entity)
      requires Valid() && Pending(meta.handle) && Spawn(meta).Valid()
      ensures var r := Spawn(meta);
        && (r.Pending(e) <==> Pending(e) && e != meta.handle)
        && UpdatedAt(Live(), r.Live(), meta.handle, meta, e)
    {
    }

    lemma SpawnAdds(meta: EntityMeta)
      requires Valid() && Pending(meta.handle)
      ensures var r := Spawn(meta);
        && r.Valid() && r.Live() == Live()[meta.handle := meta]
        && (forall e :: r.Issued(e) <==> Issued(e))
        && (forall e :: r.Pending(e) <==> Pending(e) && e != meta.handle)
    {
      var r := Spawn(meta);
      SpawnValid(meta);
      forall e
        ensures UpdatedAt(Live(), r.Live(), meta.handle, meta, e)
        ensures r.Pending(e) <==> Pending(e) && e != meta.handle
      {
        SpawnOne(meta, e);
      }
      UpdatedEverywhere(Live(), r.Live(), meta.handle, meta);
    }

    lemma DespawnDense(e: Entity)
      requires Valid() && IsLive(e) && Occupied(e.index) && dense[sparse[e.index].value].handle == e
      ensures var d, last, r := sparse[e.index].value, |dense| - 1, Despawn(e);
        && |r.dense| == last && (forall k :: 0 <= k < last ==> r.dense[k] == dense[if k == d then last else k])
        && (forall k :: 0 <= k < last ==> r.dense[k].handle.index != e.index)
    {
    }

    lemma DespawnSparse(e: Entity)
      requires Valid() && IsLive(e) && Occupied(e.index) && dense[sparse[e.index].value].handle == e
      ensures var r := Despawn(e);
        && |r.sparse| == |sparse| && (forall i: nat :: r.Occupied(i) <==> Occupied(i) && i != e.index)
        && (forall i :: 0 <= i < |r.sparse| && r.sparse[i].Some? ==>
              r.sparse[i].value < |r.dense| && r.dense[r.sparse[i].value].handle.index == i)
    {
      var last := |dense| - 1;
      assert sparse[dense[last].handle.index] == Some(last);
    }

    lemma DespawnValid(e: Entity)
      requires Valid()
      ensures Despawn(e).Valid()
    {
      LiveIff(e);
      if IsLive(e) {
        var last, r := |dense| - 1, Despawn(e);
        DespawnDense(e);
        DespawnSparse(e);
        assert sparse[dense[last].handle.index] == Some(last);
        forall k | 0 <= k < |r.freelist| ensures r.freelist[k] < nextId && !r.Occupied(r.freelist[k]) {}
      }
    }

    lemma DespawnOne(e: Entity, x: Entity)
      requires Valid() && Despawn(e).Valid()
      ensures var r := Despawn(e);
        && (r.Pending(x) <==> Pending(x))
        && WithoutAt(Live(), r.Live(), e, x)
        && (x == e && IsLive(e) ==> r.Retired(e))
    {
      var r := Despawn(e);
      LiveIff(e);
      LiveIff(x);
      r.LiveIff(x);
      if IsLive(e) {
        var d, last := sparse[e.index].value, |dense| - 1;
        assert r.generations == generations && r.freelist == freelist + [e.index];
        assert e.index in r.freelist && (x.index in r.freelist <==> x.index in freelist || x.index == e.index);
        assert sparse[dense[last].handle.index] == Some(last);
        assert r.Occupied(x.index) <==> Occupied(x.index) && x.index != e.index;
      }
    }

    /** `despawn_meta` takes exactly the handle's entry away; swap-removal does not disturb the others. */
    lemma DespawnRemoves(e: Entity)
      requires Valid()
      ensures var r := Despawn(e);
        && r.Valid() && r.Live() == Live() - {e}
        && (forall x :: r.Issued(x) <==> Issued(x))
        && (forall x :: r.Pending(x) <==> Pending(x))
        && (IsLive(e) ==> r.Retired(e))
    {
      var r := Despawn(e);
      DespawnValid(e);
      forall x
        ensures WithoutAt(Live(), r.Live(), e, x)
        ensures r.Pending(x) <==> Pending(x)
      {
        DespawnOne(e, x);
      }
      DespawnOne(e, e);
      WithoutEverywhere(Live(), r.Live(), e);
    }

    lemma SetMetaValid(e: Entity, meta: EntityMeta)
      requires Valid() && IsLive(e) && meta.handle == e
      ensures SetMeta(e.index, meta).Valid()
    {
    }

    lemma SetMetaOne(e: Entity, meta: EntityMeta, x: Entity)
      requires Valid() && IsLive(e) && meta.handle == e && SetMeta(e.index, meta).Valid()
      ensures var r := SetMeta(e.index, meta);
        && (r.Pending(x) <==> Pending(x))
        && UpdatedAt(Live(), r.Live(), e, meta, x)
    {
    }

    lemma SetMetaUpdates(e: Entity, meta: EntityMeta)
      requires Valid() && IsLive(e) && meta.handle == e
      ensures var r := SetMeta(e.index, meta);
        && r.Valid() && r.Live() == Live()[e := meta]
        && (forall x :: r.Issued(x) <==> Issued(x))
        && (forall x :: r.Pending(x) <==> Pending(x))
    {
      var r := SetMeta(e.index, meta);
      SetMetaValid(e, meta);
      forall x
        ensures UpdatedAt(Live(), r.Live(), e, meta, x)
        ensures r.Pending(x) <==> Pending(x)
      {
        SetMetaOne(e, meta, x);
      }
      UpdatedEverywhere(Live(), r.Live(), e, meta);
    }

    /** The dense list has exactly one entry for every handle that resolves. */
    lemma DenseIsBijection(d: nat, k: nat)
      requires Valid() && d < |dense| && k < |dense|
      ensures dense[d].handle in Live() && Live()[dense[d].handle] == dense[d]
      ensures dense[d].handle.index == dense[k].handle.index ==> d == k
    {
    }
  }

  /** `set_row_meta` on a live entity rewrites the row of that entity alone. */
  lemma SetRowUpdates(r: Registry, e: Entity, row: nat)
    requires r.Valid() && r.IsLive(e) && e in r.Live()
    ensures var r' := r.SetRow(e.index, row);
      && r'.Valid() && r'.Live() == r.Live()[e := r.Live()[e].(row := row)]
      && (forall x :: r'.Issued(x) <==> r.Issued(x))
      && (forall x :: r'.Pending(x) <==> r.Pending(x))
  {
    r.LiveIff(e);
    r.SetMetaUpdates(e, r.Live()[e].(row := row));
  }

  // ---------------------------------------------------------------- all runs

  datatype Op = Allocate | Spawn(meta: EntityMeta) | Despawn(handle: Entity) | SetMeta(meta: EntityMeta)

  /** What the source requires of its callers. */
  predicate Allowed(r: Registry, op: Op) {
    match op
    case Allocate => r.CanAllocate()
    case Spawn(meta) => r.Pending(meta.handle)
    case Despawn(e) => r.CanDespawn(e)
    case SetMeta(meta) => r.IsLive(meta.handle)
  }

  function Do(r: Registry, op: Op): Registry
    requires r.Valid()
  {
    match op
    case Allocate => r.Allocate().0
    case Spawn(meta) => r.Spawn(meta)
    case Despawn(e) => r.Despawn(e)
    case SetMeta(meta) => r.SetMeta(meta.handle.index, meta)
  }

  ghost predicate Reaches(r: Registry, ops: seq<Op>, r': Registry)
    requires r.Valid()
    ensures Reaches(r, ops, r') ==> r'.Valid()
    decreases |ops|
  {
    if ops == [] then r' == r
    else Allowed(r, ops[0]) && (DoValid(r, ops[0]); Reaches(Do(r, ops[0]), ops[1..], r'))
  }

  lemma DoValid(r: Registry, op: Op)
    requires r.Valid() && Allowed(r, op)
    ensures Do(r, op).Valid()
  {
    match op
    case Allocate => r.AllocateIsFresh();
    case Spawn(meta) => r.SpawnAdds(meta);
    case Despawn(e) => r.DespawnRemoves(e);
    case SetMeta(meta) => r.SetMetaUpdates(meta.handle, meta);
  }

  lemma RetiredOneStep(r: Registry, op: Op, e: Entity)
    requires r.Valid() && Allowed(r, op) && r.Retired(e)
    ensures Do(r, op).Retired(e)
  {
  }

  /** A despawned handle stays issued and never resolves again, whatever happens afterwards. */
  lemma {:induction false} RetiredForever(r: Registry, ops: seq<Op>, r': Registry, e: Entity)
    requires r.Valid() && Reaches(r, ops, r') && r.Retired(e)
    ensures r'.Retired(e) && e !in r'.Live()
    decreases |ops|
  {
    if ops == [] {
      r.LiveIff(e);
    } else {
      DoValid(r, ops[0]);
      RetiredOneStep(r, ops[0], e);
      RetiredForever(Do(r, ops[0]), ops[1..], r', e);
    }
  }

  lemma IssuedOneStep(r: Registry, op: Op, e: Entity)
    requires r.Valid() && Allowed(r, op) && r.Issued(e)
    ensures Do(r, op).Issued(e)
  {
  }

  /** Two allocations never return the same handle, however far apart they are. */
  lemma {:induction false} NeverReissued(r: Registry, ops: seq<Op>, r': Registry, e: Entity)
    requires r.Valid() && Reaches(r, ops, r') && r.Issued(e)
    ensures r'.CanAllocate() ==> r'.Allocate().1 != e
    ensures r'.Issued(e)
    decreases |ops|
  {
    if ops == [] {
      if r'.CanAllocate() { r'.AllocateIsFresh(); }
    } else {
      DoValid(r, ops[0]);
      IssuedOneStep(r, ops[0], e);
      NeverReissued(Do(r, ops[0]), ops[1..], r', e);
    }
  }

  // ---------------------------------------------------------------- reuse of indices

  /** A handle with this index has been issued. */
  predicate Used(r: Registry, i: nat) {
    r.Issued(Entity(i, 0))
  }

  /** It has, and no handle with this index is live or waiting to be spawned. */
  ghost predicate Free(r: Registry, i: nat) {
    Used(r, i) && forall e: Entity :: e.index == i ==> !r.IsLive(e) && !r.Pending(e)
  }

  lemma FreeIff(r: Registry, i: nat)
    requires r.Valid()
    ensures Free(r, i) <==> i in r.freelist
  {
    if i < |r.generations| {
      var e := Entity(i, r.generations[i]);
      r.LiveIff(e);
      if i in r.freelist {
        assert !r.Occupied(i);
        forall x: Entity | x.index == i ensures !r.IsLive(x) && !r.Pending(x) { r.LiveIff(x); }
      } else {
        assert r.IsLive(e) || r.Pending(e);
      }
    }
  }

  /** The index of a despawned entity is the next to be issued, with the next generation. */
  lemma DespawnedIsReused(r: Registry, e: Entity)
    requires r.Valid() && r.IsLive(e)
    ensures r.Despawn(e).Valid()
    ensures r.Despawn(e).CanAllocate() <==> e.generation < 0xFFFF_FFFF
    ensures r.Despawn(e).Allocate().1 == Entity(e.index, e.generation + 1)
  {
    r.LiveIff(e);
    r.DespawnRemoves(e);
  }

  /** As long as an index is free, a free one is issued, with the generation after its last. */
  lemma FreeIsReused(r: Registry, i: nat)
    requires r.Valid() && Free(r, i)
    ensures var h := r.Allocate().1;
      && Free(r, h.index) && h.generation > 0
      && r.Issued(Entity(h.index, h.generation - 1)) && !r.Issued(h)
  {
    FreeIff(r, i);
    FreeIff(r, r.Allocate().1.index);
  }

  /** Otherwise it is the first index never used, with generation 0; there are 2^32 - 1 of them. */
  lemma NewIndexIfNoneFree(r: Registry)
    requires r.Valid() && forall i: nat :: !Free(r, i)
    ensures r.Allocate().1.generation == 0 && forall i: nat :: Used(r, i) <==> i < r.Allocate().1.index
    ensures r.CanAllocate() <==> r.Allocate().1.index < 0xFFFF_FFFF
  {
    if r.freelist != [] { FreeIff(r, r.freelist[0]); }
  }

  /** All indices that have ever been issued. */
  function Indices(r: Registry): (s: set<nat>)
    ensures forall i: nat :: i in s <==> Used(r, i)
  {
    Below(|r.generations|)
  }

  function Below(n: nat): (s: set<nat>)
    ensures |s| == n && forall i: nat :: i in s <==> i < n
  {
    if n == 0 then {} else Below(n - 1) + {n - 1}
  }

  /** The handles that are live or waiting to be spawned. */
  ghost function Held(r: Registry): (s: set<Entity>)
    requires r.Valid()
    ensures forall e :: e in s <==> r.IsLive(e) || r.Pending(e)
  {
    forall e ensures e in HeldUpTo(r, |r.generations|) <==> r.IsLive(e) || r.Pending(e) {
      r.LiveIff(e);
    }
    HeldUpTo(r, |r.generations|)
  }

  ghost function HeldUpTo(r: Registry, n: nat): (s: set<Entity>)
    requires r.Valid() && n <= |r.generations|
    ensures forall e :: e in s <==>
      e.index < n && e.generation == r.generations[e.index] && e.index !in r.freelist
  {
    if n == 0 then {}
    else HeldUpTo(r, n - 1) + if n - 1 in r.freelist then {} else {Entity(n - 1, r.generations[n - 1])}
  }

  lemma {:induction false} AllHeld(r: Registry, n: nat)
    requires r.Valid() && n <= |r.generations| && r.freelist == []
    ensures |HeldUpTo(r, n)| == n
  {
    if n > 0 { AllHeld(r, n - 1); }
  }

  lemma IndicesCount(r: Registry)
    requires r.Valid()
    ensures |Indices(r)| == |r.generations|
    ensures r.freelist == [] ==> |Held(r)| == |Indices(r)|
  {
    if r.freelist == [] { AllHeld(r, |r.generations|); }
  }

  /** One operation uses a new index only if then all indices used are held. */
  lemma OneStepIndices(r: Registry, op: Op)
    requires r.Valid() && Allowed(r, op)
    ensures Do(r, op).Valid()
    ensures |Indices(Do(r, op))| == |Indices(r)| || |Indices(Do(r, op))| == |Held(Do(r, op))|
  {
    DoValid(r, op);
    IndicesCount(r);
    IndicesCount(Do(r, op));
  }

  lemma OneMoreInFront(r: Registry, ops: seq<Op>, k: nat, mid: Registry)
    requires r.Valid() && ops != [] && k < |ops| && Allowed(r, ops[0])
    requires Do(r, ops[0]).Valid() && Reaches(Do(r, ops[0]), ops[1..][..k], mid)
    ensures Reaches(r, ops[..k + 1], mid)
  {
    assert ops[..k + 1][1..] == ops[1..][..k] && ops[..k + 1][0] == ops[0];
  }

  /** In every run, the indices used are no more than were used at first, or than handles were held at some time. */
  lemma {:induction false} IndicesBoundedFrom(r: Registry, ops: seq<Op>, r': Registry) returns (k: nat, mid: Registry)
    requires r.Valid() && Reaches(r, ops, r')
    ensures k <= |ops| && Reaches(r, ops[..k], mid)
    ensures |Indices(r')| <= |Indices(r)| || |Indices(r')| <= |Held(mid)|
    decreases |ops|
  {
    k, mid := 0, r;
    if ops != [] {
      var next := Do(r, ops[0]);
      OneStepIndices(r, ops[0]);
      k, mid := IndicesBoundedFrom(next, ops[1..], r');
      if |Indices(r')| <= |Indices(next)| { k, mid := 0, next; }
      OneMoreInFront(r, ops, k, mid);
      k := k + 1;
    }
  }

  /** The registry of `Entities::new`. */
  function NoEntities(): (r: Registry)
    ensures r.Valid() && Indices(r) == {}
  {
    Registry(0, [], [], [], [])
  }

  /** Over every run from an empty registry: some time as many handles were held as indices were ever used. */
  lemma IndicesBounded(ops: seq<Op>, r': Registry) returns (k: nat, mid: Registry)
    requires Reaches(NoEntities(), ops, r')
    ensures k <= |ops| && Reaches(NoEntities(), ops[..k], mid) && |Indices(r')| <= |Held(mid)|
  {
    k, mid := IndicesBoundedFrom(NoEntities(), ops, r');
  }

  // ---------------------------------------------------------------- the object

  class Entities {
    var nextId: nat
    var freelist: seq<nat>
    var generations: seq<nat>
    var dense: seq<EntityMeta>
    var sparse: seq<Option<nat>>

    function Model(): Registry
      reads this
    {
      Registry(nextId, freelist, generations, dense, sparse)
    }

    constructor ()
      ensures Model().Valid() && Model().Live() == map[] && forall e :: !Model().Issued(e)
    {
      nextId, freelist, generations, dense, sparse := 0, [], [], [], [];
    }

    method Allocate() returns (h: Entity)
      requires Model().Valid() && Model().CanAllocate()
      modifies this
      ensures (Model(), h) == old(Model()).Allocate()
      ensures Model().Valid() && Model().Live() == old(Model().Live())
      ensures !old(Model().Issued(h)) && Model().Pending(h)
      ensures forall e :: Model().Issued(e) <==> old(Model()).Issued(e) || e == h
    {
      Model().AllocateIsFresh();
      if freelist != [] {
        var id := freelist[|freelist| - 1];
        freelist := freelist[..|freelist| - 1];
        generations := generations[id := generations[id] + 1];
        h := Entity(id, generations[id]);
      } else {
        var id := nextId;
        nextId := nextId + 1;
        generations := generations + [0];
        h := Entity(id, 0);
      }
    }

    /** Resolves exactly the live handles: never one that is stale, pending or foreign. */
    method GetMeta(e: Entity) returns (r: Option<EntityMeta>)
      requires Model().Valid()
      ensures r == if e in Model().Live() then Some(Model().Live()[e]) else None
    {
      Model().LiveIff(e);
      if e.index >= |generations| || generations[e.index] != e.generation {
        return None;
      }
      if e.index >= |sparse| || sparse[e.index].None? {
        return None;
      }
      return Some(dense[sparse[e.index].value]);
    }

    method Spawn(meta: EntityMeta)
      requires Model().Valid() && Model().Pending(meta.handle)
      modifies this
      ensures Model() == old(Model()).Spawn(meta)
      ensures Model().Valid() && Model().Live() == old(Model().Live())[meta.handle := meta]
    {
      Model().SpawnAdds(meta);
      var index := meta.handle.index;
      dense := dense + [meta];
      if index >= |sparse| {
        sparse := sparse + seq(index + 1 - |sparse|, _ => None);
      }
      sparse := sparse[index := Some(|dense| - 1)];
      assert Model() == old(Model()).Spawn(meta);
    }

    method DespawnMeta(e: Entity) returns (r: Option<EntityMeta>)
      requires Model().Valid() && Model().CanDespawn(e)
      modifies this
      ensures Model() == old(Model()).Despawn(e)
      ensures Model().Valid() && Model().Live() == old(Model().Live()) - {e}
      ensures r == if e in old(Model().Live()) then Some(old(Model().Live())[e]) else None
    {
      Model().DespawnRemoves(e);
      Model().LiveIff(e);
      if generations[e.index] != e.generation {
        return None;
      }
      if sparse[e.index].None? {
        return None;
      }
      var d := sparse[e.index].value;
      sparse := sparse[e.index := None];
      freelist := freelist + [e.index];
      r := Some(dense[d]);
      dense := dense[d := dense[|dense| - 1]][..|dense| - 1];
      if d != |dense| {
        sparse := sparse[dense[d].handle.index := Some(d)];
      }
    }

    /** Rewrites the row of the entity at an index and returns the old one; no generation is checked. */
    method SetRowMeta(index: nat, row: nat) returns (replaced: Option<nat>)
      requires Model().Valid()
      modifies this`dense
      ensures Model() == old(Model()).SetRow(index, row)
      ensures replaced == if old(Model()).Occupied(index) then Some(old(dense)[sparse[index].value].row) else None
    {
      if index >= |sparse| || sparse[index].None? {
        return None;
      }
      var d := sparse[index].value;
      replaced := Some(dense[d].row);
      dense := dense[d := dense[d].(row := row)];
    }

    method SetMeta(index: nat, meta: EntityMeta) returns (replaced: Option<EntityMeta>)
      requires Model().Valid()
      modifies this`dense
      ensures Model() == old(Model()).SetMeta(index, meta)
      ensures replaced == if old(Model()).Occupied(index) then Some(old(dense)[sparse[index].value]) else None
    {
      if index >= |sparse| || sparse[index].None? {
        return None;
      }
      var d := sparse[index].value;
      replaced := Some(dense[d]);
      dense := dense[d := meta];
    }

    method IsAlive(e: Entity) returns (alive: bool)
      requires Model().Valid() && e.index < |sparse|
      ensures alive <==> e in Model().Live()
    {
      Model().LiveIff(e);
      return sparse[e.index].Some? && generations[e.index] == e.generation;
    }
  }
}
