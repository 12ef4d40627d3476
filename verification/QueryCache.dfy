/**
 The query cache: the tables that match a query, found by scanning only the tables added since.

 For a table that passes the tests the scan looks up a column for every component of the query, and panics
 where there is none. A panic ends the run.
 */
module QueryCache {
  import opened EntityRegistry
  import opened Signatures
  import opened Filters
  import opened Tables
  import opened TableObject
  import opened Storage
  import opened WorldObjects

  /** What a scan sees of an archetype: its signature in the lookup array, and the columns of its table. */
  datatype Shape = Shape(signature: Words, columns: set<nat>)

  /** The two agree. */
  ghost predicate Regular(s: Shape) {
    Normal(s.signature) && Bits(s.signature) == s.columns
  }

  /** `Q::signature`: the ids of the components are set one by one. */
  function SignatureOf(ids: seq<nat>): Words {
    if ids == [] then [] else SetBit(SignatureOf(ids[..|ids| - 1]), ids[|ids| - 1])
  }

  lemma {:induction false} SignatureOfHas(ids: seq<nat>, i: nat)
    ensures Has(SignatureOf(ids), i) <==> i in ids
  {
    if ids != [] {
      SignatureOfHas(ids[..|ids| - 1], i);
      SetBitHas(SignatureOf(ids[..|ids| - 1]), ids[|ids| - 1], i);
    }
  }

  datatype Query = Query(components: seq<nat>, filter: Filter)
  {
    /** What `cache_tables` asks of the signature of an archetype. */
    predicate Accepts(sig: Words) {
      Contains(sig, SignatureOf(components)) && ApplyArchetypal(filter, sig)
    }

    /** `get_base_ptrs` finds a column for every component. */
    predicate Finds(columns: set<nat>) {
      forall id <- components :: id in columns
    }

    /** The scan gets past this archetype. */
    predicate Survives(s: Shape) {
      Accepts(s.signature) ==> Finds(s.columns)
    }

    /** What the query asks for: the components it names, and its filter. */
    predicate Wants(types: set<nat>) {
      Finds(types) && Matches(filter, types)
    }

    /** What it gets: a filter that names something out of reach of the archetype does not ask for it. */
    predicate Gets(types: set<nat>) {
      Finds(types) && MatchesInReach(filter, types)
    }

    /** Every component the query names is in reach of these. */
    predicate Within(types: set<nat>) {
      forall id <- components :: InReach(id, types)
    }

    /** An accepted archetype has all columns exactly if the query names nothing out of its reach. */
    lemma FindsIffWithin(sig: Words)
      requires Normal(sig) && Accepts(sig)
      ensures Finds(Bits(sig)) <==> Within(Bits(sig))
    {
      NormalWords(sig);
      ReachIsWords(Bits(sig));
      ContainsIff(sig, SignatureOf(components));
      BitsHas(sig);
      forall id | id in components ensures id in Bits(sig) <==> InReach(id, Bits(sig)) {
        SignatureOfHas(components, id);
      }
    }

    /** What is accepted and has all columns is what the query gets. */
    lemma GetsIff(s: Shape)
      requires Regular(s)
      ensures Accepts(s.signature) && Finds(s.columns) <==> Gets(s.columns)
    {
      FilterInReach(filter, s.signature);
      if Finds(s.columns) {
        forall i: nat | Has(SignatureOf(components), i) ensures Has(s.signature, i) {
          SignatureOfHas(components, i);
          assert i in s.columns;
        }
        ContainsIff(s.signature, SignatureOf(components));
      }
    }

    /** If the filter names nothing out of reach of a set, the query gets from it what it asks for. */
    lemma GetsWhatItWants(types: set<nat>)
      requires Covered(filter, types)
      ensures Gets(types) <==> Wants(types)
    {
      CoveredIsWhole(filter, types);
    }
  }

  // ---------------------------------------------------------------- scans

  /** `cache_tables`: the accepted tables from `start` on, in order. */
  function Scan(q: Query, shapes: seq<Shape>, start: nat): seq<nat> {
    if |shapes| <= start then []
    else
      Scan(q, shapes[..|shapes| - 1], start) +
      if q.Accepts(shapes[|shapes| - 1].signature) then [|shapes| - 1] else []
  }

  /** The scan gets to the end: every accepted table from `start` on has all columns. */
  predicate Succeeds(q: Query, shapes: seq<Shape>, start: nat) {
    forall t :: start <= t < |shapes| ==> q.Survives(shapes[t])
  }

  lemma ScanStep(q: Query, shapes: seq<Shape>, start: nat, t: nat)
    requires start <= t < |shapes|
    ensures Scan(q, shapes[..t + 1], start) ==
      Scan(q, shapes[..t], start) + if q.Accepts(shapes[t].signature) then [t] else []
  {
    assert shapes[..t + 1][..t] == shapes[..t];
  }

  lemma SucceedsStep(q: Query, shapes: seq<Shape>, start: nat, t: nat)
    requires start <= t < |shapes|
    ensures Succeeds(q, shapes[..t + 1], start) <==> Succeeds(q, shapes[..t], start) && q.Survives(shapes[t])
    ensures Succeeds(q, shapes, start) ==> q.Survives(shapes[t])
  {
    var longer, shorter := shapes[..t + 1], shapes[..t];
    if Succeeds(q, longer, start) {
      forall u | start <= u < t ensures q.Survives(shorter[u]) { assert q.Survives(longer[u]); }
      assert q.Survives(longer[t]);
    }
    if Succeeds(q, shorter, start) && q.Survives(shapes[t]) {
      forall u | start <= u <= t ensures q.Survives(longer[u]) { assert u < t ==> q.Survives(shorter[u]); }
    }
  }

  /** Up to table `t` the scan has gone well and has listed these. */
  ghost predicate Listed(q: Query, shapes: seq<Shape>, start: nat, t: nat, list: seq<nat>)
    requires start <= t <= |shapes|
  {
    list == Scan(q, shapes[..t], start) && Succeeds(q, shapes[..t], start)
  }

  lemma ListedStep(q: Query, shapes: seq<Shape>, start: nat, t: nat, list: seq<nat>)
    requires start <= t < |shapes| && Listed(q, shapes, start, t, list)
    ensures q.Survives(shapes[t]) ==>
      Listed(q, shapes, start, t + 1, list + if q.Accepts(shapes[t].signature) then [t] else [])
    ensures !q.Survives(shapes[t]) ==> !Succeeds(q, shapes, start)
  {
    ScanStep(q, shapes, start, t);
    SucceedsStep(q, shapes, start, t);
  }

  /** The accepted tables among all: a naive full scan. */
  function FullScan(q: Query, shapes: seq<Shape>): seq<nat> {
    Scan(q, shapes, 0)
  }

  /** Scanning some tables and later the rest is scanning all. */
  lemma {:induction false} ScanResumes(q: Query, shapes: seq<Shape>, start: nat)
    requires start <= |shapes|
    ensures FullScan(q, shapes[..start]) + Scan(q, shapes, start) == FullScan(q, shapes)
  {
    if start < |shapes| {
      var init := shapes[..|shapes| - 1];
      ScanResumes(q, init, start);
      assert init[..start] == shapes[..start];
    } else {
      assert shapes[..start] == shapes;
    }
  }

  lemma {:induction false} FullScanLists(q: Query, shapes: seq<Shape>, t: nat)
    ensures t in FullScan(q, shapes) <==> t < |shapes| && q.Accepts(shapes[t].signature)
  {
    if shapes != [] { FullScanLists(q, shapes[..|shapes| - 1], t); }
  }

  lemma {:induction false} FullScanAscends(q: Query, shapes: seq<Shape>, i: nat, j: nat)
    requires i < j < |FullScan(q, shapes)|
    ensures FullScan(q, shapes)[i] < FullScan(q, shapes)[j]
  {
    var init := FullScan(q, shapes[..|shapes| - 1]);
    if j < |init| {
      FullScanAscends(q, shapes[..|shapes| - 1], i, j);
    } else {
      FullScanLists(q, shapes[..|shapes| - 1], init[i]);
    }
  }

  /** The scan lists exactly the accepted tables, in ascending order and so without duplicates. */
  lemma FullScanIs(q: Query, shapes: seq<Shape>)
    ensures forall t: nat :: t in FullScan(q, shapes) <==> t < |shapes| && q.Accepts(shapes[t].signature)
    ensures forall i, j :: 0 <= i < j < |FullScan(q, shapes)| ==> FullScan(q, shapes)[i] < FullScan(q, shapes)[j]
  {
    forall t: nat { FullScanLists(q, shapes, t); }
    forall i, j | 0 <= i < j < |FullScan(q, shapes)| { FullScanAscends(q, shapes, i, j); }
  }

  /** A scan that gets to the end lists exactly the tables the query gets. */
  lemma SuccessfulScanIs(q: Query, shapes: seq<Shape>)
    requires Succeeds(q, shapes, 0) && forall s <- shapes :: Regular(s)
    ensures forall t: nat :: t in FullScan(q, shapes) <==> t < |shapes| && q.Gets(shapes[t].columns)
  {
    FullScanIs(q, shapes);
    forall t: nat | t < |shapes| ensures q.Accepts(shapes[t].signature) <==> q.Gets(shapes[t].columns) {
      assert q.Survives(shapes[t]);
      q.GetsIff(shapes[t]);
    }
  }

  /**
   The scan gets to the end exactly if every component the query names is in reach of the archetypes it accepts:
   none is at 64 times (c / 64 + 1) or past it, where c is the largest component of the archetype.
   */
  lemma SucceedsIff(q: Query, shapes: seq<Shape>, start: nat)
    requires forall s <- shapes :: Regular(s)
    ensures Succeeds(q, shapes, start) <==>
      forall t :: start <= t < |shapes| && q.Accepts(shapes[t].signature) ==> q.Within(shapes[t].columns)
  {
    forall t | start <= t < |shapes| && q.Accepts(shapes[t].signature)
      ensures q.Survives(shapes[t]) <==> q.Within(shapes[t].columns)
    {
      assert shapes[t] in shapes;
      q.FindsIffWithin(shapes[t].signature);
    }
  }

  /** The same for one archetype, by its largest component. */
  lemma SurvivesIff(q: Query, s: Shape, largest: nat)
    requires Regular(s) && q.Accepts(s.signature) && IsLargest(s.columns, largest)
    ensures q.Survives(s) <==> forall id <- q.components :: id < 64 * (largest / 64 + 1)
  {
    q.FindsIffWithin(s.signature);
    forall id: nat ensures InReach(id, s.columns) <==> id < 64 * (largest / 64 + 1) {
      if ty :| ty in s.columns && id / 64 <= ty / 64 { assert ty / 64 <= largest / 64; }
    }
  }

  /** The smallest case: an archetype of one component below 64 makes a query for any component from 64 on panic. */
  lemma PanickingScan(low: nat, high: nat)
    requires low < 64 <= high
    ensures var shape := Shape(SignatureOf([low]), {low});
      && Regular(shape) && Query([high], Trivial).Accepts(shape.signature)
      && !Succeeds(Query([high], Trivial), [shape], 0)
  {
    var q, sig := Query([high], Trivial), SignatureOf([low]);
    assert sig == SetBit([], low);
    SetBitNormal([], low);
    BitsHas(sig);
    forall i: nat ensures Has(sig, i) <==> i == low { SignatureOfHas([low], i); }
    forall i: nat | i < BITS * |sig| ensures !Has(SignatureOf([high]), i) { SignatureOfHas([high], i); }
    ContainsIff(sig, SignatureOf([high]));
    assert high in q.components && !q.Survives([Shape(sig, {low})][0]);
  }

  /** Archetypes as the world makes them: of at least one component. */
  ghost predicate Proper(shapes: seq<Shape>) {
    forall s <- shapes :: Regular(s) && s.columns != {}
  }

  /** Without a filter no scan ever panics exactly if the query names only components below 64. */
  lemma PlainNeverPanicsIff(q: Query)
    requires q.filter.Trivial?
    ensures (forall shapes :: Proper(shapes) ==> Succeeds(q, shapes, 0)) <==> forall id <- q.components :: id < 64
  {
    if forall id <- q.components :: id < 64 {
      forall shapes | Proper(shapes) ensures Succeeds(q, shapes, 0) {
        forall t | 0 <= t < |shapes| ensures q.Survives(shapes[t]) { NarrowSurvives(q, shapes[t]); }
      }
    } else {
      var id :| id in q.components && id >= 64;
      var shape := FullWord();
      FullWordIs();
      assert 0 in shape.columns;
      ContainsIff(shape.signature, SignatureOf(q.components));
      assert q.Accepts(shape.signature);
      assert Proper([shape]) && !q.Survives([shape][0]);
    }
  }

  lemma NarrowSurvives(q: Query, s: Shape)
    requires (forall id <- q.components :: id < 64) && Regular(s) && s.columns != {}
    ensures q.Survives(s)
  {
    var some :| some in s.columns;
    forall id | id in q.components ensures InReach(id, s.columns) { assert id / 64 == 0 <= some / 64; }
    if q.Accepts(s.signature) { q.FindsIffWithin(s.signature); }
  }

  /** An archetype of all components below 64. */
  ghost function FullWord(): Shape {
    var sig: Words := [Repeat(true, BITS)];
    Shape(sig, Bits(sig))
  }

  lemma FullWordIs()
    ensures |FullWord().signature| == 1 && forall i: nat :: i < 64 ==> Has(FullWord().signature, i)
    ensures Regular(FullWord()) && forall i: nat :: i in FullWord().columns <==> i < 64
  {
    var sig := FullWord().signature;
    forall i: nat | i < 64 ensures Has(sig, i) { assert i / BITS == 0 && i % BITS == i; }
    BitsHas(sig);
    assert sig[0][0] != ZERO[0];
  }

  // ---------------------------------------------------------------- updates

  datatype Cache = Cache(tables: seq<nat>, nextScan: nat, generation: nat)

  /** The cache is what a full scan of these archetypes finds, and that scan gets to the end. */
  ghost predicate Current(q: Query, c: Cache, shapes: seq<Shape>) {
    c.nextScan == c.generation == |shapes| && c.tables == FullScan(q, shapes) && Succeeds(q, shapes, 0)
  }

  /** `before_update`, where the generation of the archetypes is their number. */
  function Update(q: Query, c: Cache, shapes: seq<Shape>): Option<Cache> {
    if c.generation == |shapes| then Some(c)
    else if !Succeeds(q, shapes, c.nextScan) then None
    else Some(Cache(c.tables + Scan(q, shapes, c.nextScan), |shapes|, |shapes|))
  }

  /**
   For a cache that was current before tables were added, one update panics exactly if a full scan would, and
   otherwise makes the cache current again, whether it scans or skips: an equal generation means that nothing
   was added.
   */
  lemma UpdateCatchesUp(q: Query, c: Cache, seen: seq<Shape>, shapes: seq<Shape>)
    requires Current(q, c, seen) && seen <= shapes
    ensures Update(q, c, shapes).Some? <==> Succeeds(q, shapes, 0)
    ensures Update(q, c, shapes).Some? ==> Current(q, Update(q, c, shapes).value, shapes)
  {
    assert shapes[..|seen|] == seen;
    forall t | 0 <= t < |seen| ensures q.Survives(shapes[t]) { assert q.Survives(seen[t]); }
    if |seen| == |shapes| {
      assert seen == shapes;
    } else {
      ScanResumes(q, shapes, |seen|);
    }
  }

  /** The same read off the new archetypes before the call. */
  lemma UpdateSucceedsIff(q: Query, c: Cache, seen: seq<Shape>, shapes: seq<Shape>)
    requires Current(q, c, seen) && seen <= shapes && forall s <- shapes :: Regular(s)
    ensures Update(q, c, shapes).Some? <==>
      forall t :: |seen| <= t < |shapes| && q.Accepts(shapes[t].signature) ==> q.Within(shapes[t].columns)
  {
    SucceedsIff(q, shapes, |seen|);
  }

  datatype Event = Added(shape: Shape) | Updated

  /** A panic in an update ends it all: there is no cache any more. */
  function History(q: Query, shapes: seq<Shape>, c: Cache, events: seq<Event>): (seq<Shape>, Option<Cache>) {
    if events == [] then (shapes, Some(c))
    else
      var (shapes', c') := History(q, shapes, c, events[..|events| - 1]);
      match events[|events| - 1]
      case Added(shape) => (shapes' + [shape], c')
      case Updated => (shapes', if c'.Some? then Update(q, c'.value, shapes') else None)
  }

  /**
   After any interleaving of additions and updates the cache is the full scan of the tables it has seen, unless
   an update has panicked, which takes a table that a full scan panics at as well.
   */
  lemma {:induction false} CacheTracks(q: Query, shapes: seq<Shape>, c: Cache, events: seq<Event>)
    requires Current(q, c, shapes)
    ensures var (shapes', c') := History(q, shapes, c, events);
      && (c'.Some? ==> c'.value.generation <= |shapes'| && Current(q, c'.value, shapes'[..c'.value.generation]))
      && (c'.None? ==> !Succeeds(q, shapes', 0))
      && (events != [] && events[|events| - 1].Updated? && Succeeds(q, shapes', 0) ==>
            c'.Some? && Current(q, c'.value, shapes'))
      && (events != [] && events[|events| - 1].Updated? && !Succeeds(q, shapes', 0) ==> c'.None?)
  {
    if events == [] {
      assert shapes[..|shapes|] == shapes;
    } else {
      CacheTracks(q, shapes, c, events[..|events| - 1]);
      var (before, mid) := History(q, shapes, c, events[..|events| - 1]);
      match events[|events| - 1]
      case Added(shape) =>
        if mid.None? { StillFails(q, before, shape); }
        if mid.Some? { assert (before + [shape])[..mid.value.generation] == before[..mid.value.generation]; }
      case Updated =>
        if mid.Some? { UpdateCatchesUp(q, mid.value, before[..mid.value.generation], before); }
        assert before[..|before|] == before;
    }
  }

  lemma StillFails(q: Query, shapes: seq<Shape>, shape: Shape)
    requires !Succeeds(q, shapes, 0)
    ensures !Succeeds(q, shapes + [shape], 0)
  {
    var t :| 0 <= t < |shapes| && !q.Survives(shapes[t]);
    assert (shapes + [shape])[t] == shapes[t];
  }

  // ---------------------------------------------------------------- the object

  function ShapesOf(a: ArchetypesData): (r: seq<Shape>)
    requires |a.tables| == |a.lookupArray|
    ensures |r| == |a.tables|
    ensures forall t :: 0 <= t < |r| ==> r[t] == Shape(a.lookupArray[t], a.tables[t].lookup.Keys)
  {
    seq(|a.tables|, t requires 0 <= t < |a.tables| => Shape(a.lookupArray[t], a.tables[t].lookup.Keys))
  }

  lemma ShapesAreRegular(a: ArchetypesData)
    requires ArchetypesOk(a)
    ensures forall s <- ShapesOf(a) :: Regular(s)
    ensures Proper(ShapesOf(a))
  {
    forall t | 0 <= t < |a.tables| ensures Regular(ShapesOf(a)[t]) && ShapesOf(a)[t].columns != {} {
      assert TableOk(a.tables[t]);
      assert a.tables[t].columns[0].ty in a.tables[t].lookup.Keys;
    }
  }

  /** The archetypes as far as a scan relies on them. */
  ghost predicate Scannable(a: ArchetypesData) {
    a.generation == |a.tables| == |a.lookupArray| && forall t <- a.tables :: LookupOk(t)
  }

  /** `get_base_ptrs`: the columns of the components, or a panic at the first that has none. */
  method GetBasePtrs(q: Query, table: Table) returns (columns: Option<seq<nat>>)
    requires LookupOk(table.Model())
    ensures columns.Some? <==> q.Finds(table.lookup.Keys)
    ensures columns.Some? ==> columns.value == ColumnsFor(q, table.Model())
  {
    var found: seq<nat> := [];
    for k := 0 to |q.components|
      invariant |found| == k && forall m :: 0 <= m < k ==> q.components[m] in table.lookup.Keys
      invariant forall m :: 0 <= m < k ==> found[m] == table.lookup[q.components[m]]
    {
      var column := table.GetColumnByType(q.components[k]);
      if column.None? {
        assert q.components[k] in q.components;
        return None;
      }
      found := found + [table.lookup[q.components[k]]];
    }
    return Some(found);
  }

  /** The column of each component of the query. */
  function ColumnsFor(q: Query, t: TableData): (r: seq<nat>)
    requires q.Finds(t.lookup.Keys)
    ensures |r| == |q.components|
    ensures forall k :: 0 <= k < |r| ==> q.components[k] in t.lookup && r[k] == t.lookup[q.components[k]]
  {
    assert forall k :: 0 <= k < |q.components| ==> q.components[k] in t.lookup.Keys;
    seq(|q.components|, k requires 0 <= k < |q.components| => t.lookup[q.components[k]])
  }

  /** What is listed of one table, or a panic if it is accepted and lacks a column. */
  method ScanTable(q: Query, archetypes: Archetypes, t: nat) returns (listed: Option<seq<nat>>)
    requires Scannable(archetypes.Model()) && t < |archetypes.tables|
    ensures var shape := ShapesOf(archetypes.Model())[t];
      listed == if !q.Survives(shape) then None else if q.Accepts(shape.signature) then Some([t]) else Some([])
  {
    assert archetypes.Model().tables[t] == archetypes.tables[t].Model();
    assert archetypes.Model().tables[t] in archetypes.Model().tables;
    if !q.Accepts(archetypes.lookupArray[t]) {
      return Some([]);
    }
    var columns := GetBasePtrs(q, archetypes.tables[t]);
    listed := if columns.Some? then Some([t]) else None;
  }

  /** The loop of `cache_tables`, which stops at the first accepted table without one of the columns. */
  method ScanTables(q: Query, archetypes: Archetypes, start: nat) returns (found: Option<seq<nat>>)
    requires Scannable(archetypes.Model()) && start <= |archetypes.tables|
    ensures var shapes := ShapesOf(archetypes.Model());
      found == if Succeeds(q, shapes, start) then Some(Scan(q, shapes, start)) else None
  {
    ghost var a := archetypes.Model();
    ghost var shapes := ShapesOf(a);
    var list: seq<nat> := [];
    assert Scan(q, shapes[..start], start) == [];
    for t := start to |archetypes.tables|
      invariant archetypes.Model() == a && Listed(q, shapes, start, t, list)
    {
      ListedStep(q, shapes, start, t, list);
      var listed := ScanTable(q, archetypes, t);
      if listed.None? {
        return None;
      }
      list := list + listed.value;
    }
    assert shapes[..|shapes|] == shapes;
    return Some(list);
  }

  class QueryState {
    const query: Query
    var cache: seq<nat>
    var nextScan: nat
    var generation: nat

    function Model(): Cache
      reads this
    {
      Cache(cache, nextScan, generation)
    }

    constructor Blank(query: Query, generation: nat)
      ensures this.query == query && Model() == Cache([], 0, generation)
    {
      this.query := query;
      cache, nextScan, this.generation := [], 0, generation;
    }

    /** `QueryState::new`: a state with a full scan, or a panic exactly if the scan panics. */
    static method New(archetypes: Archetypes, query: Query) returns (state: Option<QueryState>)
      requires Scannable(archetypes.Model())
      ensures state.Some? <==> Succeeds(query, ShapesOf(archetypes.Model()), 0)
      ensures state.Some? ==> fresh(state.value) && state.value.query == query
      ensures state.Some? ==> Current(query, state.value.Model(), ShapesOf(archetypes.Model()))
    {
      var blank := new QueryState.Blank(query, archetypes.generation);
      var done := blank.CacheTables(archetypes, 0);
      state := if done then Some(blank) else None;
    }

    /** `cache_tables`: what it lists is appended, unless it panics. */
    method CacheTables(archetypes: Archetypes, start: nat) returns (done: bool)
      requires Scannable(archetypes.Model()) && start <= |archetypes.tables|
      modifies this`cache, this`nextScan
      ensures done <==> Succeeds(query, ShapesOf(archetypes.Model()), start)
      ensures cache == old(cache) + if done then Scan(query, ShapesOf(archetypes.Model()), start) else []
      ensures nextScan == if done then |archetypes.tables| else old(nextScan)
    {
      var found := ScanTables(query, archetypes, start);
      if found.None? {
        return false;
      }
      cache, nextScan := cache + found.value, |archetypes.tables|;
      return true;
    }

    /** `before_update`: it panics exactly if a full scan would, and otherwise the cache is current again. */
    method BeforeUpdate(archetypes: Archetypes, ghost seen: seq<Shape>) returns (done: bool)
      requires Scannable(archetypes.Model())
      requires Current(query, Model(), seen) && seen <= ShapesOf(archetypes.Model())
      modifies this
      ensures (if done then Some(Model()) else None) == Update(query, old(Model()), ShapesOf(archetypes.Model()))
      ensures done <==> Succeeds(query, ShapesOf(archetypes.Model()), 0)
      ensures done ==> Current(query, Model(), ShapesOf(archetypes.Model()))
    {
      ghost var a := archetypes.Model();
      UpdateCatchesUp(query, Model(), seen, ShapesOf(a));
      if generation != archetypes.generation {
        done := CacheTables(archetypes, nextScan);
        if !done {
          return;
        }
        generation := archetypes.generation;
        assert archetypes.Model() == a;
      }
      return true;
    }
  }
}
