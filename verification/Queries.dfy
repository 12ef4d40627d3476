/** A query over a world: what iterating the cached tables finds, against the map the world represents. */
module Queries {
  import opened EntityRegistry
  import opened Signatures
  import opened Tables
  import opened Placement
  import opened Storage
  import opened WorldObjects
  import opened Worlds
  import opened Iteration
  import opened QueryCache
  import opened Filters
  import WorldRuns
  import Splitting

  /** The cached tables as the iterators see them: by their numbers of rows. */
  function LensOf(a: ArchetypesData, cache: seq<nat>): (lens: seq<nat>)
    ensures |lens| == |cache|
    ensures forall k :: 0 <= k < |cache| ==>
      lens[k] == if cache[k] < |a.tables| then |a.tables[cache[k]].entities| else 0
  {
    seq(|cache|, k requires 0 <= k < |cache| => if cache[k] < |a.tables| then |a.tables[cache[k]].entities| else 0)
  }

  /** What a scan of this world leaves in the cache, if it does not panic. */
  ghost predicate CacheOf(w: WorldData, q: Query, cache: seq<nat>) {
    && Sound(w) && Succeeds(q, ShapesOf(w.archetypes), 0)
    && cache == FullScan(q, ShapesOf(w.archetypes))
  }

  lemma CachedTables(w: WorldData, q: Query, cache: seq<nat>)
    requires CacheOf(w, q, cache)
    ensures forall k :: 0 <= k < |cache| ==> cache[k] < |w.archetypes.tables|
    ensures forall j, k :: 0 <= j < k < |cache| ==> cache[j] != cache[k]
    ensures forall t: nat :: t in cache <==> t < |w.archetypes.tables| && q.Gets(w.archetypes.tables[t].lookup.Keys)
  {
    var a := w.archetypes;
    ShapesAreRegular(a);
    FullScanIs(q, ShapesOf(a));
    SuccessfulScanIs(q, ShapesOf(a));
    forall k | 0 <= k < |cache| ensures cache[k] < |a.tables| { assert cache[k] in cache; }
  }

  lemma BitsAreColumns(t: TableData)
    requires TableOk(t)
    ensures Normal(t.signature) && Bits(t.signature) == t.lookup.Keys
  {
  }

  /** The entity and the components in a row of the cached tables. */
  function RecordAt(a: ArchetypesData, cache: seq<nat>, r: Row): Record
    requires IsRow(LensOf(a, cache), r)
  {
    Records(a.tables[cache[r.table]])[r.offset]
  }

  /** The record shows a live entity that matches, with exactly its components. */
  ghost predicate IsMatch(record: Record, w: WorldData, q: Query) {
    record.entity in Shows(w) && Shows(w)[record.entity] == record.components && q.Gets(record.components.Keys)
  }

  /** The live entities that match. */
  ghost function Answering(w: WorldData, q: Query): set<Entity> {
    set e | e in Shows(w) && q.Gets(Shows(w)[e].Keys)
  }

  ghost predicate OnlyMatches(records: seq<Record>, w: WorldData, q: Query) {
    forall k :: 0 <= k < |records| ==> IsMatch(records[k], w, q)
  }

  ghost predicate Lists(records: seq<Record>, e: Entity) {
    exists k :: 0 <= k < |records| && records[k].entity == e
  }

  ghost predicate AllMatches(records: seq<Record>, w: WorldData, q: Query) {
    forall e :: e in Answering(w, q) ==> Lists(records, e)
  }

  ghost predicate NoneTwice(records: seq<Record>) {
    forall j, k :: 0 <= j < k < |records| ==> records[j].entity != records[k].entity
  }

  /** `records` lists every matching entity of the world once, with its components, and nothing else. */
  ghost predicate Exactly(records: seq<Record>, w: WorldData, q: Query) {
    OnlyMatches(records, w, q) && AllMatches(records, w, q) && NoneTwice(records)
  }

  /** Every row shows a live entity that matches, with exactly its components. */
  lemma RowIsMatch(w: WorldData, q: Query, cache: seq<nat>, r: Row)
    requires CacheOf(w, q, cache) && IsRow(LensOf(w.archetypes, cache), r)
    ensures var record := RecordAt(w.archetypes, cache, r);
      && IsMatch(record, w, q)
      && Places(w)[record.entity] == EntityMeta(record.entity, cache[r.table], r.offset)
  {
    CachedTables(w, q, cache);
    assert cache[r.table] in cache;
    RowIsEntry(w, cache[r.table], r.offset);
  }

  lemma HomeIsCached(w: WorldData, q: Query, cache: seq<nat>, e: Entity)
    requires CacheOf(w, q, cache) && e in Answering(w, q)
    ensures w.live[e].table in cache
  {
    CachedTables(w, q, cache);
    LiveRow(w, e);
    HomeIsArchetype(w, e);
  }

  lemma EntryIsRow(w: WorldData, cache: seq<nat>, e: Entity, k: nat)
    requires Sound(w) && e in w.live && k < |cache| && cache[k] == w.live[e].table
    ensures IsRow(LensOf(w.archetypes, cache), Row(k, Places(w)[e].row))
    ensures RecordAt(w.archetypes, cache, Row(k, Places(w)[e].row)).entity == e
  {
  }

  /** Every live entity that matches is in a row. */
  lemma MatchIsRow(w: WorldData, q: Query, cache: seq<nat>, e: Entity) returns (r: Row)
    requires CacheOf(w, q, cache) && e in Answering(w, q)
    ensures IsRow(LensOf(w.archetypes, cache), r) && RecordAt(w.archetypes, cache, r).entity == e
  {
    HomeIsCached(w, q, cache, e);
    var k :| 0 <= k < |cache| && cache[k] == w.live[e].table;
    EntryIsRow(w, cache, e, k);
    r := Row(k, Places(w)[e].row);
  }

  /** Two rows never show the same entity. */
  lemma RowsAreApart(w: WorldData, q: Query, cache: seq<nat>, r: Row, r': Row)
    requires CacheOf(w, q, cache) && IsRow(LensOf(w.archetypes, cache), r) && IsRow(LensOf(w.archetypes, cache), r')
    requires RecordAt(w.archetypes, cache, r).entity == RecordAt(w.archetypes, cache, r').entity
    ensures r == r'
  {
    CachedTables(w, q, cache);
    RowIsMatch(w, q, cache, r);
    RowIsMatch(w, q, cache, r');
  }

  function RecordsOf(a: ArchetypesData, cache: seq<nat>, rows: seq<Row>): (records: seq<Record>)
    requires OnlyRows(LensOf(a, cache), rows)
    ensures |records| == |rows| && forall k :: 0 <= k < |rows| ==> records[k] == RecordAt(a, cache, rows[k])
  {
    seq(|rows|, k requires 0 <= k < |rows| => RecordAt(a, cache, rows[k]))
  }

  lemma AllRowsAreRows(lens: seq<nat>)
    ensures OnlyRows(lens, AllRows(lens))
  {
    forall k | 0 <= k < |AllRows(lens)| ensures IsRow(lens, AllRows(lens)[k]) { AllFromIff(lens, 0, AllRows(lens)[k]); }
  }

  lemma MatchIsListed(w: WorldData, q: Query, cache: seq<nat>, rows: seq<Row>, e: Entity)
    requires CacheOf(w, q, cache)
    requires rows == AllRows(LensOf(w.archetypes, cache)) && OnlyRows(LensOf(w.archetypes, cache), rows)
    requires e in Answering(w, q)
    ensures Lists(RecordsOf(w.archetypes, cache, rows), e)
  {
    var r := MatchIsRow(w, q, cache, e);
    AllFromIff(LensOf(w.archetypes, cache), 0, r);
    RowIsListed(w.archetypes, cache, rows, r);
  }

  lemma RowIsListed(a: ArchetypesData, cache: seq<nat>, rows: seq<Row>, r: Row)
    requires OnlyRows(LensOf(a, cache), rows) && r in rows
    ensures IsRow(LensOf(a, cache), r) && Lists(RecordsOf(a, cache, rows), RecordAt(a, cache, r).entity)
  {
  }

  lemma ListedOnce(w: WorldData, q: Query, cache: seq<nat>, rows: seq<Row>, j: nat, k: nat)
    requires CacheOf(w, q, cache)
    requires rows == AllRows(LensOf(w.archetypes, cache)) && OnlyRows(LensOf(w.archetypes, cache), rows)
    requires j < k < |rows|
    ensures RecordsOf(w.archetypes, cache, rows)[j].entity != RecordsOf(w.archetypes, cache, rows)[k].entity
  {
    AllFromDistinct(LensOf(w.archetypes, cache), 0, j, k);
    if RecordAt(w.archetypes, cache, rows[j]).entity == RecordAt(w.archetypes, cache, rows[k]).entity {
      RowsAreApart(w, q, cache, rows[j], rows[k]);
    }
  }

  /** Reading all rows of the cached tables answers the query exactly. */
  lemma AllRowsAnswer(w: WorldData, q: Query, cache: seq<nat>)
    requires CacheOf(w, q, cache)
    ensures OnlyRows(LensOf(w.archetypes, cache), AllRows(LensOf(w.archetypes, cache)))
    ensures Exactly(RecordsOf(w.archetypes, cache, AllRows(LensOf(w.archetypes, cache))), w, q)
  {
    var rows := AllRows(LensOf(w.archetypes, cache));
    AllRowsAreRows(LensOf(w.archetypes, cache));
    var records := RecordsOf(w.archetypes, cache, rows);
    forall k | 0 <= k < |rows| ensures IsMatch(records[k], w, q) { RowIsMatch(w, q, cache, rows[k]); }
    forall e | e in Answering(w, q) ensures Lists(records, e) {
      MatchIsListed(w, q, cache, rows, e);
    }
    forall j, k | 0 <= j < k < |records| ensures records[j].entity != records[k].entity {
      ListedOnce(w, q, cache, rows, j, k);
    }
  }

  /** Splitting every table in any way answers the query exactly as well, empty tables or not. */
  lemma ParallelAnswer(w: WorldData, q: Query, cache: seq<nat>, plans: seq<Splitting.Plan>)
    requires CacheOf(w, q, cache) && Splitting.AllFit(LensOf(w.archetypes, cache), plans)
    ensures var rows := Splitting.Outputs(Splitting.AllLeaves(LensOf(w.archetypes, cache), plans, 0));
      OnlyRows(LensOf(w.archetypes, cache), rows) && Exactly(RecordsOf(w.archetypes, cache, rows), w, q)
  {
    Splitting.ParallelIsSequential(LensOf(w.archetypes, cache), plans, 0);
    AllRowsAnswer(w, q, cache);
  }

  // ---------------------------------------------------------------- the values given

  /** What the column of a component holds in a row of the cached tables. */
  function ValueAt(a: ArchetypesData, cache: seq<nat>, r: Row, column: nat): (v: Option<int>)
    requires IsRow(LensOf(a, cache), r)
  {
    var t := a.tables[cache[r.table]];
    if column < |t.columns| && r.offset < |t.columns[column].items| then Some(t.columns[column].items[r.offset])
    else None
  }

  /** The columns found for the query hold, in every row, the entity's own values of the components it names. */
  lemma RowGivesOwnValues(w: WorldData, q: Query, cache: seq<nat>, r: Row, k: nat)
    requires CacheOf(w, q, cache) && IsRow(LensOf(w.archetypes, cache), r) && k < |q.components|
    ensures var t := w.archetypes.tables[cache[r.table]]; var e := t.entities[r.offset];
      && q.Finds(t.lookup.Keys) && e in Shows(w) && q.components[k] in Shows(w)[e]
      && ValueAt(w.archetypes, cache, r, ColumnsFor(q, t)[k]) == Some(Shows(w)[e][q.components[k]])
  {
    CachedTables(w, q, cache);
    assert cache[r.table] in cache;
    var t := w.archetypes.tables[cache[r.table]];
    assert TableOk(t) && q.components[k] in q.components;
    RowIsEntry(w, cache[r.table], r.offset);
  }

  // ---------------------------------------------------------------- when the query gets what it asks for

  /** No `With` in the filter names a component out of reach of an archetype. */
  predicate CoveredIn(q: Query, a: ArchetypesData) {
    forall t :: 0 <= t < |a.tables| ==> Covered(q.filter, a.tables[t].lookup.Keys)
  }

  /** Then the entities it gets are exactly those it wants. */
  lemma AnsweringIsWanted(w: WorldData, q: Query)
    requires Sound(w) && CoveredIn(q, w.archetypes)
    ensures Answering(w, q) == set e | e in Shows(w) && q.Wants(Shows(w)[e].Keys)
  {
    forall e | e in Shows(w) ensures q.Gets(Shows(w)[e].Keys) <==> q.Wants(Shows(w)[e].Keys) {
      HomeIsArchetype(w, e);
      LiveRow(w, e);
      q.GetsWhatItWants(Shows(w)[e].Keys);
    }
  }

  // ---------------------------------------------------------------- the length

  function EntitiesOf(records: seq<Record>): (r: seq<Entity>)
    ensures |r| == |records| && forall k :: 0 <= k < |r| ==> r[k] == records[k].entity
  {
    seq(|records|, k requires 0 <= k < |records| => records[k].entity)
  }

  /** A sequence without repeats is as long as the set it lists. */
  lemma {:induction false} DistinctCount<T>(s: seq<T>, all: set<T>)
    requires forall x :: x in s <==> x in all
    requires forall j, k :: 0 <= j < k < |s| ==> s[j] != s[k]
    ensures |s| == |all|
  {
    if s == [] {
      assert all == {};
    } else {
      var init, last := s[..|s| - 1], s[|s| - 1];
      forall x ensures x in init <==> x in all - {last} {
        assert x in s <==> x in init || x == last;
      }
      DistinctCount(init, all - {last});
    }
  }

  /** An exact answer has as many records as there are matching entities. */
  lemma ExactlyCounts(records: seq<Record>, w: WorldData, q: Query)
    requires Exactly(records, w, q)
    ensures |records| == |Answering(w, q)|
  {
    var entities := EntitiesOf(records);
    forall e ensures e in entities <==> e in Answering(w, q) {
      if e in entities {
        var k :| 0 <= k < |entities| && entities[k] == e;
        assert IsMatch(records[k], w, q);
      }
      if e in Answering(w, q) {
        assert Lists(records, e);
      }
    }
    DistinctCount(entities, Answering(w, q));
  }

  lemma RowsCountMatches(w: WorldData, q: Query, cache: seq<nat>)
    requires CacheOf(w, q, cache)
    ensures |AllRows(LensOf(w.archetypes, cache))| == |Answering(w, q)|
  {
    AllRowsAnswer(w, q, cache);
    ExactlyCounts(RecordsOf(w.archetypes, cache, AllRows(LensOf(w.archetypes, cache))), w, q);
  }

  /**
   `len_upper_bound`: the rows of the cached tables are counted. For a current cache that is the number of live
   entities the query gets.
   */
  method LenUpperBound(archetypes: Archetypes, state: QueryState, ghost live: Live) returns (n: nat)
    requires forall k :: 0 <= k < |state.cache| ==> state.cache[k] < |archetypes.tables|
    ensures n == |AllRows(LensOf(archetypes.Model(), state.cache))|
    ensures var w := WorldData(archetypes.Model(), live);
      CacheOf(w, state.query, state.cache) ==> n == |Answering(w, state.query)|
  {
    ghost var lens := LensOf(archetypes.Model(), state.cache);
    n := 0;
    for k := 0 to |state.cache|
      invariant n + Sum(lens, k) == Sum(lens, 0)
    {
      n := n + |archetypes.tables[state.cache[k]].entities|;
    }
    SumIsLength(lens, 0);
    ghost var w := WorldData(archetypes.Model(), live);
    if CacheOf(w, state.query, state.cache) { RowsCountMatches(w, state.query, state.cache); }
  }

  /** What a query has seen stays a prefix of what there is, as tables are only added. */
  lemma SeenStaysSeen(w: WorldData, steps: seq<WorldRuns.Step>)
    requires Sound(w) && WorldRuns.Run(w, steps)
    ensures ShapesOf(w.archetypes) <= ShapesOf(WorldRuns.After(w, steps).archetypes)
  {
    WorldRuns.RunGrows(w, steps);
    var a, a' := w.archetypes, WorldRuns.After(w, steps).archetypes;
    forall t | 0 <= t < |a.tables| ensures ShapesOf(a)[t] == ShapesOf(a')[t] {
      BitsAreColumns(a.tables[t]);
      BitsAreColumns(a'.tables[t]);
    }
  }

  lemma SoundIsScannable(w: WorldData)
    requires Sound(w)
    ensures Scannable(w.archetypes)
  {
    forall t | t in w.archetypes.tables ensures LookupOk(t) { assert TableOk(t); }
  }

  /** What a query over this world gives: nothing if the scan panics, and otherwise an exact answer. */
  ghost predicate Answered(w: WorldData, q: Query, c: Cache, rows: Option<seq<Row>>)
    requires Sound(w)
  {
    if rows.None? then !Succeeds(q, ShapesOf(w.archetypes), 0)
    else
      && Current(q, c, ShapesOf(w.archetypes)) && OnlyRows(LensOf(w.archetypes, c.tables), rows.value)
      && Exactly(RecordsOf(w.archetypes, c.tables, rows.value), w, q)
  }

  /**
   A whole query: the cache is brought up to date, which panics exactly if some accepted table lacks a column,
   and the tables are iterated. If no cached table after the first is empty, the answer is every matching entity
   of the world, once, with its components.
   */
  method Answer(world: World, state: QueryState, ghost seen: seq<Shape>) returns (rows: Option<seq<Row>>)
    requires world.Valid()
    requires Current(state.query, state.Model(), seen) && seen <= ShapesOf(world.archetypes.Model())
    requires NoEmptyFrom(LensOf(world.archetypes.Model(), FullScan(state.query, ShapesOf(world.archetypes.Model()))), 1)
    modifies state
    ensures Answered(old(world.Model()), state.query, state.Model(), rows)
  {
    rows := AnswerOver(world.archetypes, world.Model(), state, seen);
  }

  lemma AllRowsAreAnswer(w: WorldData, q: Query, c: Cache)
    requires Sound(w) && Current(q, c, ShapesOf(w.archetypes))
    ensures Answered(w, q, c, Some(AllRows(LensOf(w.archetypes, c.tables))))
  {
    AllRowsAnswer(w, q, c.tables);
  }

  method AnswerOver(archetypes: Archetypes, ghost w: WorldData, state: QueryState, ghost seen: seq<Shape>)
    returns (rows: Option<seq<Row>>)
    requires Sound(w) && w.archetypes == archetypes.Model()
    requires Current(state.query, state.Model(), seen) && seen <= ShapesOf(w.archetypes)
    requires NoEmptyFrom(LensOf(w.archetypes, FullScan(state.query, ShapesOf(w.archetypes))), 1)
    modifies state
    ensures Answered(w, state.query, state.Model(), rows)
  {
    SoundIsScannable(w);
    var done := Refresh(archetypes, w.archetypes, state, seen);
    if !done {
      return None;
    }
    AllRowsAreAnswer(w, state.query, state.Model());
    var all := ReadAll(LensOf(archetypes.Model(), state.cache));
    return Some(all);
  }

  method Refresh(archetypes: Archetypes, ghost a: ArchetypesData, state: QueryState, ghost seen: seq<Shape>)
    returns (done: bool)
    requires a == archetypes.Model() && Scannable(a)
    requires Current(state.query, state.Model(), seen) && seen <= ShapesOf(a)
    modifies state
    ensures a == archetypes.Model()
    ensures done <==> Succeeds(state.query, ShapesOf(a), 0)
    ensures done ==> Current(state.query, state.Model(), ShapesOf(a))
  {
    done := state.BeforeUpdate(archetypes, seen);
  }

  /** `for` over the iterator of a query. */
  method ReadAll(lens: seq<nat>) returns (rows: seq<Row>)
    requires NoEmptyFrom(lens, 1)
    ensures rows == AllRows(lens)
  {
    var iter := new QueryIter(lens);
    FromStatePending(lens);
    rows := iter.Drain();
  }
}
