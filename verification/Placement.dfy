/** Rows of records on one side, entity metadata on the other, each pointing at the other. */
module Placement {
  import opened EntityRegistry
  import opened Tables

  /** The records of every table. */
  type Grid = seq<seq<Record>>

  type Live = map<Entity, EntityMeta>

  type Contents = map<Entity, map<nat, int>>

  /** The metadata of `e` points at a row that holds `e`. */
  predicate PointsRight(grid: Grid, e: Entity, m: EntityMeta) {
    m.handle == e && m.table < |grid| && m.row < |grid[m.table]| && grid[m.table][m.row].entity == e
  }

  /** Row `r` of table `t` belongs to a live entity whose metadata points back at it. */
  predicate RowOwned(grid: Grid, live: Live, t: nat, r: nat)
    requires t < |grid| && r < |grid[t]|
  {
    var e := grid[t][r].entity;
    e in live && live[e].table == t && live[e].row == r
  }

  ghost predicate Placed(grid: Grid, live: Live) {
    && (forall e :: e in live ==> PointsRight(grid, e, live[e]))
    && (forall t, r :: 0 <= t < |grid| && 0 <= r < |grid[t]| ==> RowOwned(grid, live, t, r))
  }

  function At(grid: Grid, m: EntityMeta): map<nat, int> {
    if m.table < |grid| && m.row < |grid[m.table]| then grid[m.table][m.row].components else map[]
  }

  /** What is stored, seen from outside. */
  function Abs(grid: Grid, live: Live): Contents {
    map e | e in live :: At(grid, live[e])
  }

  /** `set_row_meta` for the row that swap-removing row `row` of `records` moves. */
  function MovedLive(live: Live, records: seq<Record>, row: nat): Live {
    if |records| > 1 && records[|records| - 1].entity in live then
      var moved := records[|records| - 1].entity;
      live[moved := live[moved].(row := row)]
    else live
  }

  /** An entity leaves: its record is swap-removed, the moved record's metadata follows. */
  lemma DetachPlaced(grid: Grid, live: Live, e: Entity)
    requires Placed(grid, live) && e in live
    ensures PointsRight(grid, e, live[e])
    ensures var t, row := live[e].table, live[e].row;
            var grid', live' := grid[t := SwapRemoved(grid[t], row)], MovedLive(live, grid[t], row) - {e};
      Placed(grid', live') && Abs(grid', live') == Abs(grid, live) - {e}
  {
    assert PointsRight(grid, e, live[e]);
    var t, row := live[e].table, live[e].row;
    var last := |grid[t]| - 1;
    var grid', live' := grid[t := SwapRemoved(grid[t], row)], MovedLive(live, grid[t], row) - {e};
    assert RowOwned(grid, live, t, last);
    forall x | x in live'
      ensures PointsRight(grid', x, live'[x])
      ensures At(grid', live'[x]) == At(grid, live[x])
    {
      assert PointsRight(grid, x, live[x]);
    }
    forall u, q | 0 <= u < |grid'| && 0 <= q < |grid'[u]| ensures RowOwned(grid', live', u, q) {
      var q' := if u == t && q == row then last else q;
      assert RowOwned(grid, live, u, q') && grid'[u][q] == grid[u][q'];
    }
    forall x | x in Abs(grid', live') ensures Abs(grid', live')[x] == Abs(grid, live)[x] {}
    assert Abs(grid', live').Keys == Abs(grid, live).Keys - {e};
  }

  /** An entity arrives: its record is appended to table `t`. */
  lemma AttachPlaced(grid: Grid, live: Live, e: Entity, t: nat, components: map<nat, int>)
    requires Placed(grid, live) && e !in live && t < |grid|
    ensures var grid', live' := grid[t := grid[t] + [Record(e, components)]], live[e := EntityMeta(e, t, |grid[t]|)];
      Placed(grid', live') && Abs(grid', live') == Abs(grid, live)[e := components]
  {
    var grid', live' := grid[t := grid[t] + [Record(e, components)]], live[e := EntityMeta(e, t, |grid[t]|)];
    forall x | x in live'
      ensures PointsRight(grid', x, live'[x])
      ensures At(grid', live'[x]) == if x == e then components else At(grid, live[x])
    {
      if x != e { assert PointsRight(grid, x, live[x]); }
    }
    forall u, q | 0 <= u < |grid'| && 0 <= q < |grid'[u]| ensures RowOwned(grid', live', u, q) {
      if q < |grid[u]| { assert RowOwned(grid, live, u, q); }
    }
    assert Abs(grid', live').Keys == Abs(grid, live).Keys + {e};
  }

  /** An empty table changes nothing. */
  lemma EmptyTablePlaced(grid: Grid, live: Live)
    requires Placed(grid, live)
    ensures Placed(grid + [[]], live) && Abs(grid + [[]], live) == Abs(grid, live)
  {
    forall x | x in live
      ensures PointsRight(grid + [[]], x, live[x]) && At(grid + [[]], live[x]) == At(grid, live[x])
    {
      assert PointsRight(grid, x, live[x]);
    }
    forall u, q | 0 <= u < |grid + [[]]| && 0 <= q < |(grid + [[]])[u]| ensures RowOwned(grid + [[]], live, u, q) {
      assert RowOwned(grid, live, u, q);
    }
  }

  /** An entity that is not live is in no row. */
  lemma NotStored(grid: Grid, live: Live, e: Entity, t: nat, r: nat)
    requires Placed(grid, live) && e !in live && t < |grid| && r < |grid[t]|
    ensures grid[t][r].entity != e
  {
    assert RowOwned(grid, live, t, r);
  }

  /** A wrong row breaks the invariant for good: metadata is right only where the entity is. */
  lemma OnlyRightRowIsPlaced(grid: Grid, live: Live, e: Entity, m: EntityMeta)
    requires Placed(grid, live) && e in live && m.handle == e && m.table == live[e].table
    ensures Placed(grid, live[e := m]) <==> m == live[e]
  {
    assert PointsRight(grid, e, live[e]);
    if m != live[e] {
      assert RowOwned(grid, live, live[e].table, live[e].row);
      assert !RowOwned(grid, live[e := m], live[e].table, live[e].row);
    } else {
      assert live[e := m] == live;
    }
  }
}
