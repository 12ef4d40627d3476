/**
 The columns of a table as separate buffers: what the loops over `Table::columns` do to the buffers is what
 `Tables` says they do to sequences.
 */
module ColumnStore {
  import opened EntityRegistry
  import opened Signatures
  import opened Tables
  import opened Columns

  /** Columns that do not share an object or a buffer. */
  ghost predicate Separate(columns: seq<Column>)
    reads columns, set k | 0 <= k < |columns| :: columns[k].data
  {
    && (forall k :: 0 <= k < |columns| ==> columns[k].Valid())
    && (forall j, k :: 0 <= j < k < |columns| ==> columns[j] != columns[k] && columns[j].data != columns[k].data)
  }

  ghost function ModelOf(columns: seq<Column>): (r: seq<ColumnData>)
    requires Separate(columns)
    reads columns, set k | 0 <= k < |columns| :: columns[k].data
    ensures |r| == |columns| && forall k :: 0 <= k < |r| ==> r[k] == columns[k].Model()
  {
    seq(|columns|, k requires 0 <= k < |columns| && Separate(columns)
      reads columns, set k | 0 <= k < |columns| :: columns[k].data => columns[k].Model())
  }

  /** A value of a zero-sized type is the unit. */
  predicate Fit(column: Column, value: int) {
    column.zst ==> value == UNIT
  }

  method PushOn(columns: seq<Column>, c: nat, value: int) returns (dropped: seq<int>)
    requires Separate(columns) && c < |columns| && Fit(columns[c], value)
    modifies columns[c], columns[c].data
    ensures Separate(columns) && (columns[c].data == old(columns[c].data) || fresh(columns[c].data))
    ensures var m := old(ModelOf(columns)); ModelOf(columns) == m[c := m[c].(items := m[c].items + [value])]
    ensures dropped == if columns[c].zst then [value] else []
  {
    dropped := columns[c].Push(value);
  }

  predicate HasColumns(columns: seq<Column>, lookup: map<nat, nat>, bundle: Bundle) {
    forall k :: 0 <= k < |bundle| ==> bundle[k].ty in lookup && lookup[bundle[k].ty] < |columns|
  }

  /** The zero-sized components of a bundle. */
  function ZeroSized(columns: seq<Column>, lookup: map<nat, nat>, bundle: Bundle): Bundle
    requires HasColumns(columns, lookup, bundle)
  {
    if bundle == [] then []
    else
      var last := bundle[|bundle| - 1];
      ZeroSized(columns, lookup, bundle[..|bundle| - 1]) + if columns[lookup[last.ty]].zst then [last] else []
  }

  lemma ZeroSizedStep(columns: seq<Column>, lookup: map<nat, nat>, bundle: Bundle, k: nat)
    requires HasColumns(columns, lookup, bundle) && k < |bundle|
    ensures ZeroSized(columns, lookup, bundle[..k + 1]) ==
      ZeroSized(columns, lookup, bundle[..k]) + if columns[lookup[bundle[k].ty]].zst then [bundle[k]] else []
  {
    assert bundle[..k + 1][..k] == bundle[..k];
  }

  /** `insert_into`: every component is pushed on the column the lookup names. Only zero-sized ones are dropped. */
  method PushBundle(columns: seq<Column>, lookup: map<nat, nat>, bundle: Bundle, ghost t: TableData)
    returns (dropped: Bundle)
    requires Separate(columns) && ModelOf(columns) == t.columns && lookup == t.lookup
    requires LookupOk(t) && Fits(t, bundle) && HasColumns(columns, lookup, bundle)
    requires forall k :: 0 <= k < |bundle| ==> Fit(columns[lookup[bundle[k].ty]], bundle[k].data)
    modifies columns, set k | 0 <= k < |columns| :: columns[k].data
    ensures Separate(columns) && ModelOf(columns) == InsertInto(t, bundle).columns
    ensures forall k :: 0 <= k < |columns| ==> columns[k].data == old(columns[k].data) || fresh(columns[k].data)
    ensures dropped == ZeroSized(columns, lookup, bundle)
  {
    dropped := [];
    assert bundle[..0] == [];
    for k := 0 to |bundle|
      invariant Separate(columns) && Fits(t, bundle[..k]) && ModelOf(columns) == InsertInto(t, bundle[..k]).columns
      invariant forall c :: 0 <= c < |columns| ==> columns[c].data == old(columns[c].data) || fresh(columns[c].data)
      invariant dropped == ZeroSized(columns, lookup, bundle[..k])
    {
      BundleStep(t, bundle, k);
      ZeroSizedStep(columns, lookup, bundle, k);
      var values := PushOn(columns, lookup[bundle[k].ty], bundle[k].data);
      dropped := if values == [] then dropped else dropped + [bundle[k]];
    }
    assert bundle[..|bundle|] == bundle;
  }

  ghost predicate Apart(source: seq<Column>, columns: seq<Column>)
    reads source, columns
  {
    forall j, k :: 0 <= j < |source| && 0 <= k < |columns| ==>
      source[j] != columns[k] && source[j].data != columns[k].data
  }

  /** Two tables that do not share an object or a buffer either. */
  ghost predicate Beside(source: seq<Column>, columns: seq<Column>)
    reads source, set k | 0 <= k < |source| :: source[k].data
    reads columns, set k | 0 <= k < |columns| :: columns[k].data
  {
    Separate(source) && Separate(columns) && Apart(source, columns)
  }

  /** `copy_component` from column `k` of one table to column `c` of another. */
  method CopyOn(source: seq<Column>, k: nat, columns: seq<Column>, c: nat, row: nat)
    requires Beside(source, columns)
    requires c < |columns| && k < |source| && row < source[k].len
    requires source[k].ty == columns[c].ty && source[k].zst == columns[c].zst
    modifies columns[c], columns[c].data
    ensures Beside(source, columns) && ModelOf(source) == old(ModelOf(source))
    ensures columns[c].data == old(columns[c].data) || fresh(columns[c].data)
    ensures var m := old(ModelOf(columns));
      ModelOf(columns) == m[c := m[c].(items := m[c].items + [ModelOf(source)[k].items[row]])]
  {
    source[k].CopyComponent(columns[c], row);
  }

  predicate SameSizes(source: seq<Column>, columns: seq<Column>, lookup: map<nat, nat>) {
    forall k :: 0 <= k < |source| && source[k].ty in lookup && lookup[source[k].ty] < |columns| ==>
      columns[lookup[source[k].ty]].zst == source[k].zst
  }

  /** The first `n` columns of the row have been copied. */
  ghost predicate CopiedSoFar(source: seq<Column>, columns: seq<Column>, s: TableData, t: TableData, row: nat, n: nat)
    reads source, set k | 0 <= k < |source| :: source[k].data
    reads columns, set k | 0 <= k < |columns| :: columns[k].data
    requires HasRow(s, row) && LookupOk(t) && Fits(t, RowBundle(s, row)) && n <= |s.columns|
  {
    var part := RowBundle(s, row)[..n];
    Beside(source, columns) && ModelOf(source) == s.columns && ModelOf(columns) == InsertInto(t, part).columns
  }

  method CopyNext(source: seq<Column>, k: nat, columns: seq<Column>, c: nat, row: nat,
      ghost s: TableData, ghost t: TableData)
    requires HasRow(s, row) && LookupOk(t) && Fits(t, RowBundle(s, row)) && k < |s.columns|
    requires CopiedSoFar(source, columns, s, t, row, k)
    requires source[k].ty in t.lookup && c == t.lookup[source[k].ty] && source[k].zst == columns[c].zst
    modifies columns[c], columns[c].data
    ensures CopiedSoFar(source, columns, s, t, row, k + 1)
    ensures columns[c].data == old(columns[c].data) || fresh(columns[c].data)
  {
    BundleStep(t, RowBundle(s, row), k);
    assert ModelOf(source)[k] == s.columns[k];
    CopyOn(source, k, columns, c, row);
  }

  /** `copy_component` for every column of a row of another table, which stays as it is. */
  method CopyRow(source: seq<Column>, columns: seq<Column>, lookup: map<nat, nat>, row: nat,
      ghost s: TableData, ghost t: TableData)
    requires Beside(source, columns) && SameSizes(source, columns, lookup)
    requires ModelOf(source) == s.columns && ModelOf(columns) == t.columns && lookup == t.lookup
    requires HasRow(s, row) && LookupOk(t) && Fits(t, RowBundle(s, row))
    modifies columns, set k | 0 <= k < |columns| :: columns[k].data
    ensures Beside(source, columns) && ModelOf(source) == s.columns
    ensures ModelOf(columns) == InsertInto(t, RowBundle(s, row)).columns
  {
    assert RowBundle(s, row)[..0] == [];
    for k := 0 to |source|
      invariant CopiedSoFar(source, columns, s, t, row, k)
      invariant forall c :: 0 <= c < |columns| ==> columns[c].data == old(columns[c].data) || fresh(columns[c].data)
    {
      assert RowBundle(s, row)[k].ty == source[k].Model().ty;
      CopyNext(source, k, columns, lookup[source[k].ty], row, s, t);
    }
    assert RowBundle(s, row)[..|source|] == RowBundle(s, row);
  }

  /** The columns after row `row` has been swap-removed from the first `n`. */
  function RowRemoved(t: TableData, row: nat, n: nat): (r: seq<ColumnData>)
    requires HasRow(t, row)
    ensures |r| == |t.columns|
  {
    seq(|t.columns|, c requires 0 <= c < |t.columns| =>
      if c < n then t.columns[c].(items := SwapRemoved(t.columns[c].items, row)) else t.columns[c])
  }

  lemma RowRemovedStep(t: TableData, row: nat, n: nat)
    requires HasRow(t, row) && n < |t.columns|
    ensures RowRemoved(t, row, n)[n] == t.columns[n]
    ensures RowRemoved(t, row, n + 1) ==
      RowRemoved(t, row, n)[n := t.columns[n].(items := SwapRemoved(t.columns[n].items, row))]
  {
  }

  /** Removing the row from every column is what `Table::remove` does to the columns. */
  lemma RowRemovedIsRemoveRow(t: TableData, e: Entity, row: nat)
    requires TableOk(t) && e in t.entityLookup && t.entityLookup[e] == row < |t.entities|
    ensures HasRow(t, row) && RowRemoved(t, row, |t.columns|) == RemoveRow(t, e).columns
  {
  }

  method RemoveNext(columns: seq<Column>, c: nat, row: nat, shouldDrop: bool, ghost t: TableData)
    returns (dropped: Bundle)
    requires Separate(columns) && HasRow(t, row) && c < |t.columns| && ModelOf(columns) == RowRemoved(t, row, c)
    modifies columns[c], columns[c].data
    ensures Separate(columns) && columns[c].data == old(columns[c].data)
    ensures ModelOf(columns) == RowRemoved(t, row, c + 1)
    ensures dropped == if shouldDrop then [RowBundle(t, row)[c]] else []
  {
    RowRemovedStep(t, row, c);
    assert ModelOf(columns)[c] == t.columns[c];
    var values := columns[c].SwapRemove(row, shouldDrop);
    dropped := if shouldDrop then [Component(columns[c].ty, values[0])] else [];
    assert ModelOf(columns) == old(ModelOf(columns))[c := columns[c].Model()];
  }

  /** What has been dropped of a row after `n` columns. */
  function FirstOf(bundle: Bundle, n: nat, shouldDrop: bool): Bundle
    requires n <= |bundle|
  {
    if shouldDrop then bundle[..n] else []
  }

  lemma FirstOfStep(bundle: Bundle, n: nat, shouldDrop: bool)
    requires n < |bundle|
    ensures FirstOf(bundle, n + 1, shouldDrop) ==
      FirstOf(bundle, n, shouldDrop) + if shouldDrop then [bundle[n]] else []
  {
  }

  /** The swap-removals of `Table::remove`. */
  method SwapRemoveRow(columns: seq<Column>, row: nat, shouldDrop: bool, ghost t: TableData) returns (dropped: Bundle)
    requires Separate(columns) && ModelOf(columns) == t.columns && HasRow(t, row)
    modifies columns, set k | 0 <= k < |columns| :: columns[k].data
    ensures Separate(columns) && ModelOf(columns) == RowRemoved(t, row, |t.columns|)
    ensures dropped == if shouldDrop then RowBundle(t, row) else []
  {
    dropped := [];
    assert RowRemoved(t, row, 0) == t.columns;
    for c := 0 to |columns|
      invariant Separate(columns) && ModelOf(columns) == RowRemoved(t, row, c)
      invariant forall k :: 0 <= k < |columns| ==> columns[k].data == old(columns[k].data)
      invariant dropped == FirstOf(RowBundle(t, row), c, shouldDrop)
    {
      FirstOfStep(RowBundle(t, row), c, shouldDrop);
      var piece := RemoveNext(columns, c, row, shouldDrop, t);
      dropped := dropped + piece;
    }
    assert RowBundle(t, row)[..|columns|] == RowBundle(t, row);
  }

  lemma OneMore(columns: seq<Column>, column: Column)
    requires Separate(columns) && column.Valid() && Apart(columns, [column])
    ensures Separate(columns + [column]) && ModelOf(columns + [column]) == ModelOf(columns) + [column.Model()]
  {
  }

  twostate predicate New(new columns: seq<Column>)
    reads columns
  {
    forall k :: 0 <= k < |columns| ==> fresh(columns[k]) && fresh(columns[k].data)
  }

  function Blanks(columns: seq<ColumnData>): (r: seq<ColumnData>)
    ensures |r| == |columns| && forall k :: 0 <= k < |r| ==> r[k] == columns[k].(items := [])
  {
    seq(|columns|, k requires 0 <= k < |columns| => columns[k].(items := []))
  }

  lemma BlanksStep(columns: seq<ColumnData>, n: nat)
    requires n < |columns|
    ensures Blanks(columns[..n + 1]) == Blanks(columns[..n]) + [ColumnData(columns[n].ty, [])]
  {
  }

  /** One more empty column. */
  method NewColumn(columns: seq<Column>, ty: nat, zst: bool) returns (r: seq<Column>)
    requires Separate(columns)
    ensures |r| == |columns| + 1 && r == columns + [r[|columns|]]
    ensures fresh(r[|columns|]) && fresh(r[|columns|].data) && r[|columns|].zst == zst
    ensures Separate(r) && ModelOf(r) == ModelOf(columns) + [ColumnData(ty, [])]
  {
    var column := new Column(ty, zst);
    assert forall k :: 0 <= k < |columns| ==> columns[k].data != column.data;
    OneMore(columns, column);
    r := columns + [column];
  }

  /** `clone_empty` of every column: empty columns for the same types. */
  method Emptied(base: seq<Column>) returns (columns: seq<Column>)
    requires Separate(base)
    ensures New(columns)
    ensures Separate(columns) && ModelOf(columns) == Blanks(ModelOf(base))
  {
    columns := [];
    ghost var model := ModelOf(base);
    for n := 0 to |base|
      invariant New(columns) && Separate(columns) && ModelOf(columns) == Blanks(model[..n])
    {
      BlanksStep(model, n);
      columns := NewColumn(columns, base[n].ty, base[n].zst);
    }
    assert model[..|base|] == model;
  }

  lemma ColumnStep(signature: Words, t: TableData, bundle: Bundle, n: nat)
    requires n < |bundle|
    ensures WithColumns(signature, t, bundle[..n + 1]).columns ==
      WithColumns(signature, t, bundle[..n]).columns + [ColumnData(bundle[n].ty, [])]
  {
    assert bundle[..n + 1][..n] == bundle[..n];
  }

  /** The columns of `new_joined_table`, and of `new_table` where `base` has none. */
  method NewColumns(base: seq<Column>, bundle: Bundle, zst: nat -> bool, ghost t: TableData, ghost signature: Words)
    returns (columns: seq<Column>)
    requires Separate(base) && ModelOf(base) == t.columns
    ensures New(columns)
    ensures Separate(columns) && ModelOf(columns) == WithColumns(signature, t, bundle).columns
  {
    columns := Emptied(base);
    assert bundle[..0] == [];
    assert ModelOf(columns) == WithColumns(signature, t, []).columns;
    for n := 0 to |bundle|
      invariant New(columns) && Separate(columns) && ModelOf(columns) == WithColumns(signature, t, bundle[..n]).columns
    {
      ColumnStep(signature, t, bundle, n);
      columns := NewColumn(columns, bundle[n].ty, zst(bundle[n].ty));
    }
    assert bundle[..|bundle|] == bundle;
  }
}
