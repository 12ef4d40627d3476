/** A table as an object: every method does to its fields what the functions of `Tables` say. */
module TableObject {
  import opened EntityRegistry
  import opened Signatures
  import opened Tables

  class Table {
    var signature: Words
    var entities: seq<Entity>
    var entityLookup: map<Entity, nat>
    var lookup: map<nat, nat>
    var columns: seq<ColumnData>

    function Model(): TableData
      reads this
    {
      TableData(signature, entities, entityLookup, lookup, columns)
    }

    /** `new_table`: one empty column for every component of the bundle, in its order. */
    constructor (signature: Words, bundle: Bundle)
      ensures Model() == NewTable(signature, bundle)
    {
      this.signature, entities, entityLookup, lookup, columns := signature, [], map[], map[], [];
      new;
      var counter := 0;
      assert bundle[..0] == [];
      for k := 0 to |bundle|
        invariant counter == |columns| && Model() == NewTable(signature, bundle[..k])
      {
        NextColumn(signature, NewTable(signature, []), bundle, k);
        lookup := lookup[bundle[k].ty := counter];
        columns := columns + [ColumnData(bundle[k].ty, [])];
        counter := counter + 1;
      }
      assert bundle[..|bundle|] == bundle;
    }

    static lemma NextColumn(signature: Words, base: TableData, bundle: Bundle, k: nat)
      requires k < |bundle|
      ensures WithColumns(signature, base, bundle[..k + 1]) ==
        AddColumn(WithColumns(signature, base, bundle[..k]), bundle[k].ty)
    {
      assert bundle[..k + 1][..k] == bundle[..k];
    }

    /** `new_joined_table`: emptied copies of the columns of `base`, then a column for every new component. */
    constructor Joined(base: Table, signature: Words, bundle: Bundle)
      requires LookupOk(base.Model()) && IsDisjoint(base.signature, signature)
      ensures Model() == NewJoinedTable(base.Model(), signature, bundle)
    {
      this.signature, entities, entityLookup := Union(signature, base.signature), [], map[];
      lookup := base.lookup;
      columns := seq(|base.columns|, c requires 0 <= c < |base.columns| reads base => base.columns[c].(items := []));
      new;
      LookupSize(base.Model());
      var counter := |lookup|;
      ghost var source := base.Model();
      assert bundle[..0] == [];
      for k := 0 to |bundle|
        invariant counter == |columns|
        invariant Model() == WithColumns(Union(signature, source.signature), source, bundle[..k])
      {
        NextColumn(Union(signature, source.signature), source, bundle, k);
        lookup := lookup[bundle[k].ty := counter];
        columns := columns + [ColumnData(bundle[k].ty, [])];
        counter := counter + 1;
      }
      assert bundle[..|bundle|] == bundle;
    }

    /** `insert_into`: every component goes to the end of the column of its type. */
    method InsertInto(bundle: Bundle)
      requires LookupOk(Model()) && Fits(Model(), bundle)
      modifies this`columns
      ensures Model() == Tables.InsertInto(old(Model()), bundle)
    {
      assert bundle[..0] == [];
      for k := 0 to |bundle|
        invariant Fits(old(Model()), bundle[..k]) && Model() == Tables.InsertInto(old(Model()), bundle[..k])
      {
        BundleStep(old(Model()), bundle, k);
        var c := lookup[bundle[k].ty];
        columns := columns[c := columns[c].(items := columns[c].items + [bundle[k].data])];
      }
      assert bundle[..|bundle|] == bundle;
    }

    /** A new row at the end of every column. */
    method Insert(e: Entity, bundle: Bundle) returns (row: nat)
      requires LookupOk(Model()) && Fits(Model(), bundle)
      modifies this`entities, this`entityLookup, this`columns
      ensures row == |old(entities)| && Model() == AppendRow(old(Model()), e, bundle)
    {
      row := |entities|;
      entities := entities + [e];
      entityLookup := entityLookup[e := |entities| - 1];
      InsertInto(bundle);
    }

    /** The components in a row of another table are copied to the end of the columns of their types. */
    method CopyRow(source: Table, row: nat)
      requires source != this && HasRow(source.Model(), row)
      requires LookupOk(Model()) && Fits(Model(), RowBundle(source.Model(), row))
      modifies this`columns
      ensures Model() == Tables.InsertInto(old(Model()), RowBundle(source.Model(), row))
    {
      ghost var bundle := RowBundle(source.Model(), row);
      assert bundle[..0] == [];
      for k := 0 to |source.columns|
        invariant Fits(old(Model()), bundle[..k]) && Model() == Tables.InsertInto(old(Model()), bundle[..k])
      {
        BundleStep(old(Model()), bundle, k);
        var c := lookup[source.columns[k].ty];
        columns := columns[c := columns[c].(items := columns[c].items + [source.columns[k].items[row]])];
      }
      assert bundle[..|bundle|] == bundle;
    }

    /** An entity arrives with the components it has in a row of another table. */
    method InsertCopy(e: Entity, source: Table, row: nat)
      requires source != this && HasRow(source.Model(), row)
      requires LookupOk(Model()) && Fits(Model(), RowBundle(source.Model(), row))
      modifies this`entities, this`entityLookup, this`columns
      ensures Model() == AppendRow(old(Model()), e, RowBundle(source.Model(), row)) && LookupOk(Model())
    {
      entities := entities + [e];
      entityLookup := entityLookup[e := |entities| - 1];
      CopyRow(source, row);
    }

    /** Every column is swap-removed on its own. */
    method SwapRemoveColumns(row: nat, shouldDrop: bool) returns (dropped: Bundle)
      requires forall c :: 0 <= c < |columns| ==> row < |columns[c].items|
      modifies this`columns
      ensures |columns| == |old(columns)|
      ensures forall c :: 0 <= c < |columns| ==>
        columns[c] == old(columns)[c].(items := SwapRemoved(old(columns)[c].items, row))
      ensures dropped == if shouldDrop then RowBundle(old(Model()), row) else []
    {
      dropped := [];
      ghost var bundle := RowBundle(Model(), row);
      for c := 0 to |columns|
        invariant |columns| == |old(columns)|
        invariant forall d :: 0 <= d < c ==>
          columns[d] == old(columns)[d].(items := SwapRemoved(old(columns)[d].items, row))
        invariant forall d :: c <= d < |columns| ==> columns[d] == old(columns)[d]
        invariant dropped == if shouldDrop then bundle[..c] else []
      {
        if shouldDrop {
          dropped := dropped + [Component(columns[c].ty, columns[c].items[row])];
        }
        columns := columns[c := columns[c].(items := SwapRemoved(columns[c].items, row))];
      }
      assert bundle[..|columns|] == bundle;
    }

    /**
     The entity's row is swap-removed from every column, and the metadata of the entity that moves into it
     follows. An entity the table does not know changes nothing.
     */
    method Remove(registry: Entities, e: Entity, shouldDrop: bool) returns (dropped: Bundle)
      requires TableOk(Model()) && (e in entityLookup ==> entityLookup[e] < |entities|)
      requires registry.Model().Valid()
      modifies this`entities, this`entityLookup, this`columns, registry`dense
      ensures Model() == RemoveRow(old(Model()), e)
      ensures registry.Model() ==
        if e in old(entityLookup) && |old(entities)| > 1
        then old(registry.Model()).SetRow(old(entities)[|old(entities)| - 1].index, old(entityLookup)[e])
        else old(registry.Model())
      ensures dropped == RemoveDrops(old(Model()), e, shouldDrop)
    {
      dropped := [];
      if e !in entityLookup {
        return;
      }
      var row := entityLookup[e];
      entityLookup := entityLookup - {e};
      if |entities| > 1 {
        var moved := entities[|entities| - 1];
        var _ := registry.SetRowMeta(moved.index, row);
        entityLookup := entityLookup[moved := row];
      }
      entities := SwapRemoved(entities, row);
      dropped := SwapRemoveColumns(row, shouldDrop);
    }

    /** The entity in a row. */
    method GetEntity(index: nat) returns (e: Option<Entity>)
      ensures e == if index < |entities| then Some(entities[index]) else None
    {
      if index < |entities| {
        return Some(entities[index]);
      }
      return None;
    }

    /** The column of a component type. */
    method GetColumnByType(ty: nat) returns (column: Option<ColumnData>)
      requires LookupOk(Model())
      ensures column.None? <==> forall c :: 0 <= c < |columns| ==> columns[c].ty != ty
      ensures column.Some? ==> column.value in columns && column.value.ty == ty
    {
      if ty !in lookup {
        return None;
      }
      return Some(columns[lookup[ty]]);
    }
  }
}
