/** Archetype tables: aligned columns, swap-removed rows, and the two lookup maps of a table. */
module Tables {
  import opened EntityRegistry
  import opened Signatures

  /** A component value with its type. */
  datatype Component = Component(ty: nat, data: int)

  type Bundle = seq<Component>

  datatype ColumnData = ColumnData(ty: nat, items: seq<int>)

  /** The fields of `Table`: `lookup` maps component types to columns, `entityLookup` entities to rows. */
  datatype TableData = TableData(
    signature: Words, entities: seq<Entity>, entityLookup: map<Entity, nat>,
    lookup: map<nat, nat>, columns: seq<ColumnData>)

  // ---------------------------------------------------------------- bundles

  /** The bundle as a map from types to values. */
  function AsMap(bundle: Bundle): map<nat, int> {
    if bundle == [] then map[]
    else AsMap(bundle[..|bundle| - 1])[bundle[|bundle| - 1].ty := bundle[|bundle| - 1].data]
  }

  function TypesOf(bundle: Bundle): set<nat> {
    AsMap(bundle).Keys
  }

  /** No type appears twice. */
  predicate DistinctTypes(bundle: Bundle) {
    bundle == [] ||
    (DistinctTypes(bundle[..|bundle| - 1]) && bundle[|bundle| - 1].ty !in TypesOf(bundle[..|bundle| - 1]))
  }

  /** The signature of a bundle, set bit by bit. */
  function SigOf(bundle: Bundle): Words {
    if bundle == [] then [] else SetBit(SigOf(bundle[..|bundle| - 1]), bundle[|bundle| - 1].ty)
  }

  lemma {:induction false} SigOfMeaning(bundle: Bundle)
    ensures Normal(SigOf(bundle))
    ensures forall ty: nat :: Has(SigOf(bundle), ty) <==> ty in TypesOf(bundle)
  {
    if bundle != [] {
      var init, last := bundle[..|bundle| - 1], bundle[|bundle| - 1];
      SigOfMeaning(init);
      SetBitNormal(SigOf(init), last.ty);
      forall ty: nat ensures Has(SigOf(bundle), ty) <==> ty in TypesOf(bundle) {
        SetBitHas(SigOf(init), last.ty, ty);
      }
    }
  }

  lemma {:induction false} AsMapAt(bundle: Bundle, k: nat)
    requires DistinctTypes(bundle) && k < |bundle|
    ensures bundle[k].ty in AsMap(bundle) && AsMap(bundle)[bundle[k].ty] == bundle[k].data
  {
    if k < |bundle| - 1 {
      AsMapAt(bundle[..|bundle| - 1], k);
    }
  }

  lemma {:induction false} AsMapOnly(bundle: Bundle, ty: nat) returns (k: nat)
    requires ty in AsMap(bundle)
    ensures k < |bundle| && bundle[k].ty == ty
  {
    if bundle[|bundle| - 1].ty == ty {
      k := |bundle| - 1;
    } else {
      k := AsMapOnly(bundle[..|bundle| - 1], ty);
    }
  }

  lemma {:induction false} AsMapConcat(a: Bundle, b: Bundle)
    ensures AsMap(a + b) == AsMap(a) + AsMap(b)
    ensures DistinctTypes(a) && DistinctTypes(b) && TypesOf(a) !! TypesOf(b) ==> DistinctTypes(a + b)
  {
    if b == [] {
      assert a + b == a;
    } else {
      var init, last := b[..|b| - 1], b[|b| - 1];
      AsMapConcat(a, init);
      assert (a + b)[..|a + b| - 1] == a + init && (a + b)[|a + b| - 1] == last;
    }
  }

  /** A bundle whose types are pairwise different, seen by position. */
  lemma {:induction false} DistinctByPosition(bundle: Bundle)
    requires forall i, j :: 0 <= i < j < |bundle| ==> bundle[i].ty != bundle[j].ty
    ensures DistinctTypes(bundle)
  {
    if bundle != [] {
      var init, last := bundle[..|bundle| - 1], bundle[|bundle| - 1];
      DistinctByPosition(init);
      if last.ty in AsMap(init) {
        var k := AsMapOnly(init, last.ty);
      }
    }
  }

  // ---------------------------------------------------------------- columns and rows

  /** The element at `row` is replaced by the last one, and the sequence gets shorter by one. */
  function SwapRemoved<T>(s: seq<T>, row: nat): seq<T>
    requires row < |s|
  {
    s[row := s[|s| - 1]][..|s| - 1]
  }

  /** `lookup` and `columns` describe the same columns. */
  ghost predicate LookupOk(t: TableData) {
    && t.columns != []
    && (forall ty :: ty in t.lookup ==> t.lookup[ty] < |t.columns| && t.columns[t.lookup[ty]].ty == ty)
    && (forall c :: 0 <= c < |t.columns| ==> t.columns[c].ty in t.lookup && t.lookup[t.columns[c].ty] == c)
  }

  /** Everything in a table is aligned. `entityLookup` may keep keys of entities that have left. */
  ghost predicate TableOk(t: TableData) {
    && LookupOk(t)
    && (forall c :: 0 <= c < |t.columns| ==> |t.columns[c].items| == |t.entities|)
    && (forall r :: 0 <= r < |t.entities| ==> t.entities[r] in t.entityLookup && t.entityLookup[t.entities[r]] == r)
    && Normal(t.signature)
    && (forall ty: nat :: Has(t.signature, ty) <==> ty in t.lookup)
  }

  /** There are as many keys in `lookup` as there are columns. */
  lemma LookupSize(t: TableData)
    requires LookupOk(t)
    ensures |t.lookup| == |t.columns|
  {
    FirstTypesSize(t, |t.columns|);
    assert t.lookup.Keys == FirstTypes(t, |t.columns|);
  }

  ghost function FirstTypes(t: TableData, n: nat): (r: set<nat>)
    requires n <= |t.columns|
    ensures forall ty :: ty in r <==> exists c :: 0 <= c < n && t.columns[c].ty == ty
  {
    if n == 0 then {} else FirstTypes(t, n - 1) + {t.columns[n - 1].ty}
  }

  lemma NextTypeIsNew(t: TableData, n: nat)
    requires LookupOk(t) && n < |t.columns|
    ensures t.columns[n].ty !in FirstTypes(t, n)
  {
    forall c | 0 <= c < n ensures t.columns[c].ty != t.columns[n].ty {
      assert t.lookup[t.columns[c].ty] == c && t.lookup[t.columns[n].ty] == n;
    }
  }

  lemma {:induction false} FirstTypesSize(t: TableData, n: nat)
    requires LookupOk(t) && n <= |t.columns|
    ensures |FirstTypes(t, n)| == n
  {
    if n > 0 {
      FirstTypesSize(t, n - 1);
      NextTypeIsNew(t, n - 1);
    }
  }

  /** The components stored in one row. */
  function RowOf(t: TableData, row: nat): map<nat, int> {
    map ty | ty in t.lookup && t.lookup[ty] < |t.columns| && row < |t.columns[t.lookup[ty]].items|
      :: t.columns[t.lookup[ty]].items[row]
  }

  /** One row of a table seen from outside: an entity and its components. */
  datatype Record = Record(entity: Entity, components: map<nat, int>)

  function Records(t: TableData): (r: seq<Record>)
    ensures |r| == |t.entities|
    ensures forall k :: 0 <= k < |r| ==> r[k] == Record(t.entities[k], RowOf(t, k))
  {
    seq(|t.entities|, k requires 0 <= k < |t.entities| => Record(t.entities[k], RowOf(t, k)))
  }

  predicate HasRow(t: TableData, row: nat) {
    forall c :: 0 <= c < |t.columns| ==> row < |t.columns[c].items|
  }

  /** The same row as a bundle, column by column. */
  function RowBundle(t: TableData, row: nat): (b: Bundle)
    requires HasRow(t, row)
    ensures |b| == |t.columns|
    ensures forall c :: 0 <= c < |b| ==> b[c] == Component(t.columns[c].ty, t.columns[c].items[row])
  {
    seq(|t.columns|, c requires 0 <= c < |t.columns| => Component(t.columns[c].ty, t.columns[c].items[row]))
  }

  // ---------------------------------------------------------------- pushing a bundle

  /** Every component of the bundle has a column in the table. */
  predicate Fits(t: TableData, bundle: Bundle) {
    forall k :: 0 <= k < |bundle| ==> bundle[k].ty in t.lookup
  }

  /** The bundle has exactly one component for every column of the table. */
  predicate Full(t: TableData, bundle: Bundle) {
    Fits(t, bundle) && DistinctTypes(bundle) && TypesOf(bundle) == t.lookup.Keys
  }

  lemma {:induction false} TypesFit(t: TableData, bundle: Bundle)
    requires TypesOf(bundle) <= t.lookup.Keys
    ensures Fits(t, bundle)
  {
    if bundle != [] { TypesFit(t, bundle[..|bundle| - 1]); }
  }

  /** One component is pushed on the column of its type. */
  function PushOne(t: TableData, v: Component): TableData
    requires v.ty in t.lookup && t.lookup[v.ty] < |t.columns|
  {
    var c := t.lookup[v.ty];
    t.(columns := t.columns[c := t.columns[c].(items := t.columns[c].items + [v.data])])
  }

  /** `insert_into`: every component of the bundle is pushed on its column. */
  function InsertInto(t: TableData, bundle: Bundle): (r: TableData)
    requires LookupOk(t) && Fits(t, bundle)
    ensures LookupOk(r) && r == t.(columns := r.columns) && |r.columns| == |t.columns|
    ensures forall c :: 0 <= c < |t.columns| ==> r.columns[c].ty == t.columns[c].ty
  {
    if bundle == [] then t
    else
      PushOne(InsertInto(t, bundle[..|bundle| - 1]), bundle[|bundle| - 1])
  }

  /** One more component of the bundle is one more push. */
  lemma BundleStep(t: TableData, bundle: Bundle, k: nat)
    requires LookupOk(t) && Fits(t, bundle) && k < |bundle|
    ensures Fits(t, bundle[..k]) && Fits(t, bundle[..k + 1])
    ensures bundle[k].ty in t.lookup && t.lookup[bundle[k].ty] < |t.columns|
    ensures var c, m := t.lookup[bundle[k].ty], InsertInto(t, bundle[..k]).columns;
      && |m| == |t.columns| && m[c].ty == bundle[k].ty
      && InsertInto(t, bundle[..k + 1]).columns == m[c := m[c].(items := m[c].items + [bundle[k].data])]
  {
    assert bundle[..k + 1][..k] == bundle[..k];
  }

  /** Each column grows by the bundle's value of its type, if there is one. */
  lemma {:induction false} InsertIntoItems(t: TableData, bundle: Bundle, c: nat)
    requires LookupOk(t) && DistinctTypes(bundle) && Fits(t, bundle) && c < |t.columns|
    ensures InsertInto(t, bundle).columns[c].items ==
      t.columns[c].items + if t.columns[c].ty in AsMap(bundle) then [AsMap(bundle)[t.columns[c].ty]] else []
  {
    if bundle != [] {
      var init, last := bundle[..|bundle| - 1], bundle[|bundle| - 1];
      InsertIntoItems(t, init, c);
      if t.columns[c].ty == last.ty {
        assert InsertInto(t, init).lookup[last.ty] == c;
      }
    }
  }

  lemma TypesConcat(first: Bundle, second: Bundle)
    ensures TypesOf(first + second) == TypesOf(first) + TypesOf(second)
  {
    AsMapConcat(first, second);
  }

  /** Pushing two bundles one after the other is pushing them as one. */
  lemma {:induction false} InsertIntoConcat(t: TableData, first: Bundle, second: Bundle)
    requires LookupOk(t) && Fits(t, first) && Fits(t, second) && Fits(t, first + second)
    ensures InsertInto(InsertInto(t, first), second) == InsertInto(t, first + second)
  {
    if second == [] {
      assert first + second == first;
    } else {
      var init, last := second[..|second| - 1], second[|second| - 1];
      assert Fits(t, init);
      ConcatLast(first, second);
      InsertIntoConcat(t, first, init);
      assert InsertInto(InsertInto(t, first), second) == PushOne(InsertInto(InsertInto(t, first), init), last);
      assert InsertInto(t, first + second) == PushOne(InsertInto(t, first + init), last);
    }
  }

  lemma ConcatLast(first: Bundle, second: Bundle)
    requires second != []
    ensures (first + second)[..|first + second| - 1] == first + second[..|second| - 1]
    ensures (first + second)[|first + second| - 1] == second[|second| - 1]
  {
  }

  /** A new row: the entity is appended and its bundle pushed. */
  function AppendRow(t: TableData, e: Entity, bundle: Bundle): TableData
    requires LookupOk(t) && Fits(t, bundle)
  {
    InsertInto(t.(entities := t.entities + [e], entityLookup := t.entityLookup[e := |t.entities|]), bundle)
  }

  lemma AppendRowItems(t: TableData, e: Entity, bundle: Bundle, c: nat)
    requires LookupOk(t) && Full(t, bundle) && c < |t.columns|
    ensures t.columns[c].ty in AsMap(bundle)
    ensures AppendRow(t, e, bundle).columns[c].items == t.columns[c].items + [AsMap(bundle)[t.columns[c].ty]]
  {
    InsertIntoItems(t.(entities := t.entities + [e], entityLookup := t.entityLookup[e := |t.entities|]), bundle, c);
  }

  /** Appending a full row keeps the table aligned. */
  lemma AppendRowOk(t: TableData, e: Entity, bundle: Bundle)
    requires TableOk(t) && Full(t, bundle)
    requires e !in t.entities
    ensures var r := AppendRow(t, e, bundle);
      TableOk(r) && r.lookup == t.lookup && r.signature == t.signature
  {
    var r := AppendRow(t, e, bundle);
    forall c | 0 <= c < |r.columns| ensures |r.columns[c].items| == |r.entities| { AppendRowItems(t, e, bundle, c); }
    forall k | 0 <= k < |r.entities| ensures r.entities[k] in r.entityLookup && r.entityLookup[r.entities[k]] == k {
      if k < |t.entities| { assert r.entities[k] == t.entities[k] && t.entities[k] in t.entities; }
    }
  }

  lemma RowOfKeys(t: TableData, row: nat)
    requires LookupOk(t) && HasRow(t, row)
    ensures RowOf(t, row).Keys == t.lookup.Keys
  {
  }

  lemma AppendRowHas(t: TableData, e: Entity, bundle: Bundle, k: nat)
    requires TableOk(t) && Full(t, bundle) && k <= |t.entities|
    ensures var r := AppendRow(t, e, bundle); r.lookup == t.lookup && LookupOk(r) && HasRow(r, k)
  {
    var r := AppendRow(t, e, bundle);
    forall c | 0 <= c < |r.columns| ensures k < |r.columns[c].items| { AppendRowItems(t, e, bundle, c); }
  }

  lemma AppendRowCell(t: TableData, e: Entity, bundle: Bundle, k: nat, ty: nat)
    requires TableOk(t) && Full(t, bundle) && k <= |t.entities| && ty in t.lookup
    ensures ty in RowOf(AppendRow(t, e, bundle), k) && (k < |t.entities| ==> ty in RowOf(t, k)) && ty in AsMap(bundle)
    ensures RowOf(AppendRow(t, e, bundle), k)[ty] == if k < |t.entities| then RowOf(t, k)[ty] else AsMap(bundle)[ty]
  {
    AppendRowItems(t, e, bundle, t.lookup[ty]);
  }

  lemma SameMap<K, V>(a: map<K, V>, b: map<K, V>)
    requires a.Keys == b.Keys && forall k :: k in a.Keys ==> a[k] == b[k]
    ensures a == b
  {
  }

  lemma AppendRowOld(t: TableData, e: Entity, bundle: Bundle, k: nat)
    requires TableOk(t) && Full(t, bundle) && k < |t.entities|
    ensures RowOf(AppendRow(t, e, bundle), k) == RowOf(t, k)
  {
    var before, after := RowOf(t, k), RowOf(AppendRow(t, e, bundle), k);
    AppendRowHas(t, e, bundle, k);
    RowOfKeys(AppendRow(t, e, bundle), k);
    RowOfKeys(t, k);
    forall ty | ty in after.Keys ensures after[ty] == before[ty] { AppendRowCell(t, e, bundle, k, ty); }
    SameMap(after, before);
  }

  lemma AppendRowNew(t: TableData, e: Entity, bundle: Bundle)
    requires TableOk(t) && Full(t, bundle)
    ensures RowOf(AppendRow(t, e, bundle), |t.entities|) == AsMap(bundle)
  {
    var added := RowOf(AppendRow(t, e, bundle), |t.entities|);
    AppendRowHas(t, e, bundle, |t.entities|);
    RowOfKeys(AppendRow(t, e, bundle), |t.entities|);
    forall ty | ty in added.Keys ensures added[ty] == AsMap(bundle)[ty] {
      AppendRowCell(t, e, bundle, |t.entities|, ty);
    }
    SameMap(added, AsMap(bundle));
  }

  /** A table is a list of records to which appending adds one at the end. */
  lemma AppendRowRecords(t: TableData, e: Entity, bundle: Bundle)
    requires TableOk(t) && Full(t, bundle)
    ensures Records(AppendRow(t, e, bundle)) == Records(t) + [Record(e, AsMap(bundle))]
  {
    forall k | 0 <= k <= |t.entities|
      ensures RowOf(AppendRow(t, e, bundle), k) == if k < |t.entities| then RowOf(t, k) else AsMap(bundle)
    {
      if k < |t.entities| { AppendRowOld(t, e, bundle, k); } else { AppendRowNew(t, e, bundle); }
    }
  }

  // ---------------------------------------------------------------- new tables

  function AddColumn(t: TableData, ty: nat): TableData {
    t.(lookup := t.lookup[ty := |t.columns|], columns := t.columns + [ColumnData(ty, [])])
  }

  /** Columns and lookup for the bundle's types, after emptied copies of the columns of `base`. */
  function WithColumns(signature: Words, base: TableData, bundle: Bundle): (t: TableData)
    ensures t.signature == signature
  {
    if bundle == [] then
      TableData(signature, [], map[], base.lookup,
        seq(|base.columns|, c requires 0 <= c < |base.columns| => base.columns[c].(items := [])))
    else
      AddColumn(WithColumns(signature, base, bundle[..|bundle| - 1]), bundle[|bundle| - 1].ty)
  }

  /** `new_table`. */
  function NewTable(signature: Words, bundle: Bundle): TableData {
    WithColumns(signature, TableData(signature, [], map[], map[], []), bundle)
  }

  /** `new_joined_table`: `self_signature` is extended by the signature of `base`. */
  function NewJoinedTable(base: TableData, signature: Words, bundle: Bundle): TableData {
    WithColumns(Union(signature, base.signature), base, bundle)
  }

  /** An empty table under construction: its columns and lookup agree so far. */
  ghost predicate Blank(t: TableData) {
    && t.entities == [] && t.entityLookup == map[]
    && (if t.columns == [] then t.lookup == map[] else LookupOk(t))
    && (forall c :: 0 <= c < |t.columns| ==> t.columns[c].items == [])
  }

  lemma AddColumnBlank(t: TableData, ty: nat)
    requires Blank(t) && ty !in t.lookup
    ensures Blank(AddColumn(t, ty)) && AddColumn(t, ty).lookup.Keys == t.lookup.Keys + {ty}
  {
  }

  lemma {:induction false} WithColumnsOk(signature: Words, base: TableData, bundle: Bundle)
    requires if base.columns == [] then base.lookup == map[] else LookupOk(base)
    requires DistinctTypes(bundle) && TypesOf(bundle) !! base.lookup.Keys
    ensures var t := WithColumns(signature, base, bundle);
      && Blank(t) && t.signature == signature
      && t.lookup.Keys == base.lookup.Keys + TypesOf(bundle)
      && |t.columns| == |base.columns| + |bundle|
      && (base.columns != [] ==> t.columns[0].ty == base.columns[0].ty)
  {
    if bundle != [] {
      var init, last := bundle[..|bundle| - 1], bundle[|bundle| - 1];
      assert TypesOf(bundle) == TypesOf(init) + {last.ty};
      WithColumnsOk(signature, base, init);
      AddColumnBlank(WithColumns(signature, base, init), last.ty);
    }
  }

  /** A table just built for the right signature is in order. */
  lemma BlankIsOk(t: TableData)
    requires Blank(t) && t.columns != []
    requires Normal(t.signature) && forall ty: nat :: Has(t.signature, ty) <==> ty in t.lookup
    ensures TableOk(t)
  {
  }

  /** A new table for a bundle is in order and has the bundle's columns. */
  lemma NewTableOk(bundle: Bundle)
    requires bundle != [] && DistinctTypes(bundle)
    ensures var t := NewTable(SigOf(bundle), bundle);
      TableOk(t) && Blank(t) && t.signature == SigOf(bundle) && t.lookup.Keys == TypesOf(bundle)
  {
    var sig := SigOf(bundle);
    SigOfMeaning(bundle);
    WithColumnsOk(sig, TableData(sig, [], map[], map[], []), bundle);
    BlankIsOk(NewTable(sig, bundle));
  }

  /** The columns of a new table are in the order of the bundle. */
  lemma {:induction false} NewTableOrder(signature: Words, bundle: Bundle)
    ensures var columns := NewTable(signature, bundle).columns;
      |columns| == |bundle| && forall c :: 0 <= c < |columns| ==> columns[c].ty == bundle[c].ty
  {
    if bundle != [] {
      var init := bundle[..|bundle| - 1];
      NewTableOrder(signature, init);
      assert NewTable(signature, bundle) == AddColumn(NewTable(signature, init), bundle[|bundle| - 1].ty);
    }
  }

  function CombinedSignature(source: TableData, bundle: Bundle): Words {
    Union(SigOf(bundle), source.signature)
  }

  lemma CombinedMeaning(source: TableData, bundle: Bundle)
    requires TableOk(source)
    ensures Normal(CombinedSignature(source, bundle))
    ensures forall ty: nat :: Has(CombinedSignature(source, bundle), ty) <==> ty in source.lookup.Keys + TypesOf(bundle)
  {
    SigOfMeaning(bundle);
    UnionNormal(SigOf(bundle), source.signature);
    forall ty: nat ensures Has(CombinedSignature(source, bundle), ty) <==> ty in source.lookup.Keys + TypesOf(bundle) {
      UnionHas(SigOf(bundle), source.signature, ty);
    }
  }

  /** A joined table is in order, has the columns of both, and starts with those of the old table. */
  lemma NewJoinedTableOk(source: TableData, bundle: Bundle)
    requires TableOk(source) && DistinctTypes(bundle) && TypesOf(bundle) !! source.lookup.Keys
    ensures var t := NewJoinedTable(source, SigOf(bundle), bundle);
      && TableOk(t) && Blank(t) && t.signature == CombinedSignature(source, bundle)
      && t.lookup.Keys == source.lookup.Keys + TypesOf(bundle)
      && t.columns[0].ty == source.columns[0].ty
  {
    CombinedMeaning(source, bundle);
    WithColumnsOk(CombinedSignature(source, bundle), source, bundle);
    BlankIsOk(NewJoinedTable(source, SigOf(bundle), bundle));
  }

  /** The columns of a table are those of its signature. */
  lemma ColumnsOfSignature(t: TableData, types: set<nat>)
    requires TableOk(t) && forall ty: nat :: Has(t.signature, ty) <==> ty in types
    ensures t.lookup.Keys == types
  {
  }

  // ---------------------------------------------------------------- removing a row

  /** `Table::remove` on the table's own fields. */
  function RemoveRow(t: TableData, e: Entity): TableData
    requires TableOk(t) && (e in t.entityLookup ==> t.entityLookup[e] < |t.entities|)
  {
    if e !in t.entityLookup then t
    else
      var row := t.entityLookup[e];
      var lookup := t.entityLookup - {e};
      t.(entityLookup := if |t.entities| > 1 then lookup[t.entities[|t.entities| - 1] := row] else lookup,
         entities := SwapRemoved(t.entities, row),
         columns := seq(|t.columns|, c requires 0 <= c < |t.columns| =>
           t.columns[c].(items := SwapRemoved(t.columns[c].items, row))))
  }

  /** Removing the last of several entities leaves its key behind, for a row that is not there any more. */
  lemma StaleKeyIff(t: TableData, e: Entity, row: nat)
    requires TableOk(t) && e in t.entityLookup && t.entityLookup[e] == row < |t.entities| && t.entities[row] == e
    ensures var after := RemoveRow(t, e);
      && |after.entities| == |t.entities| - 1
      && (e in after.entityLookup <==> |t.entities| > 1 && row == |t.entities| - 1)
      && (e in after.entityLookup ==> after.entityLookup[e] == |after.entities|)
  {
  }

  /** What removing an entity drops: its row if the caller asks for it, and nothing otherwise. */
  function RemoveDrops(t: TableData, e: Entity, shouldDrop: bool): Bundle
    requires TableOk(t) && (e in t.entityLookup ==> t.entityLookup[e] < |t.entities|)
  {
    if e in t.entityLookup && shouldDrop then RowBundle(t, t.entityLookup[e]) else []
  }

  /** Removing an entity keeps the table aligned. */
  lemma RemoveRowOk(t: TableData, e: Entity, row: nat)
    requires TableOk(t) && row < |t.entities| && t.entities[row] == e
    ensures TableOk(RemoveRow(t, e)) && RemoveRow(t, e).signature == t.signature
  {
  }

  lemma RemoveRowCell(t: TableData, e: Entity, row: nat, k: nat, ty: nat)
    requires TableOk(t) && row < |t.entities| && t.entities[row] == e && k < |t.entities| - 1 && ty in t.lookup
    ensures var k' := if k == row then |t.entities| - 1 else k;
      ty in RowOf(t, k') && ty in RowOf(RemoveRow(t, e), k) && RowOf(RemoveRow(t, e), k)[ty] == RowOf(t, k')[ty]
  {
    assert t.entityLookup[e] == row;
    assert RemoveRow(t, e).columns[t.lookup[ty]].items == SwapRemoved(t.columns[t.lookup[ty]].items, row);
  }

  lemma RemoveRowAt(t: TableData, e: Entity, row: nat, k: nat)
    requires TableOk(t) && row < |t.entities| && t.entities[row] == e && k < |t.entities| - 1
    ensures RowOf(RemoveRow(t, e), k) == RowOf(t, if k == row then |t.entities| - 1 else k)
  {
    var before, after := RowOf(t, if k == row then |t.entities| - 1 else k), RowOf(RemoveRow(t, e), k);
    RemoveRowOk(t, e, row);
    RowOfKeys(t, if k == row then |t.entities| - 1 else k);
    RowOfKeys(RemoveRow(t, e), k);
    forall ty | ty in after.Keys ensures after[ty] == before[ty] { RemoveRowCell(t, e, row, k, ty); }
    SameMap(after, before);
  }

  /** The list of records is swap-removed as one, although every column is swap-removed on its own. */
  lemma RemoveRowRecords(t: TableData, e: Entity, row: nat)
    requires TableOk(t) && row < |t.entities| && t.entities[row] == e
    ensures Records(RemoveRow(t, e)) == SwapRemoved(Records(t), row)
  {
    assert t.entityLookup[e] == row;
    forall k | 0 <= k < |t.entities| - 1
      ensures RowOf(RemoveRow(t, e), k) == RowOf(t, if k == row then |t.entities| - 1 else k)
    {
      RemoveRowAt(t, e, row, k);
    }
  }

  // ---------------------------------------------------------------- values stored

  function Tagged(ty: nat, items: seq<int>): (r: seq<Component>)
    ensures |r| == |items| && forall k :: 0 <= k < |r| ==> r[k] == Component(ty, items[k])
  {
    seq(|items|, k requires 0 <= k < |items| => Component(ty, items[k]))
  }

  function ColumnValues(c: ColumnData): multiset<Component> {
    multiset(Tagged(c.ty, c.items))
  }

  function ColumnsValues(columns: seq<ColumnData>): multiset<Component> {
    if columns == [] then multiset{}
    else ColumnsValues(columns[..|columns| - 1]) + ColumnValues(columns[|columns| - 1])
  }

  /** All component values in a table. */
  function Values(t: TableData): multiset<Component> {
    ColumnsValues(t.columns)
  }

  lemma Regroup<T>(a: multiset<T>, b: multiset<T>, c: multiset<T>, d: multiset<T>, x: multiset<T>)
    requires a + b == c + d
    ensures (a + x) + b == (c + x) + d
  {
    assert (a + x) + b == (a + b) + x;
    assert (c + x) + d == (c + d) + x;
  }

  lemma Cancel<T>(a: multiset<T>, x: multiset<T>, b: multiset<T>, y: multiset<T>)
    requires a + x == b + (x + y)
    ensures a == b + y
  {
    assert (a + x) - x == a;
    assert (b + (x + y)) - x == b + y;
  }

  lemma {:induction false} ColumnsValuesUpdate(columns: seq<ColumnData>, c: nat, col: ColumnData)
    requires c < |columns|
    ensures ColumnsValues(columns[c := col]) + ColumnValues(columns[c]) == ColumnsValues(columns) + ColumnValues(col)
  {
    var n := |columns| - 1;
    var after := columns[c := col];
    if c < n {
      assert after[..n] == columns[..n][c := col] && after[n] == columns[n];
      ColumnsValuesUpdate(columns[..n], c, col);
      Regroup(
        ColumnsValues(after[..n]), ColumnValues(columns[c]), ColumnsValues(columns[..n]), ColumnValues(col),
        ColumnValues(columns[n]));
    } else {
      assert after[..n] == columns[..n];
    }
  }

  lemma PushOneValues(t: TableData, v: Component)
    requires LookupOk(t) && v.ty in t.lookup
    ensures Values(PushOne(t, v)) == Values(t) + multiset{v}
  {
    var c := t.lookup[v.ty];
    var col := t.columns[c];
    var col' := col.(items := col.items + [v.data]);
    assert Tagged(col.ty, col'.items) == Tagged(col.ty, col.items) + [v];
    ColumnsValuesUpdate(t.columns, c, col');
    Cancel(Values(PushOne(t, v)), ColumnValues(col), Values(t), multiset{v});
  }

  lemma PushLastValues(t: TableData, init: Bundle, last: Component)
    requires LookupOk(t) && Fits(t, init) && last.ty in t.lookup
    requires Values(InsertInto(t, init)) == Values(t) + multiset(init)
    ensures Values(PushOne(InsertInto(t, init), last)) == Values(t) + multiset(init + [last])
  {
    PushOneValues(InsertInto(t, init), last);
    assert multiset(init + [last]) == multiset(init) + multiset{last};
  }

  /** Pushing a bundle adds exactly its values. */
  lemma {:induction false} InsertIntoValues(t: TableData, bundle: Bundle)
    requires LookupOk(t) && Fits(t, bundle)
    ensures Values(InsertInto(t, bundle)) == Values(t) + multiset(bundle)
  {
    if bundle != [] {
      var init, last := bundle[..|bundle| - 1], bundle[|bundle| - 1];
      InsertIntoValues(t, init);
      PushLastValues(t, init, last);
      assert bundle == init + [last];
    }
  }

  lemma SwapRemovedMultiset<T>(s: seq<T>, row: nat)
    requires row < |s|
    ensures multiset(SwapRemoved(s, row)) + multiset{s[row]} == multiset(s)
  {
    var last := |s| - 1;
    assert s == s[..last] + [s[last]];
    if row < last {
      assert SwapRemoved(s, row) == s[..last][row := s[last]];
    } else {
      assert SwapRemoved(s, row) == s[..last];
    }
  }

  lemma SwapRemovedColumn(c: ColumnData, row: nat)
    requires row < |c.items|
    ensures ColumnValues(c.(items := SwapRemoved(c.items, row))) + multiset{Component(c.ty, c.items[row])} ==
      ColumnValues(c)
  {
    SwapRemovedMultiset(Tagged(c.ty, c.items), row);
    assert Tagged(c.ty, SwapRemoved(c.items, row)) == SwapRemoved(Tagged(c.ty, c.items), row);
  }

  lemma Join<T>(a: multiset<T>, x: multiset<T>, b: multiset<T>, y: multiset<T>, a': multiset<T>, b': multiset<T>)
    requires a + x == b && a' + y == b'
    ensures (a + a') + (x + y) == b + b'
  {
  }

  lemma {:induction false} SwapRemovedColumns(
      columns: seq<ColumnData>, after: seq<ColumnData>, bundle: Bundle, row: nat)
    requires |columns| == |after| == |bundle|
    requires forall c :: 0 <= c < |columns| ==> row < |columns[c].items|
    requires forall c :: 0 <= c < |columns| ==> after[c] == columns[c].(items := SwapRemoved(columns[c].items, row))
    requires forall c :: 0 <= c < |columns| ==> bundle[c] == Component(columns[c].ty, columns[c].items[row])
    ensures ColumnsValues(after) + multiset(bundle) == ColumnsValues(columns)
  {
    if columns != [] {
      var n := |columns| - 1;
      SwapRemovedColumns(columns[..n], after[..n], bundle[..n], row);
      SwapRemovedColumn(columns[n], row);
      assert bundle == bundle[..n] + [bundle[n]];
      Join(ColumnsValues(after[..n]), multiset(bundle[..n]), ColumnsValues(columns[..n]),
        multiset{bundle[n]}, ColumnValues(after[n]), ColumnValues(columns[n]));
    }
  }

  /** Removing an entity takes exactly its row of values away. */
  lemma RemoveRowValues(t: TableData, e: Entity, row: nat)
    requires TableOk(t) && row < |t.entities| && t.entities[row] == e
    ensures Values(RemoveRow(t, e)) + multiset(RowBundle(t, row)) == Values(t)
  {
    SwapRemovedColumns(t.columns, RemoveRow(t, e).columns, RowBundle(t, row), row);
  }

  lemma RowBundleDistinct(t: TableData, row: nat)
    requires LookupOk(t) && HasRow(t, row)
    ensures DistinctTypes(RowBundle(t, row))
  {
    var b := RowBundle(t, row);
    forall i, j | 0 <= i < j < |b| ensures b[i].ty != b[j].ty {
      assert t.lookup[t.columns[i].ty] == i && t.lookup[t.columns[j].ty] == j;
    }
    DistinctByPosition(b);
  }

  lemma RowBundleEntry(t: TableData, row: nat, ty: nat)
    requires LookupOk(t) && HasRow(t, row)
    ensures ty in AsMap(RowBundle(t, row)) <==> ty in t.lookup
    ensures ty in t.lookup ==> ty in RowOf(t, row) && AsMap(RowBundle(t, row))[ty] == RowOf(t, row)[ty]
  {
    RowBundleDistinct(t, row);
    if ty in t.lookup {
      AsMapAt(RowBundle(t, row), t.lookup[ty]);
    } else if ty in AsMap(RowBundle(t, row)) {
      var c := AsMapOnly(RowBundle(t, row), ty);
    }
  }

  /** A row as a bundle and as a map is the same thing. */
  lemma RowBundleIsRow(t: TableData, row: nat)
    requires TableOk(t) && row < |t.entities|
    ensures DistinctTypes(RowBundle(t, row)) && TypesOf(RowBundle(t, row)) == t.lookup.Keys
    ensures AsMap(RowBundle(t, row)) == RowOf(t, row)
  {
    RowBundleDistinct(t, row);
    forall ty: nat
      ensures ty in AsMap(RowBundle(t, row)) <==> ty in t.lookup
      ensures ty in t.lookup ==> ty in RowOf(t, row) && AsMap(RowBundle(t, row))[ty] == RowOf(t, row)[ty]
    {
      RowBundleEntry(t, row, ty);
    }
  }

  /** Two rows hold the same values exactly when they show the same components. */
  lemma SameRowIff(t: TableData, r: nat, r': nat)
    requires TableOk(t) && r < |t.entities| && r' < |t.entities|
    ensures multiset(RowBundle(t, r')) == multiset(RowBundle(t, r)) <==> RowOf(t, r) == RowOf(t, r')
  {
    var b, b' := RowBundle(t, r), RowBundle(t, r');
    if multiset(b') == multiset(b) {
      forall c | 0 <= c < |b| ensures b[c] == b'[c] { SameValueSameColumn(t, r, r', c); }
      assert b == b';
      RowBundleIsRow(t, r);
      RowBundleIsRow(t, r');
    }
    if RowOf(t, r) == RowOf(t, r') {
      forall c | 0 <= c < |b| ensures b[c] == b'[c] {
        assert RowOf(t, r)[t.columns[c].ty] == RowOf(t, r')[t.columns[c].ty];
      }
      assert b == b';
    }
  }

  lemma SameValueSameColumn(t: TableData, r: nat, r': nat, c: nat)
    requires LookupOk(t) && HasRow(t, r) && HasRow(t, r') && c < |t.columns|
    requires multiset(RowBundle(t, r')) == multiset(RowBundle(t, r))
    ensures RowBundle(t, r)[c] == RowBundle(t, r')[c]
  {
    var b, b' := RowBundle(t, r), RowBundle(t, r');
    assert b[c] in multiset(b');
    var d :| 0 <= d < |b'| && b'[d] == b[c];
    assert t.columns[d].ty == t.columns[c].ty && t.lookup[t.columns[d].ty] == d;
  }
}
