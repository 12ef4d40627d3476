/** A column: a growable buffer of components of one type. */
module Columns {
  import opened Tables

  /** The value of a zero-sized component. */
  const UNIT: int := 0

  /** How many slots a full buffer of `cap` slots gets on top. */
  function Growth(cap: nat): nat {
    if cap < 4 then 4 else cap
  }

  /** The capacity of a column that has only ever been pushed to, `n` times. */
  function CapacityAfter(n: nat): nat {
    if n == 0 then 0
    else
      var before := CapacityAfter(n - 1);
      if n - 1 < before then before else before + Growth(before)
  }

  function Doubled(k: nat): nat {
    if k == 0 then 4 else 2 * Doubled(k - 1)
  }

  /** After at least one push it is the least of 4, 8, 16, ... that is enough. */
  lemma {:induction false} CapacityIsLeast(n: nat) returns (k: nat)
    requires n > 0
    ensures CapacityAfter(n) == Doubled(k) >= n
    ensures k > 0 ==> Doubled(k - 1) < n
  {
    if n == 1 {
      assert CapacityAfter(0) == 0;
      k := 0;
    } else {
      k := CapacityIsLeast(n - 1);
      AtLeastFour(k);
      if CapacityAfter(n - 1) == n - 1 { k := k + 1; }
    }
  }

  lemma {:induction false} AtLeastFour(k: nat)
    ensures Doubled(k) >= 4
  {
    if k > 0 { AtLeastFour(k - 1); }
  }

  class Column {
    const ty: nat
    /** Zero-sized components need no buffer. */
    const zst: bool
    var len: nat
    var data: array<int>

    ghost predicate Valid()
      reads this
    {
      zst || len <= data.Length
    }

    /** The components in row order. */
    function Contents(): (s: seq<int>)
      requires Valid()
      reads this, data
      ensures |s| == len
    {
      if zst then seq(len, _ => UNIT) else data[..len]
    }

    function Model(): ColumnData
      requires Valid()
      reads this, data
    {
      ColumnData(ty, Contents())
    }

    constructor (ty: nat, zst: bool)
      ensures Valid() && Model() == ColumnData(ty, []) && this.ty == ty && this.zst == zst
      ensures fresh(data) && data.Length == 0
    {
      this.ty, this.zst, len := ty, zst, 0;
      data := new int[0];
    }

    /** An empty column for the same components. */
    method CloneEmpty() returns (c: Column)
      requires Valid()
      ensures fresh(c) && fresh(c.data) && c.Valid() && c.Model() == Model().(items := []) && c.zst == zst
    {
      c := new Column(ty, zst);
    }

    /** Makes room for `n` more components without touching those that are there. */
    method Reserve(n: nat)
      requires Valid()
      modifies this`data
      ensures Valid() && Model() == old(Model()) && (data == old(data) || fresh(data))
      ensures !zst ==> data.Length == old(data.Length) + n
    {
      if n == 0 || zst {
        return;
      }
      var grown := new int[data.Length + n];
      for k := 0 to len
        invariant data == old(data) && data[..] == old(data[..])
        invariant forall m :: 0 <= m < k ==> grown[m] == data[m]
      {
        grown[k] := data[k];
      }
      assert grown[..len] == data[..len];
      data := grown;
    }

    /**
     The component goes to the end. A full buffer doubles, starting from 4 slots. A zero-sized component is counted
     but not moved into the column, so it is dropped when the call returns.
     */
    method Push(value: int) returns (dropped: seq<int>)
      requires Valid() && (zst ==> value == UNIT)
      modifies this, data
      ensures Valid() && Model() == old(Model()).(items := old(Contents()) + [value])
      ensures data == old(data) || fresh(data)
      ensures !zst ==>
        data.Length == old(data.Length) + if old(len) < old(data.Length) then 0 else Growth(old(data.Length))
      ensures dropped == if zst then [value] else []
    {
      dropped := [];
      if zst {
        len := len + 1;
        return [value];
      }
      if data.Length <= len {
        Reserve(Growth(data.Length));
      }
      data[len] := value;
      len := len + 1;
      assert data[..len] == data[..len - 1] + [value];
      assert data[..len - 1] == old(Contents());
    }

    /** `push_from_ptr`: the bytes of a component go to the end. There is no value that could be dropped. */
    method PushCopy(value: int)
      requires Valid() && (zst ==> value == UNIT)
      modifies this, data
      ensures Valid() && Model() == old(Model()).(items := old(Contents()) + [value])
      ensures data == old(data) || fresh(data)
    {
      if zst {
        len := len + 1;
        return;
      }
      var _ := Push(value);
    }

    /** `copy_component`: the component in `row` is pushed on `other` and stays where it is. */
    method CopyComponent(other: Column, row: nat)
      requires Valid() && other.Valid() && row < len
      requires other != this && other.data != data && other.ty == ty && other.zst == zst
      modifies other, other.data
      ensures other.Valid() && other.Model() == old(other.Model()).(items := old(other.Contents()) + [Contents()[row]])
      ensures other.data == old(other.data) || fresh(other.data)
    {
      other.PushCopy(if zst then UNIT else data[row]);
    }

    /** The component in row `index` leaves, and is dropped if it should be; the last one takes its place. */
    method SwapRemove(index: nat, shouldDrop: bool) returns (dropped: seq<int>)
      requires Valid() && index < len
      modifies this`len, data
      ensures Valid() && Model() == old(Model()).(items := SwapRemoved(old(Contents()), index))
      ensures dropped == if shouldDrop then [old(Contents())[index]] else []
    {
      dropped := if shouldDrop then [if zst then UNIT else data[index]] else [];
      if index != len - 1 && !zst {
        data[index] := data[len - 1];
      }
      len := len - 1;
      assert Contents() == SwapRemoved(old(Contents()), index);
    }
  }

  /** A new column with these components, pushed one by one. */
  method Filled(ty: nat, zst: bool, values: seq<int>) returns (c: Column)
    requires zst ==> forall k :: 0 <= k < |values| ==> values[k] == UNIT
    ensures fresh(c) && fresh(c.data) && c.Valid() && c.Model() == ColumnData(ty, values)
    ensures !zst ==> c.data.Length == CapacityAfter(|values|)
  {
    c := new Column(ty, zst);
    for k := 0 to |values|
      invariant fresh(c) && fresh(c.data) && c.Valid() && c.zst == zst && c.Model() == ColumnData(ty, values[..k])
      invariant !zst ==> c.data.Length == CapacityAfter(k)
    {
      var _ := c.Push(values[k]);
      assert values[..k + 1] == values[..k] + [values[k]];
    }
    assert values[..|values|] == values;
  }

  /** A component that is pushed and then removed is dropped once if it has a size, and twice if it has none. */
  method PushAndRemove(c: Column, value: int) returns (dropped: seq<int>)
    requires c.Valid() && (c.zst ==> value == UNIT)
    modifies c, c.data
    ensures c.Valid() && c.Model() == old(c.Model())
    ensures dropped == if c.zst then [value, value] else [value]
  {
    var pushed := c.Push(value);
    var removed := c.SwapRemove(c.len - 1, true);
    dropped := pushed + removed;
  }
}
