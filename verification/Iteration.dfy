/**
 Iterating over the cached tables of a query, forwards across tables and backwards within one.

 A table is known here by its number of rows, a row by the position of its table in the cache and its
 offset. The base pointers of the source are such an offset.
 */
module Iteration {
  import opened Widths
  import opened EntityRegistry

  datatype Row = Row(table: nat, offset: nat)

  /** The fields of `QueryIter`: `cursor` is the next table of the cache slice, the rest is the current table. */
  datatype Iter = Iter(remaining: nat, cursor: nat, table: nat, base: nat)
  {
    function Jump(lens: seq<nat>): (Iter, bool) {
      if cursor < |lens| then (Iter(lens[cursor], cursor + 1, cursor, 0), true) else (this.(remaining := 0), false)
    }

    function Next(lens: seq<nat>): (Iter, Option<Row>) {
      var (at, found) := if remaining == 0 then Jump(lens) else (this, true);
      if !found then (at, None)
      else (at.(remaining := Minus1(at.remaining), base := at.base + 1), Some(Row(at.table, at.base)))
    }

    function NextBack(): (Iter, Option<Row>) {
      if remaining == 0 then (this, None)
      else (this.(remaining := remaining - 1), Some(Row(table, base + remaining - 1)))
    }
  }

  // ---------------------------------------------------------------- the rows there are

  /** `count` rows of a table from an offset on. */
  function RowsFrom(table: nat, base: nat, count: nat): (r: seq<Row>)
    ensures |r| == count && forall k :: 0 <= k < count ==> r[k] == Row(table, base + k)
  {
    seq(count, k requires 0 <= k < count => Row(table, base + k))
  }

  /** The rows of the tables from `cursor` on, table by table. */
  function AllFrom(lens: seq<nat>, cursor: nat): seq<Row>
    decreases |lens| - cursor
  {
    if cursor >= |lens| then [] else RowsFrom(cursor, 0, lens[cursor]) + AllFrom(lens, cursor + 1)
  }

  function AllRows(lens: seq<nat>): seq<Row> {
    AllFrom(lens, 0)
  }

  predicate IsRow(lens: seq<nat>, r: Row) {
    r.table < |lens| && r.offset < lens[r.table]
  }

  lemma {:induction false} AllFromIff(lens: seq<nat>, cursor: nat, r: Row)
    ensures r in AllFrom(lens, cursor) <==> IsRow(lens, r) && cursor <= r.table
    decreases |lens| - cursor
  {
    if cursor < |lens| {
      AllFromIff(lens, cursor + 1, r);
      var here := RowsFrom(cursor, 0, lens[cursor]);
      if IsRow(lens, r) && r.table == cursor {
        assert here[r.offset] == r;
      }
    }
  }

  lemma {:induction false} AllFromDistinct(lens: seq<nat>, cursor: nat, i: nat, j: nat)
    requires i < j < |AllFrom(lens, cursor)|
    ensures AllFrom(lens, cursor)[i] != AllFrom(lens, cursor)[j]
    decreases |lens| - cursor
  {
    var n := lens[cursor];
    var rest := AllFrom(lens, cursor + 1);
    if i >= n {
      AllFromDistinct(lens, cursor + 1, i - n, j - n);
    } else if j >= n {
      AllFromIff(lens, cursor + 1, rest[j - n]);
    }
  }

  // ---------------------------------------------------------------- the iterator

  function FromState(lens: seq<nat>): Iter {
    if lens == [] then Iter(0, 0, 0, 0) else Iter(lens[0], 1, 0, 0)
  }

  /** One row less, in `usize` arithmetic. */
  function Minus1(n: nat): nat {
    if n == 0 then USIZE_MAX else n - 1
  }

  function Sum(lens: seq<nat>, cursor: nat): nat
    decreases |lens| - cursor
  {
    if cursor >= |lens| then 0 else lens[cursor] + Sum(lens, cursor + 1)
  }

  function UnfilteredLen(lens: seq<nat>, it: Iter): nat {
    Sum(lens, it.cursor) + it.remaining
  }

  // ---------------------------------------------------------------- what is still to come

  /** The rows an iterator has not returned yet. */
  function Pending(lens: seq<nat>, it: Iter): seq<Row> {
    RowsFrom(it.table, it.base, it.remaining) + AllFrom(lens, it.cursor)
  }

  /** Every table from `cursor` on has a row. */
  predicate NoEmptyFrom(lens: seq<nat>, cursor: nat) {
    forall t :: cursor <= t < |lens| ==> lens[t] > 0
  }

  /** The length reported is the number of rows to come, whatever the tables are. */
  lemma {:induction false} SumIsLength(lens: seq<nat>, cursor: nat)
    ensures Sum(lens, cursor) == |AllFrom(lens, cursor)|
    decreases |lens| - cursor
  {
    if cursor < |lens| { SumIsLength(lens, cursor + 1); }
  }

  lemma FromStatePending(lens: seq<nat>)
    ensures Pending(lens, FromState(lens)) == AllRows(lens)
  {
  }

  /** `next` returns the first row to come and leaves the others; with none to come it returns `None`. */
  lemma NextTakesFirst(lens: seq<nat>, it: Iter)
    requires NoEmptyFrom(lens, it.cursor)
    ensures var (it', r) := it.Next(lens);
      && NoEmptyFrom(lens, it'.cursor)
      && (r.None? <==> Pending(lens, it) == [])
      && Pending(lens, it) == (if r.Some? then [r.value] else []) + Pending(lens, it')
      && UnfilteredLen(lens, it) == UnfilteredLen(lens, it') + (if r.Some? then 1 else 0)
  {
  }

  /** A single call of `next` does so exactly unless it jumps to an empty table. */
  lemma NextTakesFirstIff(lens: seq<nat>, it: Iter)
    ensures var (it', r) := it.Next(lens);
      Pending(lens, it) == (if r.Some? then [r.value] else []) + Pending(lens, it') <==>
        !(it.remaining == 0 && it.cursor < |lens| && lens[it.cursor] == 0)
  {
    var (it', r) := it.Next(lens);
    if it.remaining == 0 && it.cursor < |lens| && lens[it.cursor] == 0 {
      assert |Pending(lens, it)| < |[r.value] + Pending(lens, it')|;
    } else if it.remaining == 0 && it.cursor >= |lens| {
      assert Pending(lens, it) == [];
    } else {
      var at := if it.remaining == 0 then it.Jump(lens).0 else it;
      assert RowsFrom(at.table, at.base, at.remaining) ==
        [r.value] + RowsFrom(it'.table, it'.base, it'.remaining);
    }
  }

  /** `next_back` returns the last row of the current table; at its end it returns `None`, rows to come or not. */
  lemma NextBackTakesLast(lens: seq<nat>, it: Iter)
    ensures var (it', r) := it.NextBack();
      && it'.cursor == it.cursor && (r.None? <==> it.remaining == 0)
      && multiset(Pending(lens, it)) == multiset(Pending(lens, it')) + multiset(if r.Some? then [r.value] else [])
      && UnfilteredLen(lens, it) == UnfilteredLen(lens, it') + (if r.Some? then 1 else 0)
  {
    var (it', r) := it.NextBack();
    if r.Some? {
      assert RowsFrom(it.table, it.base, it.remaining) == RowsFrom(it'.table, it'.base, it'.remaining) + [r.value];
    }
  }

  // ---------------------------------------------------------------- all runs

  /** One call: `true` is `next`, `false` is `next_back`. The iterator afterwards, and what it gave. */
  function Call(lens: seq<nat>, it: Iter, forward: bool): (Iter, seq<Row>) {
    var (it', r) := if forward then it.Next(lens) else it.NextBack();
    (it', if r.Some? then [r.value] else [])
  }

  function Run(lens: seq<nat>, it: Iter, calls: seq<bool>): (Iter, seq<Row>)
    decreases |calls|
  {
    if calls == [] then (it, [])
    else
      var (mid, first) := Call(lens, it, calls[0]);
      var (it', rest) := Run(lens, mid, calls[1..]);
      (it', first + rest)
  }

  lemma CallSplits(lens: seq<nat>, it: Iter, forward: bool)
    requires NoEmptyFrom(lens, it.cursor)
    ensures var (it', rows) := Call(lens, it, forward);
      && NoEmptyFrom(lens, it'.cursor)
      && multiset(rows) + multiset(Pending(lens, it')) == multiset(Pending(lens, it))
      && |rows| + UnfilteredLen(lens, it') == UnfilteredLen(lens, it)
  {
    if forward {
      NextTakesFirst(lens, it);
    } else {
      NextBackTakesLast(lens, it);
    }
  }

  lemma {:induction false} RunSplits(lens: seq<nat>, it: Iter, calls: seq<bool>)
    requires NoEmptyFrom(lens, it.cursor)
    ensures var (it', rows) := Run(lens, it, calls);
      && NoEmptyFrom(lens, it'.cursor)
      && multiset(rows) + multiset(Pending(lens, it')) == multiset(Pending(lens, it))
      && |rows| + UnfilteredLen(lens, it') == UnfilteredLen(lens, it)
    decreases |calls|
  {
    if calls != [] {
      var (mid, first) := Call(lens, it, calls[0]);
      CallSplits(lens, it, calls[0]);
      RunSplits(lens, mid, calls[1..]);
      var (it', rest) := Run(lens, mid, calls[1..]);
      Chain(first, rest, Pending(lens, it), Pending(lens, mid), Pending(lens, it'));
    }
  }

  lemma Chain<T>(first: seq<T>, rest: seq<T>, before: seq<T>, mid: seq<T>, after: seq<T>)
    requires multiset(first) + multiset(mid) == multiset(before) && multiset(rest) + multiset(after) == multiset(mid)
    ensures multiset(first + rest) + multiset(after) == multiset(before)
  {
  }

  lemma {:induction false} AllFromOnce(lens: seq<nat>, cursor: nat, r: Row)
    ensures multiset(AllFrom(lens, cursor))[r] <= 1
    decreases |lens| - cursor
  {
    if cursor < |lens| {
      AllFromOnce(lens, cursor + 1, r);
      AllFromIff(lens, cursor + 1, r);
      RowsFromOnce(cursor, 0, lens[cursor], r);
    }
  }

  lemma {:induction false} RowsFromOnce(table: nat, base: nat, count: nat, r: Row)
    ensures multiset(RowsFrom(table, base, count))[r] <= 1
  {
    if count > 0 {
      RowsFromOnce(table, base, count - 1, r);
      var init := RowsFrom(table, base, count - 1);
      assert RowsFrom(table, base, count) == init + [Row(table, base + count - 1)];
      assert r in init ==> r != Row(table, base + count - 1);
    }
  }

  lemma TwiceCounts<T>(s: seq<T>, i: nat, j: nat)
    requires i < j < |s| && s[i] == s[j]
    ensures multiset(s)[s[i]] >= 2
  {
    assert s == s[..j] + s[j..];
    assert s[i] in s[..j] && s[j] in s[j..];
  }

  predicate OnlyRows(lens: seq<nat>, rows: seq<Row>) {
    forall k :: 0 <= k < |rows| ==> IsRow(lens, rows[k])
  }

  /**
   If no table after the first is empty, any interleaving of `next` and `next_back` gives only real rows,
   none twice, has given every row of every table once `next` has nothing to give, and the length reported
   is exactly the number of rows still to come.
   */
  lemma IterationComplete(lens: seq<nat>, calls: seq<bool>)
    requires NoEmptyFrom(lens, 1)
    ensures var (it, rows) := Run(lens, FromState(lens), calls);
      && OnlyRows(lens, rows)
      && (forall i, j :: 0 <= i < j < |rows| ==> rows[i] != rows[j])
      && (it.Next(lens).1.None? ==> forall r :: IsRow(lens, r) ==> r in rows)
      && |rows| + UnfilteredLen(lens, it) == |AllRows(lens)|
  {
    var (it, rows) := Run(lens, FromState(lens), calls);
    RunSplits(lens, FromState(lens), calls);
    FromStatePending(lens);
    SumIsLength(lens, FromState(lens).cursor);
    forall k | 0 <= k < |rows| ensures IsRow(lens, rows[k]) {
      assert rows[k] in multiset(AllRows(lens));
      AllFromIff(lens, 0, rows[k]);
    }
    forall i, j | 0 <= i < j < |rows| ensures rows[i] != rows[j] {
      AllFromOnce(lens, 0, rows[i]);
      if rows[i] == rows[j] { TwiceCounts(rows, i, j); }
    }
    NextTakesFirst(lens, it);
    if it.Next(lens).1.None? {
      forall r | IsRow(lens, r) ensures r in rows {
        AllFromIff(lens, 0, r);
        assert r in multiset(AllRows(lens));
      }
    }
  }

  /** Going forwards, the first empty table is reached and a row of it is returned that is not there. */
  lemma {:induction false} HitsEmpty(lens: seq<nat>, it: Iter, j: nat) returns (calls: seq<bool>)
    requires it.cursor <= j < |lens| && lens[j] == 0 && forall t :: it.cursor <= t < j ==> lens[t] > 0
    ensures Row(j, 0) in Run(lens, it, calls).1
    decreases j - it.cursor, it.remaining
  {
    if it.remaining == 0 && it.cursor == j {
      calls := [true];
    } else {
      var (it', r) := it.Next(lens);
      var rest := HitsEmpty(lens, it', j);
      calls := [true] + rest;
      assert calls[1..] == rest;
      assert Run(lens, it, calls).1 == [r.value] + Run(lens, it', rest).1;
    }
  }

  lemma {:induction false} FirstEmpty(lens: seq<nat>, from: nat) returns (j: nat)
    requires !NoEmptyFrom(lens, from)
    ensures from <= j < |lens| && lens[j] == 0 && forall t :: from <= t < j ==> lens[t] > 0
    decreases |lens| - from
  {
    if from < |lens| && lens[from] == 0 {
      j := from;
    } else {
      j := FirstEmpty(lens, from + 1);
    }
  }

  /** The iterator gives nothing but real rows, however it is called, exactly when no table after the first is empty. */
  lemma OnlyRealRowsIff(lens: seq<nat>)
    ensures (forall calls :: OnlyRows(lens, Run(lens, FromState(lens), calls).1)) <==> NoEmptyFrom(lens, 1)
  {
    if NoEmptyFrom(lens, 1) {
      forall calls ensures OnlyRows(lens, Run(lens, FromState(lens), calls).1) { IterationComplete(lens, calls); }
    } else {
      var j := FirstEmpty(lens, 1);
      var calls := HitsEmpty(lens, FromState(lens), j);
      assert !IsRow(lens, Row(j, 0));
    }
  }

  // ---------------------------------------------------------------- past an empty table

  /** The next call of `next` jumps to a table without rows. */
  predicate JumpsToEmpty(lens: seq<nat>, it: Iter) {
    it.remaining == 0 && it.cursor < |lens| && lens[it.cursor] == 0
  }

  /** Such a call gives a row that is not there, and the length reported rises by 2^64 - 1. */
  lemma EmptyTableWraps(lens: seq<nat>, it: Iter)
    requires JumpsToEmpty(lens, it)
    ensures var (it', r) := it.Next(lens);
      && r == Some(Row(it.cursor, 0)) && !IsRow(lens, r.value)
      && UnfilteredLen(lens, it') == UnfilteredLen(lens, it) + 0xFFFF_FFFF_FFFF_FFFF
  {
  }

  /** As many calls as rows are left in the current table give rows of that table alone. */
  lemma {:induction false} StaysInTable(lens: seq<nat>, it: Iter, calls: seq<bool>)
    requires |calls| <= it.remaining
    ensures var (it', rows) := Run(lens, it, calls);
      && |rows| == |calls| && (forall k :: 0 <= k < |rows| ==> rows[k].table == it.table)
      && it'.cursor == it.cursor && it'.remaining == it.remaining - |calls|
    decreases |calls|
  {
    if calls != [] {
      var (mid, first) := Call(lens, it, calls[0]);
      StaysInTable(lens, mid, calls[1..]);
    }
  }

  /** After such a call, 2^64 - 1 further calls of either kind give rows of the empty table, and none that is there. */
  lemma LaterTablesAreLost(lens: seq<nat>, it: Iter, calls: seq<bool>)
    requires JumpsToEmpty(lens, it) && |calls| <= 0xFFFF_FFFF_FFFF_FFFF
    ensures var rows := Run(lens, it.Next(lens).0, calls).1;
      |rows| == |calls| && forall k :: 0 <= k < |rows| ==> rows[k].table == it.cursor && !IsRow(lens, rows[k])
  {
    StaysInTable(lens, it.Next(lens).0, calls);
  }

  /** Going forwards they are offsets 1, 2, 3, ... of that table. */
  lemma {:induction false} ForwardInTable(lens: seq<nat>, it: Iter, calls: seq<bool>)
    requires |calls| <= it.remaining && forall k :: 0 <= k < |calls| ==> calls[k]
    ensures Run(lens, it, calls).1 == RowsFrom(it.table, it.base, |calls|)
    decreases |calls|
  {
    if calls != [] { ForwardInTable(lens, it.Next(lens).0, calls[1..]); }
  }

  lemma PhantomRows(lens: seq<nat>, it: Iter, calls: seq<bool>)
    requires JumpsToEmpty(lens, it) && |calls| <= 0xFFFF_FFFF_FFFF_FFFF && forall k :: 0 <= k < |calls| ==> calls[k]
    ensures Run(lens, it.Next(lens).0, calls).1 == RowsFrom(it.cursor, 1, |calls|)
  {
    ForwardInTable(lens, it.Next(lens).0, calls);
  }

  // ---------------------------------------------------------------- backwards only

  /** What looping `next_back` until `None` gives. */
  function Backward(it: Iter): seq<Row>
    decreases it.remaining
  {
    var (it', r) := it.NextBack();
    if r.None? then [] else [r.value] + Backward(it')
  }

  function Reversed<T>(s: seq<T>): (r: seq<T>)
    ensures |r| == |s| && forall k :: 0 <= k < |r| ==> r[k] == s[|s| - 1 - k]
  {
    seq(|s|, k requires 0 <= k < |s| => s[|s| - 1 - k])
  }

  /** Backwards the current table is given from its last row to its first, and nothing else. */
  lemma {:induction false} BackwardIsCurrentTable(it: Iter)
    ensures Backward(it) == Reversed(RowsFrom(it.table, it.base, it.remaining))
    decreases it.remaining
  {
    if it.remaining > 0 { BackwardIsCurrentTable(it.NextBack().0); }
  }

  /**
   From the start, `next_back` gives the first table in reverse. Those are all rows there are, and then the
   forward iteration in reverse, exactly when no later table has a row.
   */
  lemma BackwardIsAllIff(lens: seq<nat>)
    ensures Backward(FromState(lens)) == Reversed(RowsFrom(0, 0, if lens == [] then 0 else lens[0]))
    ensures (forall r :: IsRow(lens, r) ==> r in Backward(FromState(lens))) <==> OthersEmpty(lens)
    ensures Backward(FromState(lens)) == Reversed(AllRows(lens)) <==> OthersEmpty(lens)
  {
    BackwardIsCurrentTable(FromState(lens));
    if OthersEmpty(lens) {
      OthersGiveNothing(lens, 1);
      assert AllRows(lens) == RowsFrom(0, 0, if lens == [] then 0 else lens[0]);
      forall r | IsRow(lens, r) ensures r in Backward(FromState(lens)) {
        assert Backward(FromState(lens))[lens[0] - 1 - r.offset] == r;
      }
    } else {
      var t: nat :| 1 <= t < |lens| && lens[t] != 0;
      AllFromIff(lens, 0, Row(t, 0));
      var k :| 0 <= k < |AllRows(lens)| && AllRows(lens)[k] == Row(t, 0);
      assert Reversed(AllRows(lens))[|AllRows(lens)| - 1 - k] == Row(t, 0);
      assert IsRow(lens, Row(t, 0)) && Row(t, 0) !in Backward(FromState(lens));
    }
  }

  /** No table after the first has a row. */
  predicate OthersEmpty(lens: seq<nat>) {
    forall t :: 1 <= t < |lens| ==> lens[t] == 0
  }

  lemma {:induction false} OthersGiveNothing(lens: seq<nat>, cursor: nat)
    requires OthersEmpty(lens) && cursor >= 1
    ensures AllFrom(lens, cursor) == []
    decreases |lens| - cursor
  {
    if cursor < |lens| { OthersGiveNothing(lens, cursor + 1); }
  }

  // ---------------------------------------------------------------- the object

  class QueryIter {
    const lens: seq<nat>
    var remaining: nat
    var cursor: nat
    var table: nat
    var base: nat

    function Model(): Iter
      reads this
    {
      Iter(remaining, cursor, table, base)
    }

    constructor (lens: seq<nat>)
      ensures this.lens == lens && Model() == FromState(lens)
    {
      this.lens := lens;
      remaining, cursor, table, base := if lens == [] then 0 else lens[0], if lens == [] then 0 else 1, 0, 0;
    }

    method Len() returns (n: nat)
      ensures n == |Pending(lens, Model())|
    {
      n := 0;
      var k := cursor;
      while k < |lens|
        invariant n + Sum(lens, k) == Sum(lens, cursor)
      {
        n := n + lens[k];
        k := k + 1;
      }
      n := n + remaining;
      SumIsLength(lens, cursor);
    }

    method Jump() returns (found: bool)
      modifies this
      ensures (Model(), found) == old(Model()).Jump(lens)
    {
      if cursor < |lens| {
        table, base := cursor, 0;
        remaining := lens[cursor];
        cursor := cursor + 1;
        return true;
      }
      remaining := 0;
      return false;
    }

    /** With no empty table ahead, the first row to come is returned and the others stay. */
    method Next() returns (r: Option<Row>)
      modifies this
      ensures (Model(), r) == old(Model()).Next(lens)
      ensures NoEmptyFrom(lens, old(cursor)) ==>
        old(Pending(lens, Model())) == (if r.Some? then [r.value] else []) + Pending(lens, Model())
    {
      if NoEmptyFrom(lens, cursor) { NextTakesFirst(lens, Model()); }
      if remaining == 0 {
        var found := Jump();
        if !found {
          return None;
        }
      }
      r := Some(Row(table, base));
      remaining := Minus1(remaining);
      base := base + 1;
    }

    method NextBack() returns (r: Option<Row>)
      modifies this
      ensures (Model(), r) == old(Model()).NextBack()
    {
      if remaining == 0 {
        return None;
      }
      r := Some(Row(table, base + remaining - 1));
      remaining := remaining - 1;
    }

    /** Looping `next_back`: the rest of the current table in reverse, and every later row is still counted. */
    method DrainBack() returns (rows: seq<Row>)
      modifies this
      ensures rows == Reversed(old(RowsFrom(table, base, remaining)))
      ensures Pending(lens, Model()) == AllFrom(lens, old(cursor))
    {
      ghost var it := Model();
      BackwardIsCurrentTable(it);
      rows := [];
      var next := NextBack();
      while next.Some?
        invariant cursor == it.cursor
        invariant rows + (if next.Some? then [next.value] else []) + Backward(Model()) == Backward(it)
        invariant next.None? ==> remaining == 0
        decreases next.Some?, remaining
      {
        rows := rows + [next.value];
        next := NextBack();
      }
    }

    /** `for` over the whole query: every row of every table, in order. */
    method Drain() returns (rows: seq<Row>)
      requires NoEmptyFrom(lens, cursor)
      modifies this
      ensures rows == old(Pending(lens, Model()))
    {
      rows := [];
      var next := Next();
      while next.Some?
        invariant NoEmptyFrom(lens, cursor)
        invariant rows + (if next.Some? then [next.value] else []) + Pending(lens, Model()) ==
          old(Pending(lens, Model()))
        invariant next.None? ==> Pending(lens, Model()) == []
        decreases next.Some?, |Pending(lens, Model())|
      {
        rows := rows + [next.value];
        NextTakesFirst(lens, Model());
        next := Next();
      }
    }
  }
}
