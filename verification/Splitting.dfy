/** Parallel iteration: a table is split into row ranges, every range is consumed on its own. */
module Splitting {
  import opened EntityRegistry
  import opened Iteration

  /** The fields of `TableProducer`: the next row of the table, and how many are left. */
  datatype Producer = Producer(table: nat, base: nat, remaining: nat)
  {
    /** A single row is not split; otherwise the left half gets the odd one. */
    function Split(): (Producer, Option<Producer>) {
      if remaining == 1 then (this, None)
      else
        var left := (remaining + 1) / 2;
        (this.(remaining := left), Some(this.(base := base + left, remaining := remaining / 2)))
    }

    function SplitAt(index: nat): (Producer, Producer)
      requires index <= remaining
    {
      (this.(remaining := index), this.(base := base + index, remaining := remaining - index))
    }

    function Rows(): seq<Row> {
      RowsFrom(table, base, remaining)
    }
  }

  /** Cutting at an index gives the first `index` rows to the left part and the others to the right one. */
  lemma CutsAtIndex(p: Producer, index: nat)
    requires index <= p.remaining
    ensures p.SplitAt(index).0.Rows() == p.Rows()[..index]
    ensures p.SplitAt(index).1.Rows() == p.Rows()[index..]
  {
  }

  /** How a producer is taken apart: consumed, halved, or cut at an index. */
  datatype Plan = Consume | Halve(left: Plan, right: Plan) | Cut(index: nat, left: Plan, right: Plan)

  /** Every cut is within the rows that are left, as `split_at` requires. */
  predicate Fits(p: Producer, plan: Plan)
    decreases plan
  {
    match plan
    case Consume => true
    case Halve(l, r) =>
      var (left, right) := p.Split();
      Fits(left, l) && (right.Some? ==> Fits(right.value, r))
    case Cut(index, l, r) =>
      index <= p.remaining && var (left, right) := p.SplitAt(index); Fits(left, l) && Fits(right, r)
  }

  /** The producers that are consumed in the end, from left to right. */
  function Leaves(p: Producer, plan: Plan): seq<Producer>
    requires Fits(p, plan)
    decreases plan
  {
    match plan
    case Consume => [p]
    case Halve(l, r) =>
      var (left, right) := p.Split();
      Leaves(left, l) + if right.Some? then Leaves(right.value, r) else []
    case Cut(index, l, r) =>
      var (left, right) := p.SplitAt(index);
      Leaves(left, l) + Leaves(right, r)
  }

  function Outputs(leaves: seq<Producer>): seq<Row> {
    if leaves == [] then [] else leaves[0].Rows() + Outputs(leaves[1..])
  }

  lemma {:induction false} OutputsConcat(a: seq<Producer>, b: seq<Producer>)
    ensures Outputs(a + b) == Outputs(a) + Outputs(b)
  {
    if a == [] {
      assert a + b == b;
    } else {
      assert (a + b)[1..] == a[1..] + b;
      OutputsConcat(a[1..], b);
    }
  }

  /** The two parts of a producer are its rows, in order. */
  lemma SplitRows(p: Producer, index: nat)
    requires index <= p.remaining
    ensures p.SplitAt(index).0.Rows() + p.SplitAt(index).1.Rows() == p.Rows()
    ensures p.Split().1.Some? ==> p.Split().0.Rows() + p.Split().1.value.Rows() == p.Rows()
  {
  }

  /** Only a single row stays whole; otherwise the halves differ by at most one row. */
  lemma SplitIsBalanced(p: Producer)
    ensures p.Split().1.None? <==> p.remaining == 1
    ensures p.Split().1.Some? ==> 0 <= p.Split().0.remaining - p.Split().1.value.remaining <= 1
  {
  }

  /** However a table is split, the outputs from left to right are the unsplit iteration. */
  lemma {:induction false} SplittingKeepsOrder(p: Producer, plan: Plan)
    requires Fits(p, plan)
    ensures Outputs(Leaves(p, plan)) == p.Rows()
    decreases plan
  {
    match plan
    case Consume =>
      assert [p][1..] == [];
    case Halve(l, r) =>
      var (left, right) := p.Split();
      SplitRows(p, 0);
      SplittingKeepsOrder(left, l);
      if right.Some? {
        SplittingKeepsOrder(right.value, r);
        OutputsConcat(Leaves(left, l), Leaves(right.value, r));
      } else {
        assert Leaves(left, l) + [] == Leaves(left, l);
      }
    case Cut(index, l, r) =>
      var (left, right) := p.SplitAt(index);
      SplitRows(p, index);
      SplittingKeepsOrder(left, l);
      SplittingKeepsOrder(right, r);
      OutputsConcat(Leaves(left, l), Leaves(right, r));
  }

  /** The ranges follow one another within the range of `p`. */
  predicate InSequence(leaves: seq<Producer>, table: nat, from: nat, to: nat) {
    && (forall k :: 0 <= k < |leaves| ==>
          leaves[k].table == table && from <= leaves[k].base && leaves[k].base + leaves[k].remaining <= to)
    && (forall j, k :: 0 <= j < k < |leaves| ==> leaves[j].base + leaves[j].remaining <= leaves[k].base)
  }

  /** The ranges of the parts are within the table's range and pairwise disjoint. */
  lemma {:induction false} LeavesAreDisjoint(p: Producer, plan: Plan)
    requires Fits(p, plan)
    ensures InSequence(Leaves(p, plan), p.table, p.base, p.base + p.remaining)
    decreases plan
  {
    match plan
    case Consume =>
    case Halve(l, r) =>
      var (left, right) := p.Split();
      LeavesAreDisjoint(left, l);
      if right.Some? { LeavesAreDisjoint(right.value, r); }
    case Cut(index, l, r) =>
      var (left, right) := p.SplitAt(index);
      LeavesAreDisjoint(left, l);
      LeavesAreDisjoint(right, r);
  }

  // ---------------------------------------------------------------- all tables

  /** One plan for every cached table. */
  predicate AllFit(lens: seq<nat>, plans: seq<Plan>) {
    |plans| == |lens| && forall t :: 0 <= t < |lens| ==> Fits(Producer(t, 0, lens[t]), plans[t])
  }

  function AllLeaves(lens: seq<nat>, plans: seq<Plan>, from: nat): seq<Producer>
    requires AllFit(lens, plans)
    decreases |lens| - from
  {
    if from >= |lens| then []
    else Leaves(Producer(from, 0, lens[from]), plans[from]) + AllLeaves(lens, plans, from + 1)
  }

  /** The parallel iterator over a whole query gives the rows of all tables in order, empty tables or not. */
  lemma {:induction false} ParallelIsSequential(lens: seq<nat>, plans: seq<Plan>, from: nat)
    requires AllFit(lens, plans)
    ensures Outputs(AllLeaves(lens, plans, from)) == AllFrom(lens, from)
    decreases |lens| - from
  {
    if from < |lens| {
      var p := Producer(from, 0, lens[from]);
      SplittingKeepsOrder(p, plans[from]);
      ParallelIsSequential(lens, plans, from + 1);
      OutputsConcat(Leaves(p, plans[from]), AllLeaves(lens, plans, from + 1));
    }
  }

  // ---------------------------------------------------------------- consuming one range

  class SequentialTableIter {
    const table: nat
    var remaining: nat
    var base: nat

    function Left(): Producer
      reads this
    {
      Producer(table, base, remaining)
    }

    constructor (p: Producer)
      ensures Left() == p
    {
      table, base, remaining := p.table, p.base, p.remaining;
    }

    method Next() returns (r: Option<Row>)
      modifies this
      ensures old(Left()).Rows() == (if r.Some? then [r.value] else []) + Left().Rows()
      ensures r.None? <==> old(remaining) == 0
      ensures remaining == if r.Some? then old(remaining) - 1 else old(remaining)
    {
      if remaining > 0 {
        r := Some(Row(table, base));
        remaining := remaining - 1;
        base := base + 1;
      } else {
        return None;
      }
    }
  }

  /** `fold_with`: a range is consumed until nothing is left. */
  method Consumed(p: Producer) returns (rows: seq<Row>)
    ensures rows == p.Rows()
  {
    var it := new SequentialTableIter(p);
    rows := [];
    var next := it.Next();
    while next.Some?
      invariant rows + (if next.Some? then [next.value] else []) + it.Left().Rows() == p.Rows()
      invariant next.None? ==> it.Left().Rows() == []
      decreases next.Some?, it.remaining
    {
      rows := rows + [next.value];
      next := it.Next();
    }
  }
}
