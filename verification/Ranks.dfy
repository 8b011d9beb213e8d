/** Average ranks of values with ties. */
module Ranks {
  import opened Sequences

  function CountLess(values: seq<real>, v: real): (r: nat) {
    if values == [] then 0
    else CountLess(values[..|values| - 1], v) + if values[|values| - 1] < v then 1 else 0
  }

  function CountEqual(values: seq<real>, v: real): (r: nat) {
    if values == [] then 0
    else CountEqual(values[..|values| - 1], v) + if values[|values| - 1] == v then 1 else 0
  }

  /** The number of smaller values, plus half of one more than the number of equal ones. */
  function Rank(values: seq<real>, v: real): (r: real) {
    CountLess(values, v) as real + (CountEqual(values, v) + 1) as real / 2.0
  }

  /** Every position once, in an order that sorts the values. */
  ghost predicate Sorts(values: seq<real>, order: seq<nat>) {
    && |order| == |values|
    && (forall k :: 0 <= k < |order| ==> order[k] < |values|)
    && NoRepeat(order)
    && (forall i: nat :: i < |values| ==> i in order)
    && (forall j, k :: 0 <= j <= k < |order| ==> values[order[j]] <= values[order[k]])
  }

  // ---- Counting by positions

  function Smaller(values: seq<real>, v: real): (r: set<nat>) {
    set i: nat | i < |values| && values[i] < v
  }

  function Same(values: seq<real>, v: real): (r: set<nat>) {
    set i: nat | i < |values| && values[i] == v
  }

  lemma {:induction false} CountsAreSizes(values: seq<real>, v: real)
    ensures |Smaller(values, v)| == CountLess(values, v)
    ensures |Same(values, v)| == CountEqual(values, v)
  {
    if values != [] {
      var n := |values| - 1;
      CountsAreSizes(values[..n], v);
      assert Smaller(values, v) == Smaller(values[..n], v) + if values[n] < v then {n} else {};
      assert Same(values, v) == Same(values[..n], v) + if values[n] == v then {n} else {};
    } else {
      assert Smaller(values, v) == {} && Same(values, v) == {};
    }
  }

  /** In a sorted order, the run of a value stands between the smaller and the larger values. */
  ghost predicate RunAt(values: seq<real>, order: seq<nat>, start: nat, end: nat, v: real)
    requires Sorts(values, order)
  {
    && start < end <= |order|
    && (forall k :: 0 <= k < start ==> values[order[k]] < v)
    && (forall k :: start <= k < end ==> values[order[k]] == v)
    && (forall k :: end <= k < |order| ==> v < values[order[k]])
  }

  lemma {:induction false} RunCounts(values: seq<real>, order: seq<nat>, start: nat, end: nat, v: real)
    requires Sorts(values, order) && RunAt(values, order, start, end, v)
    ensures CountLess(values, v) == start && CountEqual(values, v) == end - start
  {
    CountsAreSizes(values, v);
    NoRepeatSize(order[..start]);
    NoRepeatSize(order[start..end]);
    forall i: nat
      ensures i in Smaller(values, v) <==> i in order[..start]
      ensures i in Same(values, v) <==> i in order[start..end]
    {
      WhereItStands(values, order, start, end, v, i);
    }
    assert Smaller(values, v) == Members(order[..start]);
    assert Same(values, v) == Members(order[start..end]);
  }

  lemma {:induction false} WhereItStands(values: seq<real>, order: seq<nat>, start: nat, end: nat, v: real, i: nat)
    requires Sorts(values, order) && RunAt(values, order, start, end, v)
    ensures (i < |values| && values[i] < v) <==> i in order[..start]
    ensures (i < |values| && values[i] == v) <==> i in order[start..end]
  {
    if i < |values| {
      assert i in order;
      var k :| 0 <= k < |order| && order[k] == i;
      assert k < start ==> order[..start][k] == i;
      assert start <= k < end ==> order[start..end][k - start] == i;
    }
  }

  /** The tie loop, for any order that sorts the values: every value gets its rank. */
  method AverageTieRanks(values: seq<real>, order: seq<nat>) returns (ranks: array<real>)
    requires Sorts(values, order)
    ensures fresh(ranks) && ranks.Length == |values|
    ensures forall i :: 0 <= i < |values| ==> ranks[i] == Rank(values, values[i])
  {
    ranks := new real[|values|](_ => 0.0);
    var start := 0;
    while start < |values|
      invariant 0 <= start <= |values|
      invariant forall j, k :: 0 <= j < start <= k < |values| ==> values[order[j]] < values[order[k]]
      invariant forall k :: 0 <= k < start ==> ranks[order[k]] == Rank(values, values[order[k]])
    {
      var end := start + 1;
      while end < |values| && values[order[end]] == values[order[start]]
        invariant start < end <= |values|
        invariant forall k :: start <= k < end ==> values[order[k]] == values[order[start]]
      {
        end := end + 1;
      }
      RunCounts(values, order, start, end, values[order[start]]);
      var rank := ((start + 1) + end) as real / 2.0;
      assert rank == Rank(values, values[order[start]]);
      SetRanks(ranks, order, start, end, rank);
      start := end;
    }
    forall i | 0 <= i < |values|
      ensures ranks[i] == Rank(values, values[i])
    {
      assert i in order;
    }
  }

  /** `ranks[order[start:end]] = rank`. */
  method SetRanks(ranks: array<real>, order: seq<nat>, start: nat, end: nat, rank: real)
    requires start <= end <= |order|
    requires forall k :: 0 <= k < |order| ==> order[k] < ranks.Length
    requires NoRepeat(order)
    modifies ranks
    ensures forall k :: start <= k < end ==> ranks[order[k]] == rank
    ensures forall k :: 0 <= k < |order| && !(start <= k < end) ==> ranks[order[k]] == old(ranks[order[k]])
  {
    for at := start to end
      invariant forall k :: start <= k < at ==> ranks[order[k]] == rank
      invariant forall k :: 0 <= k < |order| && !(start <= k < at) ==> ranks[order[k]] == old(ranks[order[k]])
    {
      ranks[order[at]] := rank;
    }
  }

  // ---- What the ranks satisfy

  /** A larger value has a larger rank; equal values have one rank, being the same value. */
  lemma {:induction false} RanksRespectOrder(values: seq<real>, v: real, w: real)
    requires v < w && v in values
    ensures Rank(values, v) < Rank(values, w)
  {
    LessPassesEqual(values, v, w);
    Occurs(values, v);
  }

  lemma {:induction false} LessPassesEqual(values: seq<real>, v: real, w: real)
    requires v < w
    ensures CountLess(values, v) + CountEqual(values, v) <= CountLess(values, w)
  {
    if values != [] {
      LessPassesEqual(values[..|values| - 1], v, w);
    }
  }

  lemma {:induction false} Occurs(values: seq<real>, v: real)
    requires v in values
    ensures CountEqual(values, v) > 0
  {
    var n := |values| - 1;
    assert values == values[..n] + [values[n]];
    if values[n] != v {
      Occurs(values[..n], v);
    }
  }

  /** The sum of the ranks, among `values`, of the elements of `of`. */
  function RankSum(values: seq<real>, of: seq<real>): (r: real) {
    if of == [] then 0.0 else RankSum(values, of[..|of| - 1]) + Rank(values, of[|of| - 1])
  }

  /** What the others gain when one more value joins: one for each larger, a half for each equal. */
  lemma {:induction false} OthersGain(values: seq<real>, x: real, of: seq<real>)
    ensures RankSum(values + [x], of) ==
            RankSum(values, of) + (|of| - CountLess(of, x)) as real - CountEqual(of, x) as real / 2.0
  {
    assert (values + [x])[..|values|] == values;
    if of != [] {
      OthersGain(values, x, of[..|of| - 1]);
    }
  }

  /** The ranks of n values sum to n (n + 1) / 2, whatever the ties. */
  lemma {:induction false} RanksSum(values: seq<real>)
    ensures RankSum(values, values) == (|values| * (|values| + 1)) as real / 2.0
  {
    if values != [] {
      var n := |values| - 1;
      var front, x := values[..n], values[n];
      RanksSum(front);
      OthersGain(front, x, front);
      assert values == front + [x];
      assert RankSum(values, values) == RankSum(values, front) + Rank(values, x);
      assert (n + 1) * (n + 2) == n * (n + 1) + 2 * (n + 1);
    }
  }
}
