/** The weights that make a sum over rows an equal-instrument mean. */
module Balance {
  import opened Ascending

  const INSTRUMENTS: nat := 20

  function CountOf(nodes: seq<int>, node: int): (r: nat) {
    if nodes == [] then 0
    else CountOf(nodes[..|nodes| - 1], node) + if nodes[|nodes| - 1] == node then 1 else 0
  }

  predicate Canonical(nodes: seq<int>) {
    forall r :: 0 <= r < |nodes| ==> 0 <= nodes[r] < INSTRUMENTS
  }

  predicate Covered(nodes: seq<int>) {
    forall node :: 0 <= node < INSTRUMENTS ==> CountOf(nodes, node) > 0
  }

  predicate AreCounts(counts: seq<nat>, nodes: seq<int>) {
    |counts| == INSTRUMENTS && forall node :: 0 <= node < INSTRUMENTS ==> counts[node] == CountOf(nodes, node)
  }

  /** Counts row by row; refuses a node outside the universe and a universe that is not covered. */
  method ManualCounts(nodes: seq<int>) returns (r: Result<seq<nat>>)
    ensures r.Ok? <==> Canonical(nodes) && Covered(nodes)
    ensures r.Ok? ==> AreCounts(r.value, nodes)
  {
    var counts: seq<nat> := seq(INSTRUMENTS, _ => 0);
    for n := 0 to |nodes|
      invariant Canonical(nodes[..n]) && AreCounts(counts, nodes[..n])
    {
      assert nodes[..n + 1][..n] == nodes[..n];
      if nodes[n] < 0 || nodes[n] >= INSTRUMENTS {
        return Err("oracle target is outside canonical universe");
      }
      counts := counts[nodes[n] := counts[nodes[n]] + 1];
    }
    assert nodes[..|nodes|] == nodes;
    if exists node :: 0 <= node < INSTRUMENTS && counts[node] == 0 {
      return Err("oracle requires every canonical instrument");
    }
    return Ok(counts);
  }

  /** Counts instrument by instrument; a node outside the universe is not counted. */
  function GroupedCounts(nodes: seq<int>): (r: Result<seq<nat>>)
    ensures r.Ok? <==> Covered(nodes)
    ensures r.Ok? ==> AreCounts(r.value, nodes)
  {
    var counts: seq<nat> := seq(INSTRUMENTS, node => CountOf(nodes, node));
    assert forall node :: 0 <= node < INSTRUMENTS ==> counts[node] == CountOf(nodes, node);
    if Covered(nodes) then Ok(counts) else Err("grouped comparison requires every canonical instrument")
  }

  predicate Positive(counts: seq<nat>) {
    |counts| == INSTRUMENTS && forall node :: 0 <= node < INSTRUMENTS ==> counts[node] > 0
  }

  /** A row's value over the number of rows of its instrument and the number of instruments. */
  function Weighted(value: real, count: nat): (r: real)
    requires count > 0
  {
    value / (count * INSTRUMENTS) as real
  }

  function WeightedSum(nodes: seq<int>, values: seq<real>, counts: seq<nat>): (r: real)
    requires |nodes| == |values| && Canonical(nodes) && Positive(counts)
  {
    if nodes == [] then 0.0
    else
      var n := |nodes| - 1;
      WeightedSum(nodes[..n], values[..n], counts) + Weighted(values[n], counts[nodes[n]])
  }

  /** The part of the weighted sum that the first k instruments contribute. */
  function SumBelow(nodes: seq<int>, values: seq<real>, counts: seq<nat>, k: nat): (r: real)
    requires |nodes| == |values| && Canonical(nodes) && Positive(counts)
  {
    if nodes == [] then 0.0
    else
      var n := |nodes| - 1;
      SumBelow(nodes[..n], values[..n], counts, k) +
      if nodes[n] < k then Weighted(values[n], counts[nodes[n]]) else 0.0
  }

  function InstrumentSum(nodes: seq<int>, values: seq<real>, node: int): (r: real)
    requires |nodes| == |values|
  {
    if nodes == [] then 0.0
    else
      var n := |nodes| - 1;
      InstrumentSum(nodes[..n], values[..n], node) + if nodes[n] == node then values[n] else 0.0
  }

  /** The mean over one instrument's rows. */
  function InstrumentMean(nodes: seq<int>, values: seq<real>, node: int): (r: real)
    requires |nodes| == |values| && CountOf(nodes, node) > 0
  {
    InstrumentSum(nodes, values, node) / CountOf(nodes, node) as real
  }

  function MeansBelow(nodes: seq<int>, values: seq<real>, k: nat): (r: real)
    requires |nodes| == |values| && k <= INSTRUMENTS && Covered(nodes)
  {
    if k == 0 then 0.0 else MeansBelow(nodes, values, k - 1) + InstrumentMean(nodes, values, k - 1)
  }

  /** The equal-weighted mean of the per-instrument means. */
  function BalancedMean(nodes: seq<int>, values: seq<real>): (r: real)
    requires |nodes| == |values| && Covered(nodes)
  {
    MeansBelow(nodes, values, INSTRUMENTS) / INSTRUMENTS as real
  }

  lemma {:induction false} DivisionAdds(a: real, b: real, d: real)
    requires d != 0.0
    ensures (a + b) / d == a / d + b / d
  {
  }

  lemma {:induction false} DivisionNests(a: real, c: nat)
    requires c > 0
    ensures Weighted(a, c) == (a / c as real) / INSTRUMENTS as real
  {
    var d := c as real;
    var q := a / d;
    var w := q / 20.0;
    assert a == q * d && q == w * 20.0;
    assert (w * 20.0) * d == w * (d * 20.0);
  }

  lemma {:induction false} NextInstrument(nodes: seq<int>, values: seq<real>, counts: seq<nat>, k: nat)
    requires |nodes| == |values| && Canonical(nodes) && Positive(counts) && k < INSTRUMENTS
    ensures SumBelow(nodes, values, counts, k + 1) ==
            SumBelow(nodes, values, counts, k) + Weighted(InstrumentSum(nodes, values, k), counts[k])
  {
    if nodes != [] {
      var n := |nodes| - 1;
      NextInstrument(nodes[..n], values[..n], counts, k);
      var share := (counts[k] * INSTRUMENTS) as real;
      DivisionAdds(InstrumentSum(nodes[..n], values[..n], k), values[n], share);
    }
  }

  lemma {:induction false} InstrumentsBelow(nodes: seq<int>, values: seq<real>, counts: seq<nat>, k: nat)
    requires |nodes| == |values| && Canonical(nodes) && Covered(nodes) && AreCounts(counts, nodes)
    requires k <= INSTRUMENTS
    ensures Positive(counts)
    ensures SumBelow(nodes, values, counts, k) == MeansBelow(nodes, values, k) / INSTRUMENTS as real
  {
    if k == 0 {
      NoInstrument(nodes, values, counts);
    } else {
      InstrumentsBelow(nodes, values, counts, k - 1);
      NextInstrument(nodes, values, counts, k - 1);
      DivisionNests(InstrumentSum(nodes, values, k - 1), counts[k - 1]);
      DivisionAdds(MeansBelow(nodes, values, k - 1), InstrumentMean(nodes, values, k - 1), INSTRUMENTS as real);
    }
  }

  lemma {:induction false} NoInstrument(nodes: seq<int>, values: seq<real>, counts: seq<nat>)
    requires |nodes| == |values| && Canonical(nodes) && Positive(counts)
    ensures SumBelow(nodes, values, counts, 0) == 0.0
    ensures SumBelow(nodes, values, counts, INSTRUMENTS) == WeightedSum(nodes, values, counts)
  {
    if nodes != [] {
      var n := |nodes| - 1;
      NoInstrument(nodes[..n], values[..n], counts);
    }
  }

  /** The weighted sum over rows is the equal-instrument mean of the per-instrument means. */
  lemma {:induction false} WeightedSumIsBalanced(nodes: seq<int>, values: seq<real>, counts: seq<nat>)
    requires |nodes| == |values| && Canonical(nodes) && Covered(nodes) && AreCounts(counts, nodes)
    ensures Positive(counts) && WeightedSum(nodes, values, counts) == BalancedMean(nodes, values)
  {
    InstrumentsBelow(nodes, values, counts, INSTRUMENTS);
    NoInstrument(nodes, values, counts);
  }

  lemma {:induction false} SumOfOnes(nodes: seq<int>, values: seq<real>, node: int)
    requires |nodes| == |values| && forall r :: 0 <= r < |values| ==> values[r] == 1.0
    ensures InstrumentSum(nodes, values, node) == CountOf(nodes, node) as real
  {
    if nodes != [] {
      SumOfOnes(nodes[..|nodes| - 1], values[..|nodes| - 1], node);
    }
  }

  lemma {:induction false} MeansOfOnes(nodes: seq<int>, values: seq<real>, k: nat)
    requires |nodes| == |values| && Covered(nodes) && k <= INSTRUMENTS
    requires forall r :: 0 <= r < |values| ==> values[r] == 1.0
    ensures MeansBelow(nodes, values, k) == k as real
  {
    if k > 0 {
      MeansOfOnes(nodes, values, k - 1);
      SumOfOnes(nodes, values, k - 1);
    }
  }

  /** The row weights sum to one. */
  lemma {:induction false} WeightsSumToOne(nodes: seq<int>, counts: seq<nat>)
    requires Canonical(nodes) && Covered(nodes) && AreCounts(counts, nodes)
    ensures Positive(counts) && WeightedSum(nodes, seq(|nodes|, _ => 1.0), counts) == 1.0
  {
    var ones := seq(|nodes|, _ => 1.0);
    WeightedSumIsBalanced(nodes, ones, counts);
    MeansOfOnes(nodes, ones, INSTRUMENTS);
  }

  function RowWeight(count: nat): (r: real)
    requires count > 0
  {
    1.0 / (count * INSTRUMENTS) as real
  }

  /** `grouped_weighted_loss`: the sum of the squared errors times the row weights. */
  function GroupedWeightedLoss(nodes: seq<int>, errors: seq<real>, counts: seq<nat>): (r: real)
    requires |nodes| == |errors| && Canonical(nodes) && Positive(counts)
  {
    if nodes == [] then 0.0
    else
      var n := |nodes| - 1;
      GroupedWeightedLoss(nodes[..n], errors[..n], counts) + errors[n] * RowWeight(counts[nodes[n]])
  }

  lemma {:induction false} GroupedWeightedLossIsBalanced(nodes: seq<int>, errors: seq<real>, counts: seq<nat>)
    requires |nodes| == |errors| && Canonical(nodes) && Positive(counts)
    ensures GroupedWeightedLoss(nodes, errors, counts) == WeightedSum(nodes, errors, counts)
  {
    if nodes != [] {
      var n := |nodes| - 1;
      GroupedWeightedLossIsBalanced(nodes[..n], errors[..n], counts);
    }
  }
}
