/** Sufficient statistics of evaluation blocks, pooled and reduced, against the concatenated rows. */
module Pooled {
  import opened Ascending
  import opened Balance
  import opened Sequences

  /** One instrument at one time; only masked observations count. */
  datatype Observation = Observation(target: real, prediction: real, residual: real, correction: real, mask: bool)

  /** Times of observations of all instruments. */
  type Block = b: seq<seq<Observation>> | forall t :: 0 <= t < |b| ==> |b[t]| == INSTRUMENTS witness []

  datatype Statistics = Statistics(counts: seq<nat>, sse: seq<real>, residualSse: seq<real>)

  predicate Complete(s: Statistics) {
    |s.counts| == |s.sse| == |s.residualSse| == INSTRUMENTS && Positive(s.counts)
  }

  function Square(x: real): (r: real) {
    x * x
  }

  function CountAt(b: Block, i: nat): (r: nat)
    requires i < INSTRUMENTS
  {
    if b == [] then 0 else CountAt(b[..|b| - 1], i) + if b[|b| - 1][i].mask then 1 else 0
  }

  function SseAt(b: Block, i: nat): (r: real)
    requires i < INSTRUMENTS
  {
    if b == [] then 0.0
    else
      var o := b[|b| - 1][i];
      SseAt(b[..|b| - 1], i) + if o.mask then Square(o.prediction - o.target) else 0.0
  }

  function ResidualSseAt(b: Block, i: nat): (r: real)
    requires i < INSTRUMENTS
  {
    if b == [] then 0.0
    else
      var o := b[|b| - 1][i];
      ResidualSseAt(b[..|b| - 1], i) + if o.mask then Square(o.correction - o.residual) else 0.0
  }

  /** Per instrument: rows, squared errors and squared residual errors. Every instrument must have a row. */
  function SufficientStatistics(b: Block): (r: Result<Statistics>)
    ensures r.Ok? ==> Complete(r.value)
  {
    var counts: seq<nat> := seq(INSTRUMENTS, i requires 0 <= i < INSTRUMENTS => CountAt(b, i));
    if exists i :: 0 <= i < INSTRUMENTS && counts[i] == 0
    then Err("common support must cover all twenty instruments")
    else Ok(Statistics(counts, seq(INSTRUMENTS, i requires 0 <= i < INSTRUMENTS => SseAt(b, i)),
                       seq(INSTRUMENTS, i requires 0 <= i < INSTRUMENTS => ResidualSseAt(b, i))))
  }

  function Added(a: Statistics, b: Statistics): (r: Statistics)
    requires Complete(a) && Complete(b)
  {
    Statistics(seq(INSTRUMENTS, i requires 0 <= i < INSTRUMENTS => a.counts[i] + b.counts[i]),
               seq(INSTRUMENTS, i requires 0 <= i < INSTRUMENTS => a.sse[i] + b.sse[i]),
               seq(INSTRUMENTS, i requires 0 <= i < INSTRUMENTS => a.residualSse[i] + b.residualSse[i]))
  }

  lemma {:induction false} BlocksJoin(a: Block, b: Block, i: nat)
    requires i < INSTRUMENTS
    ensures CountAt(a + b, i) == CountAt(a, i) + CountAt(b, i)
    ensures SseAt(a + b, i) == SseAt(a, i) + SseAt(b, i)
    ensures ResidualSseAt(a + b, i) == ResidualSseAt(a, i) + ResidualSseAt(b, i)
  {
    if b == [] {
      assert a + b == a;
    } else {
      assert (a + b)[..|a + b| - 1] == a + b[..|b| - 1];
      BlocksJoin(a, b[..|b| - 1], i);
    }
  }

  /** Adding the statistics of two blocks gives the statistics of the blocks laid end to end. */
  lemma {:induction false} AddingIsConcatenating(a: Block, b: Block)
    requires SufficientStatistics(a).Ok? && SufficientStatistics(b).Ok?
    ensures SufficientStatistics(a + b) == Ok(Added(SufficientStatistics(a).value, SufficientStatistics(b).value))
  {
    forall i: nat | i < INSTRUMENTS
      ensures CountAt(a + b, i) == CountAt(a, i) + CountAt(b, i) > 0
      ensures SseAt(a + b, i) == SseAt(a, i) + SseAt(b, i)
      ensures ResidualSseAt(a + b, i) == ResidualSseAt(a, i) + ResidualSseAt(b, i)
    {
      BlocksJoin(a, b, i);
      assert SufficientStatistics(a).value.counts[i] > 0;
    }
    assert SufficientStatistics(a + b).Ok?;
    var joined := SufficientStatistics(a + b).value;
    var added := Added(SufficientStatistics(a).value, SufficientStatistics(b).value);
    assert joined.counts == added.counts;
    assert joined.sse == added.sse;
    assert joined.residualSse == added.residualSse;
  }

  // ---- Reduction, and the rows it stands for

  function Mean(s: seq<real>): (r: real)
    requires s != []
  {
    Total(s) / |s| as real
  }

  /** Positions of the three market groups among the instruments. */
  const COMMODITIES: nat := 3
  const CURRENCIES: nat := 11

  datatype Reduced = Reduced(statistics: Statistics, instrumentMse: seq<real>, mse: real, residualMse: real,
                             commodityMse: real, fxMse: real, indexMse: real)

  function Ratios(sums: seq<real>, counts: seq<nat>): (r: seq<real>)
    requires |sums| == INSTRUMENTS && Positive(counts)
  {
    seq(INSTRUMENTS, i requires 0 <= i < INSTRUMENTS => sums[i] / counts[i] as real)
  }

  function ReduceStatistics(s: Statistics): (r: Reduced)
    requires Complete(s)
  {
    var mse := Ratios(s.sse, s.counts);
    Reduced(s, mse, Mean(mse), Mean(Ratios(s.residualSse, s.counts)),
            Mean(mse[..COMMODITIES]), Mean(mse[COMMODITIES..CURRENCIES]), Mean(mse[CURRENCIES..]))
  }

  /** The instruments of the observations that count, in the order of the rows. */
  function NodesAt(time: seq<Observation>): (r: seq<int>) {
    if time == [] then []
    else
      var before := NodesAt(time[..|time| - 1]);
      if time[|time| - 1].mask then before + [|time| - 1] else before
  }

  function ErrorsAt(time: seq<Observation>): (r: seq<real>)
    ensures |r| == |NodesAt(time)|
  {
    if time == [] then []
    else
      var o, before := time[|time| - 1], ErrorsAt(time[..|time| - 1]);
      if o.mask then before + [Square(o.prediction - o.target)] else before
  }

  function Nodes(b: Block): (r: seq<int>) {
    if b == [] then [] else Nodes(b[..|b| - 1]) + NodesAt(b[|b| - 1])
  }

  function Errors(b: Block): (r: seq<real>)
    ensures |r| == |Nodes(b)|
  {
    if b == [] then [] else Errors(b[..|b| - 1]) + ErrorsAt(b[|b| - 1])
  }

  lemma {:induction false} CountsJoin(a: seq<int>, b: seq<int>, i: int)
    ensures CountOf(a + b, i) == CountOf(a, i) + CountOf(b, i)
  {
    if b == [] {
      assert a + b == a;
    } else {
      assert (a + b)[..|a + b| - 1] == a + b[..|b| - 1];
      CountsJoin(a, b[..|b| - 1], i);
    }
  }

  lemma {:induction false} SumsJoin(a: seq<int>, x: seq<real>, b: seq<int>, y: seq<real>, i: int)
    requires |a| == |x| && |b| == |y|
    ensures InstrumentSum(a + b, x + y, i) == InstrumentSum(a, x, i) + InstrumentSum(b, y, i)
  {
    if b == [] {
      assert a + b == a && x + y == x;
    } else {
      assert (a + b)[..|a + b| - 1] == a + b[..|b| - 1];
      assert (x + y)[..|a + b| - 1] == x + y[..|b| - 1];
      SumsJoin(a, x, b[..|b| - 1], y[..|b| - 1], i);
    }
  }

  lemma {:induction false} TimeCounts(time: seq<Observation>, i: nat)
    ensures CountOf(NodesAt(time), i) == if i < |time| && time[i].mask then 1 else 0
    ensures InstrumentSum(NodesAt(time), ErrorsAt(time), i) ==
            if i < |time| && time[i].mask then Square(time[i].prediction - time[i].target) else 0.0
  {
    if time != [] {
      var n := |time| - 1;
      TimeCounts(time[..n], i);
      if time[n].mask {
        var nodes, errors := NodesAt(time), ErrorsAt(time);
        assert nodes[..|nodes| - 1] == NodesAt(time[..n]) && nodes[|nodes| - 1] == n;
        assert errors[..|nodes| - 1] == ErrorsAt(time[..n]);
      }
    }
  }

  lemma {:induction false} BlockCounts(b: Block, i: nat)
    requires i < INSTRUMENTS
    ensures CountOf(Nodes(b), i) == CountAt(b, i)
    ensures InstrumentSum(Nodes(b), Errors(b), i) == SseAt(b, i)
  {
    if b != [] {
      var n := |b| - 1;
      BlockCounts(b[..n], i);
      TimeCounts(b[n], i);
      CountsJoin(Nodes(b[..n]), NodesAt(b[n]), i);
      SumsJoin(Nodes(b[..n]), Errors(b[..n]), NodesAt(b[n]), ErrorsAt(b[n]), i);
    }
  }

  lemma {:induction false} MeansAreSum(nodes: seq<int>, values: seq<real>, means: seq<real>, k: nat)
    requires |nodes| == |values| && Covered(nodes) && |means| == INSTRUMENTS && k <= INSTRUMENTS
    requires forall i :: 0 <= i < INSTRUMENTS ==> means[i] == InstrumentMean(nodes, values, i)
    ensures Total(means[..k]) == MeansBelow(nodes, values, k)
  {
    if k > 0 {
      MeansAreSum(nodes, values, means, k - 1);
      assert means[..k][..k - 1] == means[..k - 1];
    }
  }

  /** Reducing a block's statistics gives the instrument-balanced mean squared error of its rows. */
  lemma {:induction false} ReductionIsBalanced(b: Block)
    requires SufficientStatistics(b).Ok?
    ensures Covered(Nodes(b))
    ensures ReduceStatistics(SufficientStatistics(b).value).mse == BalancedMean(Nodes(b), Errors(b))
  {
    var s := SufficientStatistics(b).value;
    var mse := Ratios(s.sse, s.counts);
    forall i: nat | i < INSTRUMENTS
      ensures CountOf(Nodes(b), i) == s.counts[i] > 0
      ensures InstrumentSum(Nodes(b), Errors(b), i) == s.sse[i]
    {
      BlockCounts(b, i);
    }
    MeansAreSum(Nodes(b), Errors(b), mse, INSTRUMENTS);
    assert mse[..INSTRUMENTS] == mse;
  }

  /** Pooling first and reducing then is evaluating the concatenated rows: the union within each
      instrument, then equal weight. */
  lemma {:induction false} PoolingIsConcatenating(a: Block, b: Block)
    requires SufficientStatistics(a).Ok? && SufficientStatistics(b).Ok?
    ensures Covered(Nodes(a + b))
    ensures ReduceStatistics(Added(SufficientStatistics(a).value, SufficientStatistics(b).value)).mse ==
            BalancedMean(Nodes(a + b), Errors(a + b))
    ensures Nodes(a + b) == Nodes(a) + Nodes(b) && Errors(a + b) == Errors(a) + Errors(b)
  {
    AddingIsConcatenating(a, b);
    ReductionIsBalanced(a + b);
    RowsJoin(a, b);
  }

  lemma {:induction false} RowsJoin(a: Block, b: Block)
    ensures Nodes(a + b) == Nodes(a) + Nodes(b) && Errors(a + b) == Errors(a) + Errors(b)
  {
    NodesJoin(a, b);
    ErrorsJoin(a, b);
  }

  lemma {:induction false} NodesJoin(a: Block, b: Block)
    ensures Nodes(a + b) == Nodes(a) + Nodes(b)
  {
    if b == [] {
      assert a + b == a;
    } else {
      var n := |b| - 1;
      assert (a + b)[..|a + b| - 1] == a + b[..n];
      NodesJoin(a, b[..n]);
    }
  }

  lemma {:induction false} ErrorsJoin(a: Block, b: Block)
    ensures Errors(a + b) == Errors(a) + Errors(b)
  {
    if b == [] {
      assert a + b == a;
    } else {
      var n := |b| - 1;
      assert (a + b)[..|a + b| - 1] == a + b[..n];
      ErrorsJoin(a, b[..n]);
    }
  }

  // ---- Comparisons

  function Differences(b: seq<real>, c: seq<real>): (r: seq<real>)
    requires |b| == |c|
  {
    seq(|b|, i requires 0 <= i < |b| => b[i] - c[i])
  }

  lemma {:induction false} SumOfDifferences(b: seq<real>, c: seq<real>)
    requires |b| == |c|
    ensures Total(Differences(b, c)) == Total(b) - Total(c)
  {
    if b != [] {
      var n := |b| - 1;
      assert Differences(b, c)[..n] == Differences(b[..n], c[..n]);
      SumOfDifferences(b[..n], c[..n]);
    }
  }

  /** The difference of two means is the mean of the differences. */
  lemma {:induction false} DeltaIsMeanOfDeltas(b: seq<real>, c: seq<real>)
    requires |b| == |c| && b != []
    ensures Mean(b) - Mean(c) == Mean(Differences(b, c))
  {
    SumOfDifferences(b, c);
    DivisionAdds(Total(Differences(b, c)), Total(c), |b| as real);
  }

  function InstrumentMeans(nodes: seq<int>, values: seq<real>): (r: seq<real>)
    requires |nodes| == |values| && Covered(nodes)
  {
    seq(INSTRUMENTS, i requires 0 <= i < INSTRUMENTS => InstrumentMean(nodes, values, i))
  }

  /** On common rows, the difference of the instrument-balanced errors of two forecasts is the mean of
      their per-instrument differences. */
  lemma {:induction false} AggregateDeltaIsMean(nodes: seq<int>, candidate: seq<real>, comparator: seq<real>)
    requires |nodes| == |candidate| == |comparator| && Covered(nodes)
    ensures BalancedMean(nodes, comparator) - BalancedMean(nodes, candidate) ==
            Mean(Differences(InstrumentMeans(nodes, comparator), InstrumentMeans(nodes, candidate)))
  {
    var b, c := InstrumentMeans(nodes, comparator), InstrumentMeans(nodes, candidate);
    assert b[..INSTRUMENTS] == b && c[..INSTRUMENTS] == c;
    MeansAreSum(nodes, comparator, b, INSTRUMENTS);
    MeansAreSum(nodes, candidate, c, INSTRUMENTS);
    DeltaIsMeanOfDeltas(b, c);
  }

  function CountPositive(s: seq<real>): (r: nat) {
    if s == [] then 0 else CountPositive(s[..|s| - 1]) + if s[|s| - 1] > 0.0 then 1 else 0
  }

  function Positives(s: seq<real>): (r: seq<real>) {
    seq(|s|, i requires 0 <= i < |s| => if s[i] > 0.0 then s[i] else 0.0)
  }

  function Greatest(s: seq<real>): (r: real)
    requires s != []
  {
    if |s| == 1 then s[0]
    else
      var before := Greatest(s[..|s| - 1]);
      if before < s[|s| - 1] then s[|s| - 1] else before
  }

  datatype Comparison = Comparison(delta: real, instrumentDelta: seq<real>, breadth: nat, bestShare: real,
                                   commodityBreadth: nat, fxBreadth: nat, indexBreadth: nat)

  /** Candidate against baseline on one block. */
  function Compare(candidate: Reduced, baseline: Reduced): (r: Comparison)
    requires |candidate.instrumentMse| == |baseline.instrumentMse| == INSTRUMENTS
  {
    var deltas := Differences(baseline.instrumentMse, candidate.instrumentMse);
    var positive := Positives(deltas);
    Comparison(baseline.mse - candidate.mse, deltas, CountPositive(positive),
               if Total(positive) > 0.0 then Greatest(positive) / Total(positive) else 1.0,
               CountPositive(deltas[..COMMODITIES]), CountPositive(deltas[COMMODITIES..CURRENCIES]),
               CountPositive(deltas[CURRENCIES..]))
  }

  lemma {:induction false} GreatestIsBetween(s: seq<real>)
    requires s != [] && forall i :: 0 <= i < |s| ==> s[i] >= 0.0
    ensures 0.0 <= Greatest(s) <= Total(s) <= |s| as real * Greatest(s)
  {
    if |s| > 1 {
      var n := |s| - 1;
      GreatestIsBetween(s[..n]);
    } else {
      assert Total(s[..0]) == 0.0;
    }
  }

  lemma {:induction false} PositivesCount(a: seq<real>, b: seq<real>)
    ensures CountPositive(a + b) == CountPositive(a) + CountPositive(b)
  {
    if b == [] {
      assert a + b == a;
    } else {
      assert (a + b)[..|a + b| - 1] == a + b[..|b| - 1];
      PositivesCount(a, b[..|b| - 1]);
    }
  }

  lemma {:induction false} ClampingKeepsCount(s: seq<real>)
    ensures CountPositive(Positives(s)) == CountPositive(s)
  {
    if s != [] {
      var n := |s| - 1;
      assert Positives(s)[..n] == Positives(s[..n]);
      ClampingKeepsCount(s[..n]);
    }
  }

  lemma {:induction false} BreadthIsOfGroups(deltas: seq<real>)
    requires |deltas| == INSTRUMENTS
    ensures CountPositive(Positives(deltas)) ==
            CountPositive(deltas[..COMMODITIES]) + CountPositive(deltas[COMMODITIES..CURRENCIES]) +
            CountPositive(deltas[CURRENCIES..])
  {
    ClampingKeepsCount(deltas);
    PositivesCount(deltas[..COMMODITIES], deltas[COMMODITIES..CURRENCIES]);
    PositivesCount(deltas[..CURRENCIES], deltas[CURRENCIES..]);
    assert deltas[..COMMODITIES] + deltas[COMMODITIES..CURRENCIES] == deltas[..CURRENCIES];
    assert deltas[..CURRENCIES] + deltas[CURRENCIES..] == deltas;
  }

  lemma {:induction false} ShareOfBest(positive: seq<real>)
    requires |positive| == INSTRUMENTS && forall i :: 0 <= i < |positive| ==> positive[i] >= 0.0
    requires Total(positive) > 0.0
    ensures Greatest(positive) / Total(positive) <= 1.0 <= INSTRUMENTS as real * (Greatest(positive) / Total(positive))
  {
    GreatestIsBetween(positive);
    ShareIsBetween(Greatest(positive), Total(positive), INSTRUMENTS as real);
  }

  /** The aggregate delta is the mean of the instrument deltas, the breadth is that of the three groups
      together, and the best instrument's share lies between an equal share and the whole. */
  lemma {:induction false} ComparisonIsConsistent(candidate: Statistics, baseline: Statistics)
    requires Complete(candidate) && Complete(baseline)
    ensures var c := Compare(ReduceStatistics(candidate), ReduceStatistics(baseline));
      && c.delta == Mean(c.instrumentDelta)
      && c.breadth == c.commodityBreadth + c.fxBreadth + c.indexBreadth
      && c.bestShare <= 1.0 <= INSTRUMENTS as real * c.bestShare
  {
    var b, k := ReduceStatistics(baseline).instrumentMse, ReduceStatistics(candidate).instrumentMse;
    var deltas := Differences(b, k);
    DeltaIsMeanOfDeltas(b, k);
    BreadthIsOfGroups(deltas);
    if Total(Positives(deltas)) > 0.0 {
      ShareOfBest(Positives(deltas));
    }
  }

  lemma {:induction false} ShareIsBetween(greatest: real, sum: real, n: real)
    requires sum > 0.0 && 0.0 <= greatest <= sum <= n * greatest
    ensures greatest / sum <= 1.0 <= n * (greatest / sum)
  {
    var share := greatest / sum;
    assert share * sum == greatest;
    assert (n * share) * sum == n * (share * sum);
  }

  // ---- The table of both blocks and their union

  type Family = int

  datatype Entry = Entry(reduced: Reduced, skill: real)

  /** One minus the ratio to the zero forecast's error. */
  function Skill(mse: real, zero: real): (r: real)
    requires zero != 0.0
  {
    1.0 - mse / zero
  }

  predicate AllComplete(block: map<Family, Statistics>) {
    forall f :: f in block ==> Complete(block[f])
  }

  /** Adds the two blocks family by family; a family of the first block must be in the second. */
  method Combine(first: map<Family, Statistics>, second: map<Family, Statistics>)
    returns (r: Result<map<Family, Statistics>>)
    requires AllComplete(first) && AllComplete(second)
    ensures r.Ok? <==> first.Keys <= second.Keys
    ensures r.Ok? ==> r.value.Keys == first.Keys && AllComplete(r.value)
    ensures r.Ok? ==> forall f :: f in first ==> r.value[f] == Added(first[f], second[f])
  {
    var combined: map<Family, Statistics> := map[];
    var left := first.Keys;
    while left != {}
      invariant left <= first.Keys && combined.Keys == first.Keys - left
      invariant forall f :: f in first && f !in left ==> f in second
      invariant forall f :: f in combined ==> f in second && combined[f] == Added(first[f], second[f])
      decreases |left|
    {
      assert (forall f :: f !in left) ==> left == {};
      var family :| family in left;
      if family !in second {
        return Err("family is missing from the second block");
      }
      combined := combined[family := Added(first[family], second[family])];
      left := left - {family};
    }
    forall f | f in first.Keys
      ensures f in second.Keys
    {
      assert f in first && f !in left;
    }
    return Ok(combined);
  }

  /** The table of a block: every family reduced, with its skill over the zero forecast. */
  predicate IsTable(table: map<Family, Entry>, block: map<Family, Statistics>, zero: Family)
    requires AllComplete(block)
  {
    && zero in block && ReduceStatistics(block[zero]).mse != 0.0
    && table.Keys == block.Keys
    && (forall f :: f in block ==>
          table[f].reduced == ReduceStatistics(block[f]) &&
          table[f].skill == Skill(ReduceStatistics(block[f]).mse, ReduceStatistics(block[zero]).mse))
  }

  /** Reduces every family of a block and adds its skill over the zero forecast. */
  method Tabulate(block: map<Family, Statistics>, zero: Family) returns (r: Result<map<Family, Entry>>)
    requires AllComplete(block)
    ensures r.Ok? <==> zero in block && ReduceStatistics(block[zero]).mse != 0.0
    ensures r.Ok? ==> IsTable(r.value, block, zero)
  {
    if zero !in block {
      return Err("zero family is missing");
    }
    var base := ReduceStatistics(block[zero]).mse;
    if base == 0.0 {
      return Err("division by zero");
    }
    return Ok(map f | f in block :: Entry(ReduceStatistics(block[f]), Skill(ReduceStatistics(block[f]).mse, base)));
  }

  /** Both blocks added family by family. */
  function Both(first: map<Family, Statistics>, second: map<Family, Statistics>): (both: map<Family, Statistics>)
    requires AllComplete(first) && AllComplete(second) && first.Keys <= second.Keys
    ensures both.Keys == first.Keys && AllComplete(both)
  {
    map f | f in first && f in second :: Added(first[f], second[f])
  }

  /** The families match and no zero forecast is free of error. */
  predicate Tabulable(first: map<Family, Statistics>, second: map<Family, Statistics>, zero: Family)
    requires AllComplete(first) && AllComplete(second)
  {
    && first.Keys <= second.Keys && zero in first && zero in second
    && ReduceStatistics(first[zero]).mse != 0.0
    && ReduceStatistics(second[zero]).mse != 0.0
    && ReduceStatistics(Added(first[zero], second[zero])).mse != 0.0
  }

  /** `complete_table`: both blocks and their combination. */
  method CompleteTable(first: map<Family, Statistics>, second: map<Family, Statistics>, zero: Family)
    returns (r: Result<(map<Family, Entry>, map<Family, Entry>, map<Family, Entry>)>)
    requires AllComplete(first) && AllComplete(second)
    ensures r.Ok? <==> Tabulable(first, second, zero)
    ensures r.Ok? ==> IsTable(r.value.0, first, zero) && IsTable(r.value.1, second, zero)
    ensures r.Ok? ==> IsTable(r.value.2, Both(first, second), zero)
  {
    var combined := Combine(first, second);
    if combined.Err? {
      return Err(combined.reason);
    }
    var both := Both(first, second);
    forall f | f in first.Keys
      ensures combined.value[f] == both[f]
    {
      assert f in first && f in second.Keys && f in second;
    }
    assert combined.value == both;
    var a := Tabulate(first, zero);
    var b := Tabulate(second, zero);
    var c := Tabulate(combined.value, zero);
    if a.Err? || b.Err? || c.Err? {
      return Err("no skill without a zero forecast that errs");
    }
    return Ok((a.value, b.value, c.value));
  }
}
