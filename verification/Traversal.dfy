/** The training objective evaluated row by row and by groups of distinct timestamps. */
module Traversal {
  import opened Ascending
  import opened Balance
  import opened Grouping
  import opened Sequences

  /** The model's forward pass for a timestamp and a node. */
  type Forward = (int, int) -> real

  /** Rows by position: timestamp, target node, residual. */
  datatype Batch = Batch(stamps: seq<int>, nodes: seq<int>, residuals: seq<real>)

  predicate Rectangular(b: Batch) {
    |b.stamps| == |b.nodes| == |b.residuals|
  }

  function Outputs(b: Batch, f: Forward): (r: seq<real>)
    requires Rectangular(b)
  {
    seq(|b.stamps|, k requires 0 <= k < |b.stamps| => f(b.stamps[k], b.nodes[k]))
  }

  function SquaredError(output: real, residual: real): (r: real) {
    (output - residual) * (output - residual)
  }

  function Errors(b: Batch, f: Forward): (r: seq<real>)
    requires Rectangular(b)
  {
    seq(|b.stamps|, k requires 0 <= k < |b.stamps| => SquaredError(f(b.stamps[k], b.nodes[k]), b.residuals[k]))
  }

  /** The objective: the equal-instrument mean of the mean squared errors, and each row's own output. */
  ghost predicate IsObjective(b: Batch, f: Forward, loss: real, outputs: seq<real>)
    requires Rectangular(b) && Covered(b.nodes)
  {
    loss == BalancedMean(b.nodes, Errors(b, f)) && outputs == Outputs(b, f)
  }

  function Min(a: nat, b: nat): (r: nat) {
    if a < b then a else b
  }

  // ---- Row by row

  ghost function LossTo(b: Batch, f: Forward, counts: seq<nat>, k: nat): (r: real)
    requires Rectangular(b) && k <= |b.nodes| && Canonical(b.nodes) && Positive(counts)
  {
    WeightedSum(b.nodes[..k], Errors(b, f)[..k], counts)
  }

  lemma {:induction false} OneMore(b: Batch, f: Forward, counts: seq<nat>, row: nat)
    requires Rectangular(b) && row < |b.nodes| && Canonical(b.nodes) && Positive(counts)
    ensures LossTo(b, f, counts, row + 1) ==
            LossTo(b, f, counts, row) +
            Weighted(SquaredError(f(b.stamps[row], b.nodes[row]), b.residuals[row]), counts[b.nodes[row]])
  {
    var errors := Errors(b, f);
    assert b.nodes[..row + 1][..row] == b.nodes[..row] && errors[..row + 1][..row] == errors[..row];
  }

  method ScalarChunk(b: Batch, f: Forward, start: nat, stop: nat) returns (chunk: seq<real>)
    requires Rectangular(b) && start <= stop <= |b.stamps|
    ensures |chunk| == stop - start
    ensures forall k :: 0 <= k < |chunk| ==> chunk[k] == f(b.stamps[start + k], b.nodes[start + k])
  {
    chunk := [];
    for row := start to stop
      invariant |chunk| == row - start
      invariant forall k :: 0 <= k < |chunk| ==> chunk[k] == f(b.stamps[start + k], b.nodes[start + k])
    {
      chunk := chunk + [f(b.stamps[row], b.nodes[row])];
    }
  }

  method AddChunk(b: Batch, f: Forward, counts: seq<nat>, start: nat, chunk: seq<real>, loss: real)
    returns (next: real)
    requires Rectangular(b) && Canonical(b.nodes) && Positive(counts) && start + |chunk| <= |b.nodes|
    requires forall k :: 0 <= k < |chunk| ==> chunk[k] == f(b.stamps[start + k], b.nodes[start + k])
    requires loss == LossTo(b, f, counts, start)
    ensures next == LossTo(b, f, counts, start + |chunk|)
  {
    next := loss;
    for offset := 0 to |chunk|
      invariant next == LossTo(b, f, counts, start + offset)
    {
      var row := start + offset;
      OneMore(b, f, counts, row);
      next := next + Weighted(SquaredError(chunk[offset], b.residuals[row]), counts[b.nodes[row]]);
    }
  }

  /** The scalar evaluation, in chunks of rows. */
  method OracleObjective(b: Batch, f: Forward, width: nat) returns (r: Result<(real, seq<real>)>)
    requires Rectangular(b) && width >= 1
    ensures r.Ok? <==> Canonical(b.nodes) && Covered(b.nodes)
    ensures r.Ok? ==> IsObjective(b, f, r.value.0, r.value.1)
  {
    var counted := ManualCounts(b.nodes);
    if counted.Err? {
      return Err(counted.reason);
    }
    var counts, n := counted.value, |b.nodes|;
    var loss, outputs := 0.0, [];
    while |outputs| < n
      invariant |outputs| <= n && outputs == Outputs(b, f)[..|outputs|]
      invariant loss == LossTo(b, f, counts, |outputs|)
      decreases n - |outputs|
    {
      var start := |outputs|;
      var chunk := ScalarChunk(b, f, start, Min(start + width, n));
      loss := AddChunk(b, f, counts, start, chunk, loss);
      outputs := outputs + chunk;
    }
    WholeLoss(b, f, counts);
    return Ok((loss, outputs));
  }

  lemma {:induction false} WholeLoss(b: Batch, f: Forward, counts: seq<nat>)
    requires Rectangular(b) && Canonical(b.nodes) && Covered(b.nodes) && AreCounts(counts, b.nodes)
    ensures LossTo(b, f, counts, |b.nodes|) == BalancedMean(b.nodes, Errors(b, f))
  {
    assert b.nodes[..|b.nodes|] == b.nodes && Errors(b, f)[..|b.nodes|] == Errors(b, f);
    WeightedSumIsBalanced(b.nodes, Errors(b, f), counts);
  }

  // ---- By groups of distinct timestamps

  /** What the rows with an output contribute to the loss. */
  function SeenSum(terms: seq<real>, outputs: seq<Option<real>>): (r: real)
    requires |terms| == |outputs|
  {
    if terms == [] then 0.0
    else
      var n := |terms| - 1;
      SeenSum(terms[..n], outputs[..n]) + if outputs[n].Some? then terms[n] else 0.0
  }

  lemma {:induction false} SeenMore(terms: seq<real>, outputs: seq<Option<real>>, row: nat, output: real)
    requires |terms| == |outputs| && row < |terms| && outputs[row].None?
    ensures SeenSum(terms, outputs[row := Some(output)]) == SeenSum(terms, outputs) + terms[row]
  {
    var n := |terms| - 1;
    if row < n {
      assert outputs[row := Some(output)][..n] == outputs[..n][row := Some(output)];
      SeenMore(terms[..n], outputs[..n], row, output);
    } else {
      assert outputs[row := Some(output)][..n] == outputs[..n];
    }
  }

  lemma {:induction false} NoneSeen(terms: seq<real>, outputs: seq<Option<real>>)
    requires |terms| == |outputs| && forall r :: 0 <= r < |outputs| ==> outputs[r].None?
    ensures SeenSum(terms, outputs) == 0.0
  {
    if terms != [] {
      NoneSeen(terms[..|terms| - 1], outputs[..|terms| - 1]);
    }
  }

  /** The rows' contributions to the loss. */
  ghost function Terms(b: Batch, f: Forward, counts: seq<nat>): (r: seq<real>)
    requires Rectangular(b) && Canonical(b.nodes) && Positive(counts)
  {
    seq(|b.nodes|, k requires 0 <= k < |b.nodes| => Weighted(Errors(b, f)[k], counts[b.nodes[k]]))
  }

  lemma {:induction false} AllSeen(b: Batch, f: Forward, counts: seq<nat>, outputs: seq<Option<real>>, k: nat)
    requires Rectangular(b) && Canonical(b.nodes) && Positive(counts) && |outputs| == |b.nodes| && k <= |b.nodes|
    requires forall r :: 0 <= r < |outputs| ==> outputs[r].Some?
    ensures SeenSum(Terms(b, f, counts)[..k], outputs[..k]) == LossTo(b, f, counts, k)
  {
    var terms := Terms(b, f, counts);
    if k > 0 {
      AllSeen(b, f, counts, outputs, k - 1);
      OneMore(b, f, counts, k - 1);
      assert terms[..k][..k - 1] == terms[..k - 1] && outputs[..k][..k - 1] == outputs[..k - 1];
    }
  }

  /** The production forward pass of a group of timestamps: for each target, its node at its timestamp. */
  function ForwardGrouped(f: Forward, group: seq<int>, targets: seq<int>, targetBatch: seq<nat>): (r: seq<real>)
    requires |targets| == |targetBatch| && forall k :: 0 <= k < |targetBatch| ==> targetBatch[k] < |group|
  {
    seq(|targets|, k requires 0 <= k < |targets| => f(group[targetBatch[k]], targets[k]))
  }

  /** Which rows have an output: exactly those of the timestamps done, and each its own. */
  ghost predicate Progress(b: Batch, f: Forward, outputs: seq<Option<real>>, done: seq<int>, rows: seq<nat>)
    requires Rectangular(b)
  {
    && |outputs| == |b.nodes|
    && (forall r: nat :: r < |outputs| ==> (outputs[r].Some? <==> b.stamps[r] in done || r in rows))
    && (forall r: nat :: r < |outputs| && outputs[r].Some? ==> outputs[r].value == f(b.stamps[r], b.nodes[r]))
  }

  /** The forward pass of one group, each result addressed by the position of its row's timestamp. */
  method PredictGroup(b: Batch, f: Forward, group: seq<int>, rows: seq<nat>) returns (predicted: seq<real>)
    requires Rectangular(b) && forall r :: r in rows ==> r < |b.stamps| && b.stamps[r] in group
    ensures |predicted| == |rows|
    ensures forall k :: 0 <= k < |rows| ==>
              rows[k] < |b.stamps| && predicted[k] == f(b.stamps[rows[k]], b.nodes[rows[k]])
  {
    forall k | 0 <= k < |rows|
      ensures rows[k] < |b.stamps| && b.stamps[rows[k]] in group
    {
      assert rows[k] in rows;
    }
    var targetBatch: seq<nat> :=
      seq(|rows|, k requires 0 <= k < |rows| && rows[k] < |b.stamps| && b.stamps[rows[k]] in group =>
        IndexOf(group, b.stamps[rows[k]]));
    var targets := seq(|rows|, k requires 0 <= k < |rows| && rows[k] < |b.nodes| => b.nodes[rows[k]]);
    predicted := ForwardGrouped(f, group, targets, targetBatch);
  }

  method VisitGroup(b: Batch, f: Forward, counts: seq<nat>, group: seq<int>, ghost done: seq<int>,
                    loss: real, outputs: seq<Option<real>>)
    returns (nextLoss: real, next: seq<Option<real>>)
    requires Rectangular(b) && Canonical(b.nodes) && Positive(counts)
    requires NoRepeat(group) && forall t :: t in group ==> t !in done
    requires Progress(b, f, outputs, done, []) && loss == SeenSum(Terms(b, f, counts), outputs)
    ensures Progress(b, f, next, done + group, []) && nextLoss == SeenSum(Terms(b, f, counts), next)
  {
    var rows := RowsOf(b.stamps, group);
    RowsOfAre(b.stamps, group);
    var predicted := PredictGroup(b, f, group, rows);
    ghost var terms := Terms(b, f, counts);
    nextLoss, next := loss, outputs;
    for offset := 0 to |rows|
      invariant Progress(b, f, next, done, rows[..offset]) && nextLoss == SeenSum(terms, next)
    {
      var row, output := rows[offset], predicted[offset];
      NotYetVisited(b, f, next, done, group, rows, offset);
      SeenMore(terms, next, row, output);
      nextLoss := nextLoss + Weighted(SquaredError(output, b.residuals[row]), counts[b.nodes[row]]);
      next := next[row := Some(output)];
      assert rows[..offset + 1] == rows[..offset] + [row];
    }
    assert rows[..|rows|] == rows;
  }

  lemma {:induction false} NotYetVisited(b: Batch, f: Forward, outputs: seq<Option<real>>, done: seq<int>,
                                         group: seq<int>,
                      rows: seq<nat>, offset: nat)
    requires Rectangular(b) && NoRepeat(rows) && offset < |rows|
    requires forall t :: t in group ==> t !in done
    requires forall r: nat :: r in rows <==> r < |b.stamps| && b.stamps[r] in group
    requires Progress(b, f, outputs, done, rows[..offset])
    ensures rows[offset] < |outputs| && outputs[rows[offset]].None?
  {
    var row := rows[offset];
    assert row in rows && row !in rows[..offset];
    var t := b.stamps[row];
    assert t in group && t !in done;
  }

  /** The grouped evaluation, in chunks of distinct timestamps. */
  method GroupedObjective(b: Batch, f: Forward, width: nat) returns (r: Result<(real, seq<real>)>)
    requires Rectangular(b) && width >= 1
    ensures r.Ok? <==> Canonical(b.nodes) && Covered(b.nodes)
    ensures r.Ok? ==> IsObjective(b, f, r.value.0, r.value.1)
  {
    var counted := GroupedCounts(b.nodes);
    if counted.Err? {
      return Err(counted.reason);
    }
    if !Canonical(b.nodes) {
      return Err("target node out of range");
    }
    var counts := counted.value;
    var ordered := DistinctStamps(b.stamps);
    var loss, outputs: seq<Option<real>> := 0.0, seq(|b.nodes|, _ => None);
    NoneSeen(Terms(b, f, counts), outputs);
    var start := 0;
    while start < |ordered|
      invariant 0 <= start <= |ordered|
      invariant Progress(b, f, outputs, ordered[..start], [])
      invariant loss == SeenSum(Terms(b, f, counts), outputs)
    {
      var stop := Min(start + width, |ordered|);
      var group := ordered[start..stop];
      loss, outputs := VisitGroup(b, f, counts, group, ordered[..start], loss, outputs);
      assert ordered[..start] + group == ordered[..stop];
      start := stop;
    }
    assert ordered[..|ordered|] == ordered;
    EveryRowVisited(b, f, counts, outputs, ordered);
    return Ok((loss, seq(|outputs|, k requires 0 <= k < |outputs| && outputs[k].Some? => outputs[k].value)));
  }

  lemma {:induction false} EveryRowVisited(b: Batch, f: Forward, counts: seq<nat>, outputs: seq<Option<real>>,
                                           ordered: seq<int>)
    requires Rectangular(b) && Canonical(b.nodes) && Covered(b.nodes) && AreCounts(counts, b.nodes)
    requires Progress(b, f, outputs, ordered, []) && forall t :: t in b.stamps ==> t in ordered
    ensures forall r :: 0 <= r < |outputs| ==> outputs[r].Some?
    ensures SeenSum(Terms(b, f, counts), outputs) == BalancedMean(b.nodes, Errors(b, f))
  {
    forall r | 0 <= r < |outputs|
      ensures outputs[r].Some?
    {
      var row: nat := r;
      var t := b.stamps[row];
      assert t in b.stamps && t in ordered;
      assert outputs[row].Some?;
    }
    var n := |b.nodes|;
    AllSeen(b, f, counts, outputs, n);
    assert Terms(b, f, counts)[..n] == Terms(b, f, counts) && outputs[..n] == outputs;
    WholeLoss(b, f, counts);
  }

  /** Row by row or by groups, at any two widths: the same loss and the same outputs. */
  method CompareObjectives(b: Batch, f: Forward, oracleWidth: nat, groupedWidth: nat) returns (same: bool)
    requires Rectangular(b) && oracleWidth >= 1 && groupedWidth >= 1
    ensures same
  {
    var oracle := OracleObjective(b, f, oracleWidth);
    var grouped := GroupedObjective(b, f, groupedWidth);
    same := oracle.Ok? == grouped.Ok? && (oracle.Ok? ==> oracle.value == grouped.value);
  }
}
