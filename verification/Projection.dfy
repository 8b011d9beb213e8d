/** The training rows of a stage, the timestamps they need, and their weights. */
module Projection {
  import opened Ascending
  import opened Balance
  import opened Grouping
  import opened Sequences
  import opened Pipeline

  datatype TrainingRow = TrainingRow(stamp: int, node: int, residual: real, block: int)

  /** A provider tensor is named by its timestamp and its identity. */
  datatype Projected = Projected(rows: seq<TrainingRow>, provider: seq<(int, int)>)

  function Authorised(rows: seq<TrainingRow>, blocks: set<int>): (r: seq<TrainingRow>) {
    if rows == [] then []
    else
      var before := Authorised(rows[..|rows| - 1], blocks);
      if rows[|rows| - 1].block in blocks then before + [rows[|rows| - 1]] else before
  }

  function StampsOf(rows: seq<TrainingRow>): (r: seq<int>) {
    seq(|rows|, k requires 0 <= k < |rows| => rows[k].stamp)
  }

  predicate AllNamed(stamps: seq<int>, identities: map<int, int>) {
    forall k :: 0 <= k < |stamps| ==> stamps[k] in identities
  }

  function Named(stamps: seq<int>, identities: map<int, int>): (r: seq<(int, int)>)
    requires AllNamed(stamps, identities)
  {
    seq(|stamps|, k requires 0 <= k < |stamps| && stamps[k] in identities => (stamps[k], identities[stamps[k]]))
  }

  function Project(rows: seq<TrainingRow>, identities: map<int, int>, blocks: set<int>): (r: Result<Projected>) {
    var kept := Authorised(rows, blocks);
    var stamps := DistinctStamps(StampsOf(kept));
    if kept == [] then Err("stage cache has no authorised training rows")
    else if !AllNamed(stamps, identities) then Err("unknown timestamp")
    else Ok(Projected(kept, Named(stamps, identities)))
  }

  /** The kept rows stand at ascending positions: those of the authorised rows, all of them. */
  ghost predicate KeptAt(rows: seq<TrainingRow>, blocks: set<int>, kept: seq<TrainingRow>, at: seq<nat>) {
    && |kept| == |at|
    && (forall k :: 0 <= k < |at| ==> at[k] < |rows| && rows[at[k]].block in blocks && kept[k] == rows[at[k]])
    && (forall j, k :: 0 <= j < k < |at| ==> at[j] < at[k])
    && (forall i: nat :: i < |rows| && rows[i].block in blocks ==> i in at)
  }

  lemma {:induction false} KeepOne(rows: seq<TrainingRow>, blocks: set<int>, kept: seq<TrainingRow>, at: seq<nat>,
                                   row: TrainingRow)
    requires KeptAt(rows, blocks, kept, at)
    ensures row.block in blocks ==> KeptAt(rows + [row], blocks, kept + [row], at + [|rows|])
    ensures row.block !in blocks ==> KeptAt(rows + [row], blocks, kept, at)
  {
    var n := |rows|;
    var more := at + [n];
    assert more[|at|] == n;
    forall i: nat | i < n && rows[i].block in blocks ensures i in more {
      assert i in at;
    }
  }

  lemma {:induction false} AuthorisedAre(rows: seq<TrainingRow>, blocks: set<int>) returns (at: seq<nat>)
    ensures KeptAt(rows, blocks, Authorised(rows, blocks), at)
  {
    at := [];
    if rows != [] {
      var n := |rows| - 1;
      at := AuthorisedAre(rows[..n], blocks);
      KeepOne(rows[..n], blocks, Authorised(rows[..n], blocks), at, rows[n]);
      assert rows == rows[..n] + [rows[n]];
      if rows[n].block in blocks {
        at := at + [n];
      }
    }
  }

  /** A projection holds the authorised rows in their order, each as often as it was there, and names each
      of their timestamps once and no other timestamp. */
  lemma {:induction false} ProjectionIsExact(rows: seq<TrainingRow>, identities: map<int, int>, blocks: set<int>)
      returns (at: seq<nat>)
    requires Project(rows, identities, blocks).Ok?
    ensures var p := Project(rows, identities, blocks).value;
      && KeptAt(rows, blocks, p.rows, at)
      && NoRepeat(Keys(p.provider))
      && (forall t :: t in Keys(p.provider) <==> exists k :: 0 <= k < |p.rows| && p.rows[k].stamp == t)
  {
    at := AuthorisedAre(rows, blocks);
    var p := Project(rows, identities, blocks).value;
    var stamps := StampsOf(p.rows);
    assert Keys(p.provider) == DistinctStamps(stamps);
    forall t
      ensures t in stamps <==> exists k :: 0 <= k < |p.rows| && p.rows[k].stamp == t
    {
      if k :| 0 <= k < |p.rows| && p.rows[k].stamp == t {
        assert stamps[k] == t;
      }
    }
  }

  /** So a projected batch is cacheable as soon as its named tensors can be transformed. */
  lemma {:induction false} ProjectionIsCacheable<T, U>(rows: seq<TrainingRow>, identities: map<int, int>,
                                                       blocks: set<int>,
                                    tensors: map<int, T>, f: T -> Result<U>)
    requires Project(rows, identities, blocks).Ok?
    ensures var p := Project(rows, identities, blocks).value;
      Cacheable(StampsOf(p.rows), Keys(p.provider), tensors, f) <==>
      forall t :: t in Keys(p.provider) ==> t in tensors && f(tensors[t]).Ok?
  {
    var p := Project(rows, identities, blocks).value;
    var keys := Keys(p.provider);
    assert keys == DistinctStamps(StampsOf(p.rows));
    if forall k :: 0 <= k < |keys| ==> keys[k] in tensors && f(tensors[keys[k]]).Ok? {
      forall t | t in keys
        ensures t in tensors && f(tensors[t]).Ok?
      {
        var k :| 0 <= k < |keys| && keys[k] == t;
      }
    } else {
      var k :| 0 <= k < |keys| && !(keys[k] in tensors && f(tensors[keys[k]]).Ok?);
      assert keys[k] in keys;
    }
  }

  // ---- Row weights

  lemma {:induction false} TotalOfWeights(nodes: seq<int>, counts: seq<nat>, weights: seq<real>, ones: seq<real>)
    requires |weights| == |ones| == |nodes| && Canonical(nodes) && Positive(counts)
    requires forall k :: 0 <= k < |nodes| ==> weights[k] == RowWeight(counts[nodes[k]]) && ones[k] == 1.0
    ensures Total(weights) == WeightedSum(nodes, ones, counts)
  {
    if nodes != [] {
      var n := |nodes| - 1;
      TotalOfWeights(nodes[..n], counts, weights[..n], ones[..n]);
    }
  }

  /** The row weights of a training cache: one for each row, and together one. */
  method RowWeights(nodes: seq<int>) returns (r: Result<seq<real>>)
    ensures r.Ok? <==> Canonical(nodes) && Covered(nodes)
    ensures r.Ok? ==> |r.value| == |nodes| && Total(r.value) == 1.0
    ensures r.Ok? ==> forall k :: 0 <= k < |nodes| ==>
              CountOf(nodes, nodes[k]) > 0 && r.value[k] == RowWeight(CountOf(nodes, nodes[k]))
  {
    if !Canonical(nodes) {
      return Err("training cache target node is outside the canonical universe");
    }
    var counted := GroupedCounts(nodes);
    if counted.Err? {
      return Err("training cache must cover every canonical instrument");
    }
    var counts := counted.value;
    var weights := seq(|nodes|, k requires 0 <= k < |nodes| && Canonical(nodes) && Positive(counts) =>
      RowWeight(counts[nodes[k]]));
    ghost var ones := seq(|nodes|, _ => 1.0);
    WeightsSumToOne(nodes, counts);
    TotalOfWeights(nodes, counts, weights, ones);
    return Ok(weights);
  }
}
