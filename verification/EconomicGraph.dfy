/** The fixed economic graph, its symmetric normalisation, and the shuffled control made from it. */
module EconomicGraph {
  import opened Ascending
  import opened Matrices
  import opened Sequences

  datatype Instrument = Commodity(name: int) | Index(name: int) | Fx(base: int, quote: int)

  /** One over the square root; nothing about it is used. */
  type InverseRoot = real -> real

  const SELF_LOOP: real := 1.0
  const SHARED_CURRENCY: real := 0.75

  function ClassWeight(x: Instrument): (r: real) {
    match x
    case Commodity(_) => 0.5
    case Fx(_, _) => 0.35
    case Index(_) => 0.4
  }

  predicate SameClass(x: Instrument, y: Instrument) {
    x.Commodity? == y.Commodity? && x.Index? == y.Index?
  }

  predicate ShareCurrency(x: Instrument, y: Instrument) {
    x.Fx? && y.Fx? && {x.base, x.quote} * {y.base, y.quote} != {}
  }

  /** The weight between two nodes: their strongest relation. */
  function Weight(x: Instrument, y: Instrument): (r: real) {
    if x == y then SELF_LOOP
    else if ShareCurrency(x, y) then SHARED_CURRENCY
    else if SameClass(x, y) then ClassWeight(x)
    else 0.0
  }

  /** The matrix when the pairs before (s, t) were handled: their weights, the self-loops, and zero. */
  function Partial(nodes: seq<Instrument>, i: nat, j: nat, s: nat, t: nat): (r: real)
    requires i < |nodes| && j < |nodes|
  {
    if i == j || i < s || (i == s && j < t) then Weight(nodes[i], nodes[j]) else 0.0
  }

  ghost predicate Filled(a: array2<real>, nodes: seq<Instrument>, s: nat, t: nat)
    reads a
  {
    && a.Length0 == a.Length1 == |nodes|
    && (forall i: nat, j: nat :: i < |nodes| && j < |nodes| ==> a[i, j] == Partial(nodes, i, j, s, t))
  }

  method AddEdge(a: array2<real>, i: nat, j: nat, weight: real)
    requires i < a.Length0 && j < a.Length1
    modifies a
    ensures a[i, j] == if i == j then SELF_LOOP
                       else if old(a[i, j]) == 0.0 || weight > old(a[i, j]) then weight else old(a[i, j])
    ensures forall k: nat, l: nat :: k < a.Length0 && l < a.Length1 && (k != i || l != j) ==> a[k, l] == old(a[k, l])
  {
    if i == j {
      a[i, j] := SELF_LOOP;
    } else if a[i, j] == 0.0 || weight > a[i, j] {
      a[i, j] := weight;
    }
  }

  method ConnectPair(a: array2<real>, nodes: seq<Instrument>, s: nat, t: nat)
    requires NoRepeat(nodes) && s < |nodes| && t < |nodes| && Filled(a, nodes, s, t)
    modifies a
    ensures Filled(a, nodes, s, t + 1)
  {
    if s != t {
      assert a[s, t] == 0.0;
      if SameClass(nodes[s], nodes[t]) {
        AddEdge(a, s, t, ClassWeight(nodes[s]));
      }
      if ShareCurrency(nodes[s], nodes[t]) {
        AddEdge(a, s, t, SHARED_CURRENCY);
      }
      assert nodes[s] != nodes[t];
      assert a[s, t] == Weight(nodes[s], nodes[t]);
    }
  }

  method Connect(nodes: seq<Instrument>) returns (a: array2<real>)
    requires NoRepeat(nodes)
    ensures fresh(a) && Filled(a, nodes, |nodes|, 0)
  {
    a := new real[|nodes|, |nodes|]((_, _) => 0.0);
    for i := 0 to |nodes|
      invariant a.Length0 == a.Length1 == |nodes|
      invariant forall k: nat, l: nat :: k < |nodes| && l < |nodes| ==>
                  a[k, l] == if k == l && k < i then SELF_LOOP else 0.0
    {
      AddEdge(a, i, i, SELF_LOOP);
    }
    for s := 0 to |nodes|
      invariant Filled(a, nodes, s, 0)
    {
      for t := 0 to |nodes|
        invariant Filled(a, nodes, s, t)
      {
        ConnectPair(a, nodes, s, t);
      }
    }
  }

  /** `np.maximum(matrix, matrix.T)`, frozen. */
  method Symmetrised(a: array2<real>) returns (m: Matrix)
    requires a.Length0 == a.Length1
    ensures Square(m, a.Length0)
    ensures forall i: nat, j: nat :: i < a.Length0 && j < a.Length0 ==>
              At(m, i, j) == if a[i, j] < a[j, i] then a[j, i] else a[i, j]
  {
    m := [];
    for i := 0 to a.Length0
      invariant |m| == i && forall k :: 0 <= k < i ==> |m[k]| == a.Length0
      invariant forall k: nat, l: nat :: k < i && l < a.Length0 ==>
                  At(m, k, l) == if a[k, l] < a[l, k] then a[l, k] else a[k, l]
    {
      var row := [];
      for j := 0 to a.Length0
        invariant |row| == j
        invariant forall l: nat :: l < j ==> row[l] == if a[i, l] < a[l, i] then a[l, i] else a[i, l]
      {
        row := row + [if a[i, j] < a[j, i] then a[j, i] else a[i, j]];
      }
      m := m + [row];
    }
  }

  // ---- Degrees and normalisation

  function Degrees(m: Matrix): (r: seq<real>) {
    seq(|m|, i requires 0 <= i < |m| => Total(m[i]))
  }

  /** `np.diag(1 / sqrt(degrees))`. */
  function Normaliser(degrees: seq<real>, root: InverseRoot): (r: Matrix) {
    Entries(|degrees|, (i: nat, j: nat) => if i == j && i < |degrees| then root(degrees[i]) else 0.0)
  }

  function Normalised(m: Matrix, root: InverseRoot): (r: Matrix) {
    var d := Normaliser(Degrees(m), root);
    Product(Product(d, m, |m|), d, |m|)
  }

  predicate Diagonal(d: Matrix, n: nat) {
    Square(d, n) && forall i: nat, j: nat :: i < n && j < n && i != j ==> At(d, i, j) == 0.0
  }

  lemma {:induction false} ScaleRows(d: Matrix, m: Matrix, n: nat, i: nat, j: nat)
    requires Diagonal(d, n) && i < n && j < n
    ensures At(Product(d, m, n), i, j) == At(d, i, i) * At(m, i, j)
  {
    DotOneLeft(d, m, i, j, n, i);
  }

  lemma {:induction false} ScaleColumns(m: Matrix, d: Matrix, n: nat, i: nat, j: nat)
    requires Diagonal(d, n) && i < n && j < n
    ensures At(Product(m, d, n), i, j) == At(m, i, j) * At(d, j, j)
  {
    DotOneRight(m, d, i, j, n, j);
  }

  lemma {:induction false} NormalisedAt(m: Matrix, root: InverseRoot, i: nat, j: nat)
    requires Square(m, |m|) && i < |m| && j < |m|
    ensures At(Normalised(m, root), i, j) == root(Degrees(m)[i]) * At(m, i, j) * root(Degrees(m)[j])
  {
    var d := Normaliser(Degrees(m), root);
    ScaleRows(d, m, |m|, i, j);
    ScaleColumns(Product(d, m, |m|), d, |m|, i, j);
  }

  lemma {:induction false} TotalOfNonnegative(s: seq<real>, k: nat)
    requires forall i :: 0 <= i < |s| ==> s[i] >= 0.0
    requires k < |s|
    ensures Total(s) >= s[k]
  {
    var n := |s| - 1;
    TotalIsNonnegative(s[..n]);
    if k < n {
      TotalOfNonnegative(s[..n], k);
    }
  }

  lemma {:induction false} TotalIsNonnegative(s: seq<real>)
    requires forall i :: 0 <= i < |s| ==> s[i] >= 0.0
    ensures Total(s) >= 0.0
  {
    if s != [] {
      TotalIsNonnegative(s[..|s| - 1]);
    }
  }

  datatype Graph = Graph(nodes: seq<Instrument>, adjacency: Matrix, normalised: Matrix)

  /** Every weight is that of its pair, and the normalised matrix is the normalisation of the weights. */
  ghost predicate Economic(g: Graph, root: InverseRoot) {
    var n := |g.nodes|;
    && Square(g.adjacency, n)
    && (forall i: nat, j: nat :: i < n && j < n ==> At(g.adjacency, i, j) == Weight(g.nodes[i], g.nodes[j]))
    && g.normalised == Normalised(g.adjacency, root)
  }

  lemma {:induction false} WeightedIsSound(m: Matrix, nodes: seq<Instrument>)
    requires Square(m, |nodes|)
    requires forall i: nat, j: nat :: i < |nodes| && j < |nodes| ==> At(m, i, j) == Weight(nodes[i], nodes[j])
    ensures forall i: nat, j: nat :: i < |nodes| && j < |nodes| ==> At(m, i, j) == At(m, j, i)
    ensures forall i: nat :: i < |nodes| ==> At(m, i, i) == SELF_LOOP && Degrees(m)[i] >= SELF_LOOP
  {
    assert forall i: nat, j: nat :: i < |nodes| && j < |nodes| ==> At(m, i, j) == At(m, j, i);
    forall i: nat | i < |nodes|
      ensures At(m, i, i) == SELF_LOOP && Degrees(m)[i] >= SELF_LOOP
    {
      forall j | 0 <= j < |m[i]|
        ensures m[i][j] >= 0.0
      {
        assert At(m, i, j) == Weight(nodes[i], nodes[j]);
      }
      TotalOfNonnegative(m[i], i);
    }
  }

  method BuildEconomicGraph(nodes: seq<Instrument>, root: InverseRoot) returns (g: Graph)
    requires NoRepeat(nodes)
    ensures g.nodes == nodes && Economic(g, root)
  {
    var a := Connect(nodes);
    var matrix := Symmetrised(a);
    assert forall i: nat, j: nat :: i < |nodes| && j < |nodes| ==> At(matrix, i, j) == Weight(nodes[i], nodes[j]);
    WeightedIsSound(matrix, nodes);
    var degrees := Degrees(matrix);
    if exists i :: 0 <= i < |degrees| && degrees[i] <= 0.0 {
      assert false;
    }
    g := Graph(nodes, matrix, Normalised(matrix, root));
  }

  // ---- The shuffled control

  predicate Rotates(p: Matrix, n: nat, offset: nat)
    requires offset < n
  {
    && Square(p, n)
    && (forall i: nat, j: nat :: i < n && j < n ==> At(p, i, j) == if j == Shifted(i, offset, n) then 1.0 else 0.0)
  }

  /** Python's remainder for a positive divisor. */
  function Remainder(a: int, n: nat): (r: nat)
    requires n > 0
    ensures r < n && exists q :: a == q * n + r
  {
    assert a == (a / n) * n + a % n;
    a % n
  }

  function Put(m: Matrix, n: nat, i: nat, j: nat, v: real): (r: Matrix)
    requires Square(m, n) && i < n && j < n
    ensures Square(r, n)
    ensures forall k: nat, l: nat :: k < n && l < n ==> At(r, k, l) == if k == i && l == j then v else At(m, k, l)
  {
    m[i := m[i][j := v]]
  }

  method CyclicPermutation(n: nat, shift: int) returns (r: Result<Matrix>)
    ensures r.Ok? <==> n >= 2 && Remainder(shift, n) != 0
    ensures r.Ok? ==> Rotates(r.value, n, Remainder(shift, n))
  {
    if n < 2 {
      return Err("at least two nodes are required");
    }
    var offset := Remainder(shift, n);
    if offset == 0 {
      return Err("permutation must be fixed-point-free");
    }
    var p := Entries(n, (i: nat, j: nat) => 0.0);
    for index := 0 to n
      invariant Square(p, n)
      invariant forall i: nat, j: nat :: i < n && j < n ==>
                  At(p, i, j) == if i < index && j == Shifted(i, offset, n) then 1.0 else 0.0
    {
      p := Put(p, n, index, Shifted(index, offset, n), 1.0);
    }
    if !Valid(p, n) {
      RotationIsValid(p, n, offset);
      assert false;
    }
    return Ok(p);
  }

  function Column(p: Matrix, n: nat, j: nat): (r: seq<real>) {
    seq(n, i requires 0 <= i => At(p, i, j))
  }

  /** The code's own check: rows and columns sum to one and the diagonal is zero. */
  predicate Valid(p: Matrix, n: nat)
    requires Square(p, n)
  {
    && (forall i :: 0 <= i < n ==> Total(p[i]) == 1.0)
    && (forall j :: 0 <= j < n ==> Total(Column(p, n, j)) == 1.0)
    && (forall i :: 0 <= i < n ==> At(p, i, i) == 0.0)
  }

  lemma {:induction false} TotalOfOne(s: seq<real>, k: int)
    requires forall i :: 0 <= i < |s| ==> s[i] == if i == k then 1.0 else 0.0
    ensures Total(s) == if 0 <= k < |s| then 1.0 else 0.0
  {
    if s != [] {
      TotalOfOne(s[..|s| - 1], k);
    }
  }

  /** The row whose one stands in a column. */
  function Source(j: nat, offset: nat, n: nat): (i: nat)
    requires j < n && offset < n
    ensures i < n && Shifted(i, offset, n) == j
  {
    if j >= offset then j - offset else j + n - offset
  }

  /** A non-zero shift is a bijection of the nodes without a fixed point. */
  lemma {:induction false} ShiftIsDerangement(n: nat, offset: nat)
    requires 0 < offset < n
    ensures forall i: nat :: i < n ==> Shifted(i, offset, n) != i
    ensures forall i: nat, k: nat :: i < n && k < n && Shifted(i, offset, n) == Shifted(k, offset, n) ==> i == k
    ensures forall j: nat :: j < n ==> Source(j, offset, n) < n && Shifted(Source(j, offset, n), offset, n) == j
  {
  }

  lemma {:induction false} RotationIsValid(p: Matrix, n: nat, offset: nat)
    requires 0 < offset < n && Rotates(p, n, offset)
    ensures Valid(p, n)
  {
    forall i | 0 <= i < n
      ensures Total(p[i]) == 1.0 && At(p, i, i) == 0.0
    {
      forall j | 0 <= j < n
        ensures p[i][j] == if j == Shifted(i, offset, n) then 1.0 else 0.0
      {
        assert At(p, i, j) == p[i][j];
      }
      TotalOfOne(p[i], Shifted(i, offset, n));
    }
    forall j | 0 <= j < n
      ensures Total(Column(p, n, j)) == 1.0
    {
      var k := Source(j, offset, n);
      forall i | 0 <= i < n
        ensures Column(p, n, j)[i] == if i == k then 1.0 else 0.0
      {
        assert At(p, i, j) == if j == Shifted(i, offset, n) then 1.0 else 0.0;
      }
      TotalOfOne(Column(p, n, j), k);
    }
  }

  /** `p @ m @ p.T`. */
  function Conjugated(p: Matrix, m: Matrix, n: nat): (r: Matrix) {
    Product(Product(p, m, n), Transpose(p, n), n)
  }

  lemma {:induction false} PermuteRows(p: Matrix, m: Matrix, n: nat, offset: nat, i: nat, j: nat)
    requires offset < n && Rotates(p, n, offset) && i < n && j < n
    ensures At(Product(p, m, n), i, j) == At(m, Shifted(i, offset, n), j)
  {
    DotOneLeft(p, m, i, j, n, Shifted(i, offset, n));
  }

  lemma {:induction false} PermuteColumns(p: Matrix, m: Matrix, n: nat, offset: nat, i: nat, j: nat)
    requires offset < n && Rotates(p, n, offset) && i < n && j < n
    ensures At(Product(m, Transpose(p, n), n), i, j) == At(m, i, Shifted(j, offset, n))
  {
    DotOneRight(m, Transpose(p, n), i, j, n, Shifted(j, offset, n));
  }

  /** Conjugating relabels the nodes. */
  lemma {:induction false} ConjugatedAt(p: Matrix, m: Matrix, n: nat, offset: nat, i: nat, j: nat)
    requires offset < n && Rotates(p, n, offset) && i < n && j < n
    ensures At(Conjugated(p, m, n), i, j) == At(m, Shifted(i, offset, n), Shifted(j, offset, n))
  {
    PermuteColumns(p, Product(p, m, n), n, offset, i, j);
    PermuteRows(p, m, n, offset, i, Shifted(j, offset, n));
  }

  lemma {:induction false} ConjugatedRow(p: Matrix, m: Matrix, n: nat, offset: nat, i: nat)
    requires offset < n && Rotates(p, n, offset) && Square(m, n) && i < n
    ensures Square(Conjugated(p, m, n), n)
    ensures Conjugated(p, m, n)[i] == Rotate(m[Shifted(i, offset, n)], offset)
  {
    var c, row := Conjugated(p, m, n), m[Shifted(i, offset, n)];
    forall j | 0 <= j < n
      ensures c[i][j] == Rotate(row, offset)[j]
    {
      ConjugatedAt(p, m, n, offset, i, j);
      assert c[i][j] == At(c, i, j);
    }
  }

  /** The degrees of the shuffled graph are the graph's own, rotated. */
  lemma {:induction false} ConjugatedDegrees(p: Matrix, m: Matrix, n: nat, offset: nat)
    requires offset < n && Rotates(p, n, offset) && Square(m, n)
    ensures Degrees(Conjugated(p, m, n)) == Rotate(Degrees(m), offset)
  {
    var c := Conjugated(p, m, n);
    forall i | 0 <= i < n
      ensures Degrees(c)[i] == Rotate(Degrees(m), offset)[i]
    {
      ConjugatedRow(p, m, n, offset, i);
      RotateTotal(m[Shifted(i, offset, n)], offset);
    }
  }

  /** The shuffled graph has the graph's degrees and its edge weights, each as often. */
  lemma {:induction false} ShuffleKeepsWeights(p: Matrix, m: Matrix, n: nat, offset: nat, w: real)
    requires offset < n && Rotates(p, n, offset) && Square(m, n)
    ensures multiset(Degrees(Conjugated(p, m, n))) == multiset(Degrees(m))
    ensures Occurrences(Conjugated(p, m, n), w) == Occurrences(m, w)
  {
    var c := Conjugated(p, m, n);
    ConjugatedDegrees(p, m, n, offset);
    RotateMultiset(Degrees(m), offset);
    var rows := Rotate(m, offset);
    forall i | 0 <= i < n
      ensures multiset(c[i]) == multiset(rows[i])
    {
      ConjugatedRow(p, m, n, offset, i);
      RotateMultiset(m[Shifted(i, offset, n)], offset);
    }
    SameRowMultisets(c, rows, w);
    RotateOccurrences(m, offset, w);
  }

  lemma {:induction false} ConjugatedDegreeAt(p: Matrix, m: Matrix, n: nat, offset: nat, i: nat)
    requires offset < n && Rotates(p, n, offset) && Square(m, n) && i < n
    ensures |Conjugated(p, m, n)| == n
    ensures Degrees(Conjugated(p, m, n))[i] == Degrees(m)[Shifted(i, offset, n)]
  {
    ConjugatedDegrees(p, m, n, offset);
  }

  lemma {:induction false} NormalisedConjugateAt(p: Matrix, m: Matrix, n: nat, offset: nat, root: InverseRoot,
                                                 i: nat, j: nat)
    requires offset < n && Rotates(p, n, offset) && Square(m, n) && i < n && j < n
    ensures At(Conjugated(p, Normalised(m, root), n), i, j) == At(Normalised(Conjugated(p, m, n), root), i, j)
  {
    var c := Conjugated(p, m, n);
    var si, sj := Shifted(i, offset, n), Shifted(j, offset, n);
    calc {
      At(Normalised(c, root), i, j);
      { NormalisedAt(c, root, i, j); }
      root(Degrees(c)[i]) * At(c, i, j) * root(Degrees(c)[j]);
      { ConjugatedDegreeAt(p, m, n, offset, i); ConjugatedDegreeAt(p, m, n, offset, j); }
      root(Degrees(m)[si]) * At(c, i, j) * root(Degrees(m)[sj]);
      { ConjugatedAt(p, m, n, offset, i, j); }
      root(Degrees(m)[si]) * At(m, si, sj) * root(Degrees(m)[sj]);
      { NormalisedAt(m, root, si, sj); }
      At(Normalised(m, root), si, sj);
      { ConjugatedAt(p, Normalised(m, root), n, offset, i, j); }
      At(Conjugated(p, Normalised(m, root), n), i, j);
    }
  }

  /** Conjugating the normalised matrix gives the normalisation of the conjugated matrix. */
  lemma {:induction false} ShuffleCommutesWithNormalisation(p: Matrix, m: Matrix, n: nat, offset: nat,
                                                            root: InverseRoot)
    requires offset < n && Rotates(p, n, offset) && Square(m, n)
    ensures Conjugated(p, Normalised(m, root), n) == Normalised(Conjugated(p, m, n), root)
  {
    forall i: nat, j: nat | i < n && j < n
      ensures At(Conjugated(p, Normalised(m, root), n), i, j) == At(Normalised(Conjugated(p, m, n), root), i, j)
    {
      NormalisedConjugateAt(p, m, n, offset, root, i, j);
    }
    SameEntries(Conjugated(p, Normalised(m, root), n), Normalised(Conjugated(p, m, n), root), n);
  }

  function CountUpTo(n: nat, f: nat -> bool): (r: nat) {
    if n == 0 then 0 else CountUpTo(n - 1, f) + if f(n - 1) then 1 else 0
  }

  function CountPairs(n: nat, rows: nat, f: (nat, nat) -> bool): (r: nat) {
    if rows == 0 then 0 else CountPairs(n, rows - 1, f) + CountUpTo(n, (j: nat) => f(rows - 1, j))
  }

  /** The code's structural test: some off-diagonal edge exists, at least half of the edges of either
      graph changed, and at least half of the neighbourhoods changed. */
  predicate Restructured(a: Matrix, b: Matrix, n: nat) {
    var edges := CountPairs(n, n, (i: nat, j: nat) => i != j && (At(a, i, j) != 0.0 || At(b, i, j) != 0.0));
    var changed := CountPairs(n, n, (i: nat, j: nat) => i != j && At(a, i, j) != At(b, i, j));
    var moved := CountUpTo(n, (i: nat) => CountUpTo(n, (j: nat) => (At(a, i, j) != 0.0) != (At(b, i, j) != 0.0)) > 0);
    edges > 0 && 2 * changed >= edges && 2 * moved >= n
  }

  /** The shuffled control never renormalises, and is normalised all the same. */
  method ShuffleEconomicGraph(g: Graph, shift: int, root: InverseRoot) returns (r: Result<Graph>)
    requires Economic(g, root)
    ensures r.Ok? ==> |g.nodes| >= 2 && Remainder(shift, |g.nodes|) != 0
    ensures r.Ok? ==> Restructured(g.adjacency, r.value.adjacency, |g.nodes|)
    ensures r.Err? && |g.nodes| >= 2 && Remainder(shift, |g.nodes|) != 0 ==>
              exists p :: Rotates(p, |g.nodes|, Remainder(shift, |g.nodes|)) &&
                !Restructured(g.adjacency, Conjugated(p, g.adjacency, |g.nodes|), |g.nodes|)
    ensures r.Ok? ==> r.value.nodes == g.nodes && r.value.normalised == Normalised(r.value.adjacency, root)
    ensures r.Ok? ==> var offset := Remainder(shift, |g.nodes|);
              forall i: nat, j: nat :: i < |g.nodes| && j < |g.nodes| ==>
                At(r.value.adjacency, i, j) ==
                Weight(g.nodes[Shifted(i, offset, |g.nodes|)], g.nodes[Shifted(j, offset, |g.nodes|)])
  {
    var n := |g.nodes|;
    var permutation := CyclicPermutation(n, shift);
    if permutation.Err? {
      return Err(permutation.reason);
    }
    var p, offset := permutation.value, Remainder(shift, n);
    if !Restructured(g.adjacency, Conjugated(p, g.adjacency, n), n) {
      return Err("shuffled graph fails the required 50% structural difference");
    }
    ShuffleCommutesWithNormalisation(p, g.adjacency, n, offset, root);
    forall i: nat, j: nat | i < n && j < n
      ensures At(Conjugated(p, g.adjacency, n), i, j) ==
              Weight(g.nodes[Shifted(i, offset, n)], g.nodes[Shifted(j, offset, n)])
    {
      ConjugatedAt(p, g.adjacency, n, offset, i, j);
    }
    return Ok(Graph(g.nodes, Conjugated(p, g.adjacency, n), Conjugated(p, g.normalised, n)));
  }
}
