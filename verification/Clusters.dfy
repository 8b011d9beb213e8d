/** Market families grouped by relabelling over all pairs, and the drawdown of a path of changes. */
module Clusters {

  /** Is the pair of descriptors at these positions, the smaller one first, highly correlated? */
  type Pairs = (nat, nat) -> bool

  ghost predicate Linked(families: seq<int>, high: Pairs, x: int, y: int) {
    exists i: nat, j: nat :: i < j < |families| && high(i, j) &&
      ((families[i] == x && families[j] == y) || (families[i] == y && families[j] == x))
  }

  /** A chain of families, each highly correlated with the next. */
  ghost predicate Chain(families: seq<int>, high: Pairs, c: seq<int>) {
    && c != []
    && (forall k :: 0 <= k < |c| ==> c[k] in families)
    && (forall k :: 0 <= k < |c| - 1 ==> Linked(families, high, c[k], c[k + 1]))
  }

  ghost predicate Joined(families: seq<int>, high: Pairs, x: int, y: int) {
    exists c :: Chain(families, high, c) && c[0] == x && c[|c| - 1] == y
  }

  lemma {:induction false} JoinedItself(families: seq<int>, high: Pairs, x: int)
    requires x in families
    ensures Joined(families, high, x, x)
  {
    assert Chain(families, high, [x]);
  }

  lemma {:induction false} JoinedByLink(families: seq<int>, high: Pairs, i: nat, j: nat)
    requires i < j < |families| && high(i, j)
    ensures Joined(families, high, families[i], families[j])
  {
    var c := [families[i], families[j]];
    assert Linked(families, high, c[0], c[1]);
    assert Chain(families, high, c);
  }

  lemma {:induction false} JoinedBack(families: seq<int>, high: Pairs, x: int, y: int)
    requires Joined(families, high, x, y)
    ensures Joined(families, high, y, x)
  {
    var c :| Chain(families, high, c) && c[0] == x && c[|c| - 1] == y;
    var n := |c|;
    var back := seq(n, k requires 0 <= k < n => c[n - 1 - k]);
    forall k | 0 <= k < n - 1
      ensures Linked(families, high, back[k], back[k + 1])
    {
      assert Linked(families, high, c[n - 2 - k], c[n - 2 - k + 1]);
    }
    assert Chain(families, high, back);
  }

  lemma {:induction false} JoinedOn(families: seq<int>, high: Pairs, x: int, y: int, z: int)
    requires Joined(families, high, x, y) && Joined(families, high, y, z)
    ensures Joined(families, high, x, z)
  {
    var a :| Chain(families, high, a) && a[0] == x && a[|a| - 1] == y;
    var b :| Chain(families, high, b) && b[0] == y && b[|b| - 1] == z;
    var c := a + b[1..];
    forall k | 0 <= k < |c| - 1
      ensures Linked(families, high, c[k], c[k + 1])
    {
      if k < |a| - 1 {
        assert Linked(families, high, a[k], a[k + 1]);
      } else {
        assert Linked(families, high, b[k - |a| + 1], b[k - |a| + 2]);
      }
    }
    assert Chain(families, high, c);
  }

  ghost predicate Handled(i: nat, j: nat, p: nat, q: nat) {
    p < i || (p == i && q < j)
  }

  ghost predicate Covers(families: seq<int>, labels: map<int, int>) {
    && (forall k :: 0 <= k < |families| ==> families[k] in labels)
    && (forall x :: x in labels <==> x in families)
  }

  /** The pairs handled so far share their label. */
  ghost predicate Merged(families: seq<int>, high: Pairs, labels: map<int, int>, i: nat, j: nat)
    requires Covers(families, labels)
  {
    forall p: nat, q: nat :: p < q < |families| && high(p, q) && Handled(i, j, p, q) ==>
      labels[families[p]] == labels[families[q]]
  }

  /** A label is a member of its own component that labels itself. */
  ghost predicate Labelled(families: seq<int>, high: Pairs, labels: map<int, int>) {
    forall x :: x in labels ==>
      labels[x] in labels && labels[labels[x]] == labels[x] && Joined(families, high, x, labels[x])
  }

  /** Two families share a label exactly when a chain of highly correlated pairs joins them. */
  ghost predicate Components(families: seq<int>, high: Pairs, labels: map<int, int>) {
    forall x, y :: x in labels && y in labels ==> (labels[x] == labels[y] <==> Joined(families, high, x, y))
  }

  function Relabelled(labels: map<int, int>, before: int, after: int): (r: map<int, int>) {
    map k | k in labels :: if labels[k] == before then after else labels[k]
  }

  lemma {:induction false} RelabelJoins(families: seq<int>, high: Pairs, labels: map<int, int>, left: int,
                                        right: int, x: int)
    requires Labelled(families, high, labels)
    requires left in labels && right in labels && x in labels
    requires Joined(families, high, left, right)
    ensures Joined(families, high, x, Relabelled(labels, labels[right], labels[left])[x])
  {
    if labels[x] == labels[right] {
      JoinedBack(families, high, right, labels[right]);
      JoinedOn(families, high, x, labels[x], right);
      JoinedBack(families, high, left, right);
      JoinedOn(families, high, x, right, left);
      JoinedOn(families, high, x, left, labels[left]);
    }
  }

  lemma {:induction false} RelabelKeeps(families: seq<int>, high: Pairs, labels: map<int, int>, left: int, right: int)
    requires Labelled(families, high, labels)
    requires left in labels && right in labels && Joined(families, high, left, right)
    ensures Labelled(families, high, Relabelled(labels, labels[right], labels[left]))
  {
    var next := Relabelled(labels, labels[right], labels[left]);
    forall x | x in next
      ensures next[x] in next && next[next[x]] == next[x] && Joined(families, high, x, next[x])
    {
      RelabelJoins(families, high, labels, left, right, x);
    }
  }

  /** One pair: relabels when it is highly correlated. */
  method HandlePair(families: seq<int>, high: Pairs, labels: map<int, int>, i: nat, j: nat)
    returns (next: map<int, int>)
    requires i < j < |families|
    requires Covers(families, labels) && Merged(families, high, labels, i, j) && Labelled(families, high, labels)
    ensures Covers(families, next) && Merged(families, high, next, i, j + 1) && Labelled(families, high, next)
  {
    next := labels;
    if high(i, j) {
      var left, right := families[i], families[j];
      JoinedByLink(families, high, i, j);
      RelabelKeeps(families, high, labels, left, right);
      next := Relabelled(labels, labels[right], labels[left]);
      forall p: nat, q: nat | p < q < |families| && high(p, q) && Handled(i, j + 1, p, q)
        ensures next[families[p]] == next[families[q]]
      {
        assert (p == i && q == j) || Handled(i, j, p, q);
      }
    }
  }

  /** The connected components of the high-correlation pairs, each under one of its own families. */
  method FindClusters(families: seq<int>, high: Pairs) returns (labels: map<int, int>)
    ensures Covers(families, labels) && Components(families, high, labels)
    ensures forall x :: x in labels ==> labels[x] in labels && labels[labels[x]] == labels[x]
  {
    labels := map x | x in families :: x;
    EachAlone(families, high, labels);
    for i := 0 to |families|
      invariant Covers(families, labels) && Merged(families, high, labels, i, i + 1)
      invariant Labelled(families, high, labels)
    {
      for j := i + 1 to |families|
        invariant Covers(families, labels) && Merged(families, high, labels, i, j)
        invariant Labelled(families, high, labels)
      {
        labels := HandlePair(families, high, labels, i, j);
      }
    }
    LabelsAreComponents(families, high, labels);
  }

  lemma {:induction false} EachAlone(families: seq<int>, high: Pairs, labels: map<int, int>)
    requires labels == map x | x in families :: x
    ensures Labelled(families, high, labels)
  {
    forall x | x in labels
      ensures Joined(families, high, x, labels[x])
    {
      JoinedItself(families, high, x);
    }
  }

  lemma {:induction false} ChainSharesLabel(families: seq<int>, high: Pairs, labels: map<int, int>, c: seq<int>)
    requires Covers(families, labels) && Merged(families, high, labels, |families|, |families| + 1)
    requires Chain(families, high, c)
    ensures c[0] in labels && c[|c| - 1] in labels && labels[c[0]] == labels[c[|c| - 1]]
  {
    assert c[0] in families;
    if |c| > 1 {
      var rest := c[1..];
      forall k | 0 <= k < |rest| - 1
        ensures Linked(families, high, rest[k], rest[k + 1])
      {
        assert Linked(families, high, c[k + 1], c[k + 1 + 1]);
      }
      ChainSharesLabel(families, high, labels, rest);
      assert Linked(families, high, c[0], c[0 + 1]);
      var p: nat, q: nat :| p < q < |families| && high(p, q) &&
        ((families[p] == c[0] && families[q] == c[1]) || (families[p] == c[1] && families[q] == c[0]));
      assert Handled(|families|, |families| + 1, p, q);
    }
  }

  lemma {:induction false} LabelsAreComponents(families: seq<int>, high: Pairs, labels: map<int, int>)
    requires Covers(families, labels) && Merged(families, high, labels, |families|, |families| + 1)
    requires Labelled(families, high, labels)
    ensures Components(families, high, labels)
  {
    forall x, y | x in labels && y in labels
      ensures labels[x] == labels[y] <==> Joined(families, high, x, y)
    {
      if labels[x] == labels[y] {
        JoinedBack(families, high, y, labels[y]);
        JoinedOn(families, high, x, labels[x], y);
      }
      if Joined(families, high, x, y) {
        var c :| Chain(families, high, c) && c[0] == x && c[|c| - 1] == y;
        ChainSharesLabel(families, high, labels, c);
      }
    }
  }

  function Path(values: seq<real>, n: nat): (r: real)
    requires n <= |values|
  {
    if n == 0 then 0.0 else Path(values, n - 1) + values[n - 1]
  }

  function Peak(values: seq<real>, n: nat): (r: real)
    requires n <= |values|
  {
    if n == 0 then 0.0
    else if Path(values, n) > Peak(values, n - 1) then Path(values, n) else Peak(values, n - 1)
  }

  function Deepest(values: seq<real>, n: nat): (r: real)
    requires n <= |values|
  {
    if n == 0 then 0.0
    else
      var fall := Path(values, n) - Peak(values, n);
      if fall < Deepest(values, n - 1) then fall else Deepest(values, n - 1)
  }

  lemma {:induction false} PeakIsHighest(values: seq<real>, n: nat) returns (top: nat)
    requires n <= |values|
    ensures top <= n && Peak(values, n) == Path(values, top)
    ensures forall i :: 0 <= i <= n ==> Path(values, i) <= Peak(values, n)
  {
    top := 0;
    if n > 0 {
      top := PeakIsHighest(values, n - 1);
      if Path(values, n) > Peak(values, n - 1) {
        top := n;
      }
    }
  }

  /** The drawdown is the least of S(j) - S(i) over all i <= j, with S(0) = 0: it is one of them and
      below all of them. */
  lemma {:induction false} DeepestIsLeast(values: seq<real>, n: nat) returns (high: nat, low: nat)
    requires n <= |values|
    ensures high <= low <= n && Deepest(values, n) == Path(values, low) - Path(values, high)
    ensures forall i, j :: 0 <= i <= j <= n ==> Deepest(values, n) <= Path(values, j) - Path(values, i)
  {
    high, low := 0, 0;
    if n > 0 {
      high, low := DeepestIsLeast(values, n - 1);
      var top := PeakIsHighest(values, n);
      if Path(values, n) - Peak(values, n) < Deepest(values, n - 1) {
        high, low := top, n;
      }
      forall i, j | 0 <= i <= j <= n
        ensures Deepest(values, n) <= Path(values, j) - Path(values, i)
      {
        if j == n {
          assert Path(values, i) <= Peak(values, n);
        }
      }
    }
  }

  /** The deepest fall of the running sum below an earlier value of it. */
  method Drawdown(values: seq<real>) returns (drawdown: real)
    ensures drawdown == Deepest(values, |values|)
  {
    var path, peak := 0.0, 0.0;
    drawdown := 0.0;
    for n := 0 to |values|
      invariant path == Path(values, n) && peak == Peak(values, n) && drawdown == Deepest(values, n)
    {
      path := path + values[n];
      peak := if path > peak then path else peak;
      drawdown := if path - peak < drawdown then path - peak else drawdown;
    }
  }
}
