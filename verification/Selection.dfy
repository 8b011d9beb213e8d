/** The greedy choice of families: one per cluster, at most two per group, at most a given size. */
module Selection {
  /** What the selection reads of an eligible descriptor; score None stands for minus infinity. */
  datatype Candidate = Candidate(family: int, group: int, cluster: int, cell: Cell, score: Score)

  datatype Score = Unscored | Scored(value: real)

  /** The nuisance cell; the group is part of it. */
  datatype Cell = Cell(group: int, liquid: bool, lowCost: bool, band: int, fullYear: bool)

  predicate Distinct(s: seq<Candidate>) {
    forall i, j :: 0 <= i < j < |s| ==> s[i].family != s[j].family
  }

  function InGroup(s: seq<Candidate>, group: int): (r: nat) {
    if s == [] then 0
    else InGroup(s[..|s| - 1], group) + if s[|s| - 1].group == group then 1 else 0
  }

  function Clusters(s: seq<Candidate>): (r: set<int>) {
    if s == [] then {} else Clusters(s[..|s| - 1]) + {s[|s| - 1].cluster}
  }

  /** May the candidate not join what was selected before it? */
  predicate Blocked(selected: seq<Candidate>, c: Candidate) {
    c.score.Unscored? || c.cluster in Clusters(selected) || InGroup(selected, c.group) >= 2
  }

  /** The selection from a ranking: every candidate is taken unless the ones taken before it block it. */
  function Selected(ranked: seq<Candidate>, size: int): (r: seq<Candidate>) {
    if ranked == [] then []
    else
      var before := Selected(ranked[..|ranked| - 1], size);
      var c := ranked[|ranked| - 1];
      if |before| >= size || Blocked(before, c) then before else before + [c]
  }

  function Count(counts: map<int, nat>, group: int): (r: nat) {
    if group in counts then counts[group] else 0
  }

  ghost predicate Counted(counts: map<int, nat>, s: seq<Candidate>) {
    && (forall g :: Count(counts, g) == InGroup(s, g))
    && (forall g :: g in counts ==> counts[g] > 0)
  }

  lemma {:induction false} CountedGrows(counts: map<int, nat>, s: seq<Candidate>, c: Candidate)
    requires Counted(counts, s)
    ensures Counted(counts[c.group := Count(counts, c.group) + 1], s + [c])
    ensures Clusters(s + [c]) == Clusters(s) + {c.cluster}
  {
    var next := counts[c.group := Count(counts, c.group) + 1];
    assert (s + [c])[..|s|] == s;
    forall g
      ensures Count(next, g) == InGroup(s + [c], g)
    {
      assert Count(counts, g) == InGroup(s, g);
    }
  }

  method Select(ranked: seq<Candidate>, size: int) returns (selected: seq<Candidate>, counts: map<int, nat>)
    ensures selected == Selected(ranked, size)
    ensures Counted(counts, selected)
  {
    selected, counts := [], map[];
    var seen := {};
    for n := 0 to |ranked|
      invariant selected == Selected(ranked[..n], size)
      invariant seen == Clusters(selected)
      invariant Counted(counts, selected)
    {
      assert ranked[..n + 1][..n] == ranked[..n];
      if |selected| >= size {
        FullStays(ranked, size, n);
        return;
      }
      var c := ranked[n];
      if !(c.score.Unscored? || c.cluster in seen || Count(counts, c.group) >= 2) {
        CountedGrows(counts, selected, c);
        selected, seen := selected + [c], seen + {c.cluster};
        counts := counts[c.group := Count(counts, c.group) + 1];
      }
    }
    assert ranked[..|ranked|] == ranked;
  }

  /** Once the requested size is reached, later candidates change nothing. */
  lemma {:induction false} FullStays(ranked: seq<Candidate>, size: int, n: nat)
    requires n <= |ranked| && |Selected(ranked[..n], size)| >= size
    ensures Selected(ranked, size) == Selected(ranked[..n], size)
    decreases |ranked|
  {
    if n < |ranked| {
      assert ranked[..|ranked| - 1][..n] == ranked[..n];
      FullStays(ranked[..|ranked| - 1], size, n);
    } else {
      assert ranked[..n] == ranked;
    }
  }

  // ---- What is selected

  /** Distinct clusters, at most two per group, at most the size, every score finite. */
  ghost predicate Feasible(s: seq<Candidate>, size: int) {
    && (|s| <= size || s == [])
    && (forall i, j :: 0 <= i < j < |s| ==> s[i].cluster != s[j].cluster)
    && (forall g :: InGroup(s, g) <= 2)
    && (forall i :: 0 <= i < |s| ==> s[i].score.Scored?)
  }

  lemma {:induction false} ClustersHas(s: seq<Candidate>, k: int)
    ensures k in Clusters(s) <==> exists i :: 0 <= i < |s| && s[i].cluster == k
  {
    if s != [] {
      var n := |s| - 1;
      ClustersHas(s[..n], k);
      if i :| 0 <= i < |s| && s[i].cluster == k {
        assert i < n ==> s[..n][i].cluster == k;
      }
    }
  }

  lemma {:induction false} FeasibleGrows(s: seq<Candidate>, c: Candidate, size: int)
    requires Feasible(s, size) && |s| < size && !Blocked(s, c)
    ensures Feasible(s + [c], size)
  {
    var t := s + [c];
    assert t[..|s|] == s;
    forall i, j | 0 <= i < j < |t|
      ensures t[i].cluster != t[j].cluster
    {
      ClustersHas(s, t[i].cluster);
    }
    assert forall g :: InGroup(t, g) <= 2;
  }

  lemma {:induction false} SelectionIsFeasible(ranked: seq<Candidate>, size: int)
    ensures Feasible(Selected(ranked, size), size)
    ensures forall c :: c in Selected(ranked, size) ==> c in ranked
  {
    if ranked != [] {
      var n := |ranked| - 1;
      SelectionIsFeasible(ranked[..n], size);
      var before := Selected(ranked[..n], size);
      if |before| < size && !Blocked(before, ranked[n]) {
        FeasibleGrows(before, ranked[n], size);
      }
    }
  }

  /** What is selected from the front of a ranking is the front of what is selected. */
  lemma {:induction false} SelectionGrows(ranked: seq<Candidate>, size: int, n: nat)
    requires n <= |ranked|
    ensures Selected(ranked[..n], size) <= Selected(ranked, size)
    decreases |ranked|
  {
    if n < |ranked| {
      assert ranked[..|ranked| - 1][..n] == ranked[..n];
      SelectionGrows(ranked[..|ranked| - 1], size, n);
    } else {
      assert ranked[..n] == ranked;
    }
  }

  /** A candidate is left out exactly when the ones selected from those ranked before it fill the size
      or block it. */
  lemma {:induction false} LeftOutWhenBlocked(ranked: seq<Candidate>, size: int, n: nat)
    requires Distinct(ranked) && n < |ranked|
    ensures ranked[n] !in Selected(ranked, size) <==>
            (|Selected(ranked[..n], size)| >= size || Blocked(Selected(ranked[..n], size), ranked[n]))
  {
    var before, c := Selected(ranked[..n], size), ranked[n];
    assert ranked[..n + 1][..n] == ranked[..n];
    SelectionGrows(ranked, size, n + 1);
    SelectionIsFeasible(ranked[..n], size);
    if |before| >= size {
      FullStays(ranked, size, n);
    } else if Blocked(before, c) {
      StaysOut(ranked, size, n + 1, c);
    } else {
      assert (before + [c])[|before|] == c;
    }
  }

  lemma {:induction false} StaysOut(ranked: seq<Candidate>, size: int, n: nat, c: Candidate)
    requires Distinct(ranked) && 0 < n <= |ranked| && c == ranked[n - 1]
    requires c !in Selected(ranked[..n], size)
    ensures c !in Selected(ranked, size)
    decreases |ranked|
  {
    if n < |ranked| {
      assert ranked[..|ranked| - 1][..n] == ranked[..n];
      StaysOut(ranked[..|ranked| - 1], size, n, c);
    } else {
      assert ranked[..n] == ranked;
    }
  }

  lemma {:induction false} BlockedStays(s: seq<Candidate>, t: seq<Candidate>, c: Candidate)
    requires s <= t && Blocked(s, c)
    ensures Blocked(t, c)
  {
    ClustersHas(s, c.cluster);
    ClustersHas(t, c.cluster);
    InGroupGrows(s, t, c.group);
  }

  lemma {:induction false} InGroupGrows(s: seq<Candidate>, t: seq<Candidate>, group: int)
    requires s <= t
    ensures InGroup(s, group) <= InGroup(t, group)
    decreases |t|
  {
    if |s| < |t| {
      InGroupGrows(s, t[..|t| - 1], group);
    } else {
      assert s == t;
    }
  }

  /** No candidate of finite score can be added to the selection. */
  lemma {:induction false} SelectionIsMaximal(ranked: seq<Candidate>, size: int, c: Candidate)
    requires Distinct(ranked) && c in ranked && c !in Selected(ranked, size)
    ensures |Selected(ranked, size)| >= size || Blocked(Selected(ranked, size), c)
  {
    var n :| 0 <= n < |ranked| && ranked[n] == c;
    LeftOutWhenBlocked(ranked, size, n);
    SelectionGrows(ranked, size, n);
    if Blocked(Selected(ranked[..n], size), c) {
      BlockedStays(Selected(ranked[..n], size), Selected(ranked, size), c);
    }
  }

  // ---- The selection against every other feasible set

  function OfGroup(t: set<Candidate>, group: int): (r: set<Candidate>) {
    set c | c in t && c.group == group
  }

  ghost predicate FeasibleSet(t: set<Candidate>, size: int) {
    && |t| <= size
    && (forall a, b :: a in t && b in t && a.cluster == b.cluster ==> a == b)
    && (forall g :: |OfGroup(t, g)| <= 2)
    && (forall c :: c in t ==> c.score.Scored?)
  }

  lemma {:induction false} ClustersBound(s: seq<Candidate>)
    ensures |Clusters(s)| <= |s|
  {
    if s != [] {
      ClustersBound(s[..|s| - 1]);
    }
  }

  /** Members with different clusters out of a set of clusters are no more than the clusters. */
  lemma {:induction false} OnePerCluster(t: set<Candidate>, clusters: set<int>)
    requires forall a, b :: a in t && b in t && a.cluster == b.cluster ==> a == b
    requires forall c :: c in t ==> c.cluster in clusters
    ensures |t| <= |clusters|
  {
    if c :| c in t {
      OnePerCluster(t - {c}, clusters - {c.cluster});
    }
  }

  /** A set with, in each group, no more members than a sequence is no larger than the sequence. */
  lemma {:induction false} GroupByGroup(t: set<Candidate>, s: seq<Candidate>)
    requires forall g :: |OfGroup(t, g)| <= InGroup(s, g)
    ensures |t| <= |s|
    decreases |s|
  {
    if s == [] {
      forall c: Candidate
        ensures c !in t
      {
        assert |OfGroup(t, c.group)| <= InGroup(s, c.group);
        assert OfGroup(t, c.group) == {};
      }
    } else {
      var n := |s| - 1;
      var group := s[n].group;
      var left := t;
      if c :| c in OfGroup(t, group) {
        left := t - {c};
      }
      forall g
        ensures |OfGroup(left, g)| <= InGroup(s[..n], g)
      {
        LeftOfGroup(t, left, g);
        assert |OfGroup(t, g)| <= InGroup(s, g);
      }
      GroupByGroup(left, s[..n]);
    }
  }

  lemma {:induction false} LeftOfGroup(t: set<Candidate>, left: set<Candidate>, g: int)
    requires left <= t
    ensures OfGroup(left, g) == OfGroup(t, g) - (t - left)
    ensures |OfGroup(left, g)| <= |OfGroup(t, g)|
    ensures (t - left) * OfGroup(t, g) != {} ==> |OfGroup(left, g)| < |OfGroup(t, g)|
  {
  }

  /** Any other choice that meets the constraints is at most twice as large as the greedy selection. */
  lemma {:induction false} SelectionIsAtLeastHalf(ranked: seq<Candidate>, size: int, t: set<Candidate>)
    requires Distinct(ranked) && FeasibleSet(t, size)
    requires forall c :: c in t ==> c in ranked
    ensures |t| <= 2 * |Selected(ranked, size)|
  {
    var s := Selected(ranked, size);
    if |s| < size {
      var clustered := set c | c in t && c.cluster in Clusters(s);
      var grouped := t - clustered;
      OnePerCluster(clustered, Clusters(s));
      ClustersBound(s);
      forall c | c in grouped
        ensures InGroup(s, c.group) >= 2
      {
        ClusterOfMember(s, c);
        SelectionIsMaximal(ranked, size, c);
      }
      forall g
        ensures |OfGroup(grouped, g)| <= InGroup(s, g)
      {
        LeftOfGroup(t, grouped, g);
        if c :| c in OfGroup(grouped, g) {
          assert |OfGroup(t, g)| <= 2;
        } else {
          assert OfGroup(grouped, g) == {};
        }
      }
      GroupByGroup(grouped, s);
      assert t == clustered + grouped;
    }
  }

  lemma {:induction false} ClusterOfMember(s: seq<Candidate>, c: Candidate)
    ensures c in s ==> c.cluster in Clusters(s)
  {
    ClustersHas(s, c.cluster);
  }

  // ---- The ranking: best score first, families in order among equals

  predicate Before(a: Candidate, b: Candidate) {
    match (a.score, b.score)
    case (Scored(x), Scored(y)) => x > y || (x == y && a.family <= b.family)
    case (Scored(_), Unscored) => true
    case (Unscored, Scored(_)) => false
    case (Unscored, Unscored) => a.family <= b.family
  }

  predicate Ranked(s: seq<Candidate>) {
    forall i, j :: 0 <= i < j < |s| ==> Before(s[i], s[j])
  }

  lemma {:induction false} PlacedIsRanked(s: seq<Candidate>, c: Candidate, i: nat)
    requires Ranked(s) && i <= |s|
    requires forall k :: 0 <= k < i ==> Before(s[k], c)
    requires i < |s| ==> !Before(s[i], c)
    ensures Ranked(s[..i] + [c] + s[i..])
  {
    var r := s[..i] + [c] + s[i..];
    assert forall k :: 0 <= k < i ==> r[k] == s[k];
    assert forall k :: i < k < |r| ==> r[k] == s[k - 1];
  }

  method Place(s: seq<Candidate>, c: Candidate) returns (r: seq<Candidate>)
    requires Ranked(s)
    ensures Ranked(r) && multiset(r) == multiset(s) + multiset{c}
  {
    var i := 0;
    while i < |s| && Before(s[i], c)
      invariant 0 <= i <= |s|
      invariant forall k :: 0 <= k < i ==> Before(s[k], c)
    {
      i := i + 1;
    }
    r := s[..i] + [c] + s[i..];
    PlacedIsRanked(s, c, i);
    assert s == s[..i] + s[i..];
  }

  method Rank(eligible: seq<Candidate>) returns (r: seq<Candidate>)
    ensures Ranked(r) && multiset(r) == multiset(eligible)
  {
    r := [];
    for n := 0 to |eligible|
      invariant Ranked(r) && multiset(r) == multiset(eligible[..n])
    {
      assert eligible[..n + 1] == eligible[..n] + [eligible[n]];
      r := Place(r, eligible[n]);
    }
    assert eligible[..|eligible|] == eligible;
  }

  /** A candidate of finite score is left out only when selected candidates that rank before it, and so
      score at least as high, fill the size or block it. */
  lemma {:induction false} BlockedByBetter(ranked: seq<Candidate>, size: int,
                                           c: Candidate) returns (better: seq<Candidate>)
    requires Ranked(ranked) && Distinct(ranked)
    requires c in ranked && c.score.Scored? && c !in Selected(ranked, size)
    ensures better <= Selected(ranked, size) && (|better| >= size || Blocked(better, c))
    ensures forall b :: b in better ==> b.score.Scored? && b.score.value >= c.score.value
  {
    var n :| 0 <= n < |ranked| && ranked[n] == c;
    better := Selected(ranked[..n], size);
    SelectionGrows(ranked, size, n);
    LeftOutWhenBlocked(ranked, size, n);
    SelectionIsFeasible(ranked[..n], size);
    forall b | b in better
      ensures b.score.Scored? && b.score.value >= c.score.value
    {
      var k :| 0 <= k < n && ranked[..n][k] == b;
      assert Before(ranked[k], ranked[n]);
    }
  }
}
