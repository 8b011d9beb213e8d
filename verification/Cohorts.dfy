/** Control cohorts drawn at random: stratified by group, and matched in every nuisance cell. */
module Cohorts {
  import opened Selection
  import opened Sequences
  import Components = Clusters

  /** Distinct positions of the pool, one for each item drawn. */
  ghost predicate Draws(pool: seq<Candidate>, r: seq<Candidate>, picks: seq<nat>) {
    && |picks| == |r|
    && (forall i :: 0 <= i < |picks| ==> picks[i] < |pool| && pool[picks[i]] == r[i])
    && NoRepeat(picks)
  }

  /** `rng.sample`: any choice of k items at different positions; it raises unless the pool holds k. */
  method Sample(pool: seq<Candidate>, k: nat) returns (r: seq<Candidate>, ghost picks: seq<nat>)
    requires k <= |pool|
    ensures |r| == k && Draws(pool, r, picks)
  {
    r, picks := [], [];
    var left: seq<nat> := seq(|pool|, i requires 0 <= i => i);
    while |r| < k
      invariant |r| <= k && |left| == |pool| - |r|
      invariant Draws(pool, r, picks)
      invariant forall i :: 0 <= i < |left| ==> left[i] < |pool| && left[i] !in picks
      invariant NoRepeat(left)
    {
      var i: nat :| i < |left|;
      r, picks := r + [pool[left[i]]], picks + [left[i]];
      left := left[..i] + left[i + 1..];
    }
  }

  ghost predicate Within(r: seq<Candidate>, pool: seq<Candidate>) {
    forall i :: 0 <= i < |r| ==> r[i] in pool
  }

  function OfCell(s: seq<Candidate>, cell: Cell): (r: seq<Candidate>)
    ensures forall c :: c in r <==> c in s && c.cell == cell
  {
    if s == [] then []
    else
      var n := |s| - 1;
      assert s == s[..n] + [s[n]];
      if s[n].cell == cell then OfCell(s[..n], cell) + [s[n]] else OfCell(s[..n], cell)
  }

  function InThatGroup(s: seq<Candidate>, group: int): (r: seq<Candidate>)
    ensures forall c :: c in r <==> c in s && c.group == group
    ensures |r| == InGroup(s, group)
  {
    if s == [] then []
    else
      var n := |s| - 1;
      assert s == s[..n] + [s[n]];
      if s[n].group == group then InThatGroup(s[..n], group) + [s[n]] else InThatGroup(s[..n], group)
  }

  lemma {:induction false} PartsAreDistinct(s: seq<Candidate>, cell: Cell, group: int)
    requires Distinct(s)
    ensures Distinct(OfCell(s, cell)) && Distinct(InThatGroup(s, group))
  {
    if s != [] {
      var n := |s| - 1;
      PartsAreDistinct(s[..n], cell, group);
      assert forall x :: x in s[..n] ==> x.family != s[n].family;
    }
  }

  /** A part of a pool, without repetition, is no longer than the pool. */
  lemma {:induction false} NoLonger(a: seq<Candidate>, b: seq<Candidate>)
    requires Distinct(a) && forall c :: c in a ==> c in b
    ensures |a| <= |b|
  {
    if a != [] {
      var n := |a| - 1;
      assert a[n] in a;
      var k :| 0 <= k < |b| && b[k] == a[n];
      var rest := b[..k] + b[k + 1..];
      forall c | c in a[..n]
        ensures c in rest
      {
        var i :| 0 <= i < n && a[i] == c;
        assert c in b;
        var j :| 0 <= j < |b| && b[j] == c;
        assert j < k || rest[j - 1] == c;
        assert j < k ==> rest[j] == c;
      }
      NoLonger(a[..n], rest);
    }
  }

  lemma {:induction false} PoolsSuffice(chosen: seq<Candidate>, eligible: seq<Candidate>, cell: Cell, group: int)
    requires Distinct(chosen) && forall c :: c in chosen ==> c in eligible
    ensures |OfCell(chosen, cell)| <= |OfCell(eligible, cell)|
    ensures InGroup(chosen, group) <= InGroup(eligible, group)
  {
    PartsAreDistinct(chosen, cell, group);
    NoLonger(OfCell(chosen, cell), OfCell(eligible, cell));
    NoLonger(InThatGroup(chosen, group), InThatGroup(eligible, group));
  }

  // ---- Matched draws

  type Assignment = map<Candidate, Candidate>

  /** The members of the handled cells are replaced one to one, each within its own cell. */
  ghost predicate Replaces(a: Assignment, chosen: seq<Candidate>, eligible: seq<Candidate>, handled: set<Cell>) {
    && (forall c :: c in a <==> c in chosen && c.cell in handled)
    && (forall c :: c in a ==> a[c].cell == c.cell && a[c] in eligible)
    && (forall c, d :: c in a && d in a && c != d ==> a[c].family != a[d].family)
  }

  /** `dict.update(zip(slots, drawn))`. */
  function Updated(a: Assignment, slots: seq<Candidate>, drawn: seq<Candidate>): (r: Assignment)
    requires |slots| == |drawn|
  {
    if slots == [] then a
    else
      var n := |slots| - 1;
      Updated(a, slots[..n], drawn[..n])[slots[n] := drawn[n]]
  }

  lemma {:induction false} UpdatedKeys(a: Assignment, slots: seq<Candidate>, drawn: seq<Candidate>, c: Candidate)
    requires |slots| == |drawn|
    ensures c in Updated(a, slots, drawn) <==> c in a || c in slots
    ensures c !in slots && c in a ==> Updated(a, slots, drawn)[c] == a[c]
  {
    if slots != [] {
      var n := |slots| - 1;
      UpdatedKeys(a, slots[..n], drawn[..n], c);
      assert slots == slots[..n] + [slots[n]];
    }
  }

  lemma {:induction false} UpdatedSlot(a: Assignment, slots: seq<Candidate>, drawn: seq<Candidate>, i: nat)
    requires |slots| == |drawn| && Distinct(slots) && i < |slots|
    ensures slots[i] in Updated(a, slots, drawn) && Updated(a, slots, drawn)[slots[i]] == drawn[i]
  {
    var n := |slots| - 1;
    if i < n {
      UpdatedSlot(a, slots[..n], drawn[..n], i);
      assert slots[i].family != slots[n].family;
    }
  }

  /** A replacement is drawn for a slot of the cell and otherwise as it was before. */
  lemma {:induction false} ReplacementOf(a: Assignment, slots: seq<Candidate>, drawn: seq<Candidate>,
                                         c: Candidate) returns (i: nat)
    requires Distinct(slots) && |slots| == |drawn| && c in Updated(a, slots, drawn)
    ensures c in slots ==> i < |slots| && slots[i] == c && Updated(a, slots, drawn)[c] == drawn[i]
    ensures c !in slots ==> c in a && Updated(a, slots, drawn)[c] == a[c]
  {
    UpdatedKeys(a, slots, drawn, c);
    i := 0;
    if c in slots {
      i :| i < |slots| && slots[i] == c;
      UpdatedSlot(a, slots, drawn, i);
    }
  }

  lemma {:induction false} ReplacementFits(a: Assignment, eligible: seq<Candidate>, cell: Cell, slots: seq<Candidate>,
                        drawn: seq<Candidate>, c: Candidate)
    requires forall k :: k in a ==> a[k].cell == k.cell && a[k] in eligible
    requires forall k :: k in slots ==> k.cell == cell
    requires Distinct(slots) && |drawn| == |slots| && Within(drawn, OfCell(eligible, cell))
    requires c in Updated(a, slots, drawn)
    ensures Updated(a, slots, drawn)[c].cell == c.cell && Updated(a, slots, drawn)[c] in eligible
  {
    var i := ReplacementOf(a, slots, drawn, c);
    if c in slots {
      assert drawn[i] in OfCell(eligible, cell);
    }
  }

  lemma {:induction false} ReplacementsDiffer(a: Assignment, slots: seq<Candidate>, drawn: seq<Candidate>,
                                              c: Candidate, d: Candidate)
    requires Distinct(slots) && |drawn| == |slots| && Distinct(drawn)
    requires c in Updated(a, slots, drawn) && d in Updated(a, slots, drawn) && c != d
    requires c in a && d in a && c !in slots && d !in slots ==> a[c].family != a[d].family
    requires c in slots <==> d in slots
    ensures Updated(a, slots, drawn)[c].family != Updated(a, slots, drawn)[d].family
  {
    var i := ReplacementOf(a, slots, drawn, c);
    var j := ReplacementOf(a, slots, drawn, d);
    assert c in slots ==> i != j;
  }

  lemma {:induction false} CellKeys(a: Assignment, chosen: seq<Candidate>, eligible: seq<Candidate>,
                                    handled: set<Cell>, cell: Cell, slots: seq<Candidate>, drawn: seq<Candidate>)
    requires Replaces(a, chosen, eligible, handled) && |drawn| == |slots|
    requires forall c :: c in slots <==> c in chosen && c.cell == cell
    ensures forall c: Candidate :: c in Updated(a, slots, drawn) <==> c in chosen && c.cell in handled + {cell}
  {
    forall c: Candidate
      ensures c in Updated(a, slots, drawn) <==> c in chosen && c.cell in handled + {cell}
    {
      UpdatedKeys(a, slots, drawn, c);
    }
  }

  lemma {:induction false} CellReplaces(a: Assignment, chosen: seq<Candidate>, eligible: seq<Candidate>,
                                        handled: set<Cell>, cell: Cell, slots: seq<Candidate>, drawn: seq<Candidate>)
    requires Distinct(eligible) && Replaces(a, chosen, eligible, handled) && cell !in handled
    requires forall c :: c in slots <==> c in chosen && c.cell == cell
    requires Distinct(slots) && |drawn| == |slots| && Distinct(drawn) && Within(drawn, OfCell(eligible, cell))
    ensures Replaces(Updated(a, slots, drawn), chosen, eligible, handled + {cell})
  {
    var next := Updated(a, slots, drawn);
    CellKeys(a, chosen, eligible, handled, cell, slots, drawn);
    forall c | c in next
      ensures next[c].cell == c.cell && next[c] in eligible
    {
      ReplacementFits(a, eligible, cell, slots, drawn, c);
    }
    forall c, d | c in next && d in next && c != d
      ensures next[c].family != next[d].family
    {
      if c in slots <==> d in slots {
        ReplacementsDiffer(a, slots, drawn, c, d);
      }
    }
  }

  /** Replaces the members of one cell. The pool holds every slot, so the draw cannot be infeasible. */
  method MatchCell(chosen: seq<Candidate>, eligible: seq<Candidate>, a: Assignment, cell: Cell,
                   ghost handled: set<Cell>) returns (next: Assignment)
    requires Distinct(chosen) && Distinct(eligible) && Within(chosen, eligible)
    requires Replaces(a, chosen, eligible, handled) && cell !in handled
    ensures Replaces(next, chosen, eligible, handled + {cell})
  {
    var slots, pool := OfCell(chosen, cell), OfCell(eligible, cell);
    PoolsSuffice(chosen, eligible, cell, 0);
    PartsAreDistinct(chosen, cell, 0);
    PartsAreDistinct(eligible, cell, 0);
    if |pool| < |slots| {
      assert false;
    }
    var drawn, picks := Sample(pool, |slots|);
    CellReplaces(a, chosen, eligible, handled, cell, slots, drawn);
    next := Updated(a, slots, drawn);
  }

  method MatchedDraw(chosen: seq<Candidate>, eligible: seq<Candidate>) returns (matched: seq<Candidate>)
    requires Distinct(chosen) && Distinct(eligible) && Within(chosen, eligible)
    ensures |matched| == |chosen| && Distinct(matched) && Within(matched, eligible)
    ensures forall i :: 0 <= i < |chosen| ==> matched[i].cell == chosen[i].cell
  {
    var cells := set c | c in chosen :: c.cell;
    var assignments: Assignment := map[];
    ghost var handled: set<Cell> := {};
    while cells != {}
      invariant Replaces(assignments, chosen, eligible, handled)
      invariant cells !! handled && forall c :: c in chosen ==> c.cell in cells + handled
      decreases |cells|
    {
      var cell :| cell in cells;
      assignments := MatchCell(chosen, eligible, assignments, cell, handled);
      cells, handled := cells - {cell}, handled + {cell};
    }
    matched := InPlace(chosen, assignments);
    ReplacedInPlace(chosen, eligible, assignments, handled);
  }

  function InPlace(chosen: seq<Candidate>, a: Assignment): (r: seq<Candidate>)
    requires forall c :: c in chosen ==> c in a
    ensures |r| == |chosen| && forall i :: 0 <= i < |r| ==> r[i] == a[chosen[i]]
  {
    if chosen == [] then []
    else InPlace(chosen[..|chosen| - 1], a) + [a[chosen[|chosen| - 1]]]
  }

  lemma {:induction false} ReplacedInPlace(chosen: seq<Candidate>, eligible: seq<Candidate>, a: Assignment,
                                           handled: set<Cell>)
    requires Distinct(chosen) && Replaces(a, chosen, eligible, handled)
    requires forall c :: c in chosen ==> c.cell in handled
    ensures Distinct(InPlace(chosen, a)) && Within(InPlace(chosen, a), eligible)
    ensures forall i :: 0 <= i < |chosen| ==> InPlace(chosen, a)[i].cell == chosen[i].cell
  {
    forall i | 0 <= i < |chosen|
      ensures InPlace(chosen, a)[i].cell == chosen[i].cell && InPlace(chosen, a)[i] in eligible
    {
      assert chosen[i] in a;
    }
    forall i, j | 0 <= i < j < |chosen|
      ensures InPlace(chosen, a)[i].family != InPlace(chosen, a)[j].family
    {
      assert chosen[i] in a && chosen[j] in a && chosen[i] != chosen[j];
    }
  }

  // ---- Draws stratified by group

  /** The groups drawn so far hold as many members as the selection, the others none. */
  ghost predicate Stratified(broad: seq<Candidate>, chosen: seq<Candidate>, eligible: seq<Candidate>,
                             left: set<int>) {
    && Distinct(broad) && Within(broad, eligible)
    && (forall c :: c in broad ==> c.group !in left)
    && (forall g :: InGroup(broad, g) == if g in left then 0 else InGroup(chosen, g))
  }

  method DrawGroup(chosen: seq<Candidate>, eligible: seq<Candidate>, group: int, count: nat)
    returns (drawn: seq<Candidate>)
    requires Distinct(chosen) && Distinct(eligible) && Within(chosen, eligible)
    requires count == InGroup(chosen, group)
    ensures |drawn| == count && Distinct(drawn) && Within(drawn, eligible)
    ensures forall c :: c in drawn ==> c.group == group
  {
    var pool := InThatGroup(eligible, group);
    var anyCell := Cell(group, false, false, 0, false);
    PoolsSuffice(chosen, eligible, anyCell, group);
    PartsAreDistinct(eligible, anyCell, group);
    ghost var picks;
    drawn, picks := Sample(pool, count);
    assert forall i :: 0 <= i < |drawn| ==> drawn[i] in pool;
  }

  method StratifiedDraw(chosen: seq<Candidate>, counts: map<int, nat>, eligible: seq<Candidate>)
    returns (broad: seq<Candidate>)
    requires Distinct(chosen) && Distinct(eligible) && Within(chosen, eligible)
    requires Counted(counts, chosen)
    ensures Distinct(broad) && Within(broad, eligible)
    ensures forall g :: InGroup(broad, g) == InGroup(chosen, g)
  {
    broad := [];
    var left := counts.Keys;
    forall g
      ensures g !in left ==> InGroup(chosen, g) == 0
    {
      assert Count(counts, g) == InGroup(chosen, g);
    }
    while left != {}
      invariant left <= counts.Keys && Stratified(broad, chosen, eligible, left)
      decreases |left|
    {
      assert (forall g :: g !in left) ==> left == {};
      var group :| group in left;
      assert Count(counts, group) == InGroup(chosen, group);
      var drawn := DrawGroup(chosen, eligible, group, counts[group]);
      StratumAdds(broad, drawn, chosen, eligible, left, group);
      broad, left := broad + drawn, left - {group};
    }
  }

  lemma {:induction false} StratumAdds(broad: seq<Candidate>, drawn: seq<Candidate>, chosen: seq<Candidate>,
                                       eligible: seq<Candidate>,
                    left: set<int>, group: int)
    requires Stratified(broad, chosen, eligible, left) && group in left && Distinct(eligible)
    requires Distinct(drawn) && Within(drawn, eligible) && |drawn| == InGroup(chosen, group)
    requires forall c :: c in drawn ==> c.group == group
    ensures Stratified(broad + drawn, chosen, eligible, left - {group})
  {
    AddStratum(broad, drawn, group);
    forall i, j | 0 <= i < |broad| && 0 <= j < |drawn|
      ensures broad[i].family != drawn[j].family
    {
      assert broad[i] in broad && drawn[j] in drawn;
    }
    assert Distinct(broad + drawn);
  }

  lemma {:induction false} AddStratum(broad: seq<Candidate>, drawn: seq<Candidate>, group: int)
    requires forall c :: c in drawn ==> c.group == group
    ensures forall g :: InGroup(broad + drawn, g) == InGroup(broad, g) + if g == group then |drawn| else 0
  {
    if drawn == [] {
      assert broad + drawn == broad;
    } else {
      var n := |drawn| - 1;
      AddStratum(broad, drawn[..n], group);
      assert (broad + drawn)[..|broad| + n] == broad + drawn[..n];
      assert drawn[n] in drawn;
    }
  }

  // ---- The cohorts of one selection

  lemma {:induction false} PermutedIsDistinct(s: seq<Candidate>, t: seq<Candidate>)
    requires Distinct(s) && multiset(s) == multiset(t)
    ensures Distinct(t) && forall c :: c in t <==> c in s
  {
    forall c
      ensures c in t <==> c in s
    {
      assert c in multiset(s) <==> c in s;
      assert c in multiset(t) <==> c in t;
    }
    forall i, j | 0 <= i < j < |t|
      ensures t[i].family != t[j].family
    {
      assert t[i] in s && t[j] in s;
      TwicePresent(t, i, j);
      OncePresent(s, t[i]);
    }
  }

  lemma {:induction false} TwicePresent(t: seq<Candidate>, i: nat, j: nat)
    requires i < j < |t|
    ensures t[i] == t[j] ==> multiset(t)[t[i]] >= 2
  {
    assert t == t[..i] + [t[i]] + t[i + 1..j] + [t[j]] + t[j + 1..];
  }

  lemma {:induction false} OncePresent(s: seq<Candidate>, c: Candidate)
    requires Distinct(s)
    ensures multiset(s)[c] <= 1
  {
    if s != [] {
      var n := |s| - 1;
      OncePresent(s[..n], c);
      assert s == s[..n] + [s[n]];
      assert c == s[n] ==> c !in s[..n];
    }
  }

  lemma {:induction false} SelectionIsDistinct(ranked: seq<Candidate>, size: int)
    requires Distinct(ranked)
    ensures Distinct(Selected(ranked, size))
  {
    if ranked != [] {
      var n := |ranked| - 1;
      SelectionIsDistinct(ranked[..n], size);
      SelectionIsFeasible(ranked[..n], size);
      var before := Selected(ranked[..n], size);
      forall x | x in before
        ensures x.family != ranked[n].family
      {
        var k :| 0 <= k < n && ranked[..n][k] == x;
      }
    }
  }

  ghost predicate Matches(m: seq<Candidate>, chosen: seq<Candidate>, eligible: seq<Candidate>) {
    && |m| == |chosen| && Distinct(m) && Within(m, eligible)
    && (forall i :: 0 <= i < |chosen| ==> m[i].cell == chosen[i].cell)
  }

  ghost predicate Stratifies(b: seq<Candidate>, chosen: seq<Candidate>, eligible: seq<Candidate>) {
    Distinct(b) && Within(b, eligible) && forall g :: InGroup(b, g) == InGroup(chosen, g)
  }

  /** Drawn without repetition: the items of k different positions of the pool. */
  ghost predicate DrawnFrom(pool: seq<Candidate>, r: seq<Candidate>, k: nat) {
    |r| == k && exists picks :: Draws(pool, r, picks)
  }

  method AnchorDraws(anchors: seq<Candidate>, k: nat, draws: nat) returns (views: seq<seq<Candidate>>)
    ensures |views| == if |anchors| >= k > 0 then draws else 0
    ensures forall d :: 0 <= d < |views| ==> DrawnFrom(anchors, views[d], k)
  {
    views := [];
    if |anchors| >= k > 0 {
      for d := 0 to draws
        invariant |views| == d && forall e :: 0 <= e < d ==> DrawnFrom(anchors, views[e], k)
      {
        var view, picks := Sample(anchors, k);
        assert DrawnFrom(anchors, view, k);
        views := views + [view];
      }
    }
  }

  /** Selection and controls: whatever the random choices, every draw succeeds. */
  method SelectCohorts(eligible: seq<Candidate>, anchors: seq<Candidate>, size: int, draws: nat)
    returns (chosen: seq<Candidate>, ghost ranked: seq<Candidate>, broad: seq<seq<Candidate>>,
             matched: seq<seq<Candidate>>, anchorViews: seq<seq<Candidate>>)
    requires Distinct(eligible)
    ensures Ranked(ranked) && multiset(ranked) == multiset(eligible) && chosen == Selected(ranked, size)
    ensures |broad| == |matched| == draws
    ensures forall d :: 0 <= d < draws ==> Stratifies(broad[d], chosen, eligible)
    ensures forall d :: 0 <= d < draws ==> Matches(matched[d], chosen, eligible)
    ensures |anchorViews| == if |anchors| >= |chosen| > 0 then draws else 0
    ensures forall d :: 0 <= d < |anchorViews| ==> DrawnFrom(anchors, anchorViews[d], |chosen|)
  {
    var order := Rank(eligible);
    ranked := order;
    PermutedIsDistinct(eligible, order);
    var counts;
    chosen, counts := Select(order, size);
    SelectionIsDistinct(order, size);
    SelectionIsFeasible(order, size);
    anchorViews := AnchorDraws(anchors, |chosen|, draws);
    broad, matched := DrawControls(chosen, counts, eligible, draws);
  }

  method DrawControls(chosen: seq<Candidate>, counts: map<int, nat>, eligible: seq<Candidate>, draws: nat)
    returns (broad: seq<seq<Candidate>>, matched: seq<seq<Candidate>>)
    requires Distinct(chosen) && Distinct(eligible) && Within(chosen, eligible) && Counted(counts, chosen)
    ensures |broad| == |matched| == draws
    ensures forall d :: 0 <= d < draws ==> Stratifies(broad[d], chosen, eligible)
    ensures forall d :: 0 <= d < draws ==> Matches(matched[d], chosen, eligible)
  {
    broad, matched := [], [];
    for d := 0 to draws
      invariant |broad| == |matched| == d
      invariant forall k :: 0 <= k < d ==> Stratifies(broad[k], chosen, eligible)
      invariant forall k :: 0 <= k < d ==> Matches(matched[k], chosen, eligible)
    {
      var b := StratifiedDraw(chosen, counts, eligible);
      var m := MatchedDraw(chosen, eligible);
      broad, matched := broad + [b], matched + [m];
    }
  }

  // ---- Clusters and selection together

  /** What is read of an eligible descriptor before it is clustered. */
  datatype Descriptor = Descriptor(family: int, group: int, cell: Cell, score: Score)

  function Families(descriptors: seq<Descriptor>): (families: seq<int>) {
    seq(|descriptors|, i requires 0 <= i < |descriptors| => descriptors[i].family)
  }

  /** The descriptors under the labels of their families. */
  function Candidates(descriptors: seq<Descriptor>, labels: map<int, int>): (candidates: seq<Candidate>)
    requires forall i :: 0 <= i < |descriptors| ==> descriptors[i].family in labels
  {
    seq(|descriptors|, i requires 0 <= i < |descriptors| && descriptors[i].family in labels =>
      var d := descriptors[i];
      Candidate(d.family, d.group, labels[d.family], d.cell, d.score))
  }

  /** No chain of highly correlated pairs joins two of these. */
  ghost predicate Unjoined(families: seq<int>, high: Components.Pairs, chosen: seq<Candidate>) {
    forall i, j :: 0 <= i < j < |chosen| ==> !Components.Joined(families, high, chosen[i].family, chosen[j].family)
  }

  /** A chain joins the candidate with one of the chosen. */
  ghost predicate JoinedTo(families: seq<int>, high: Components.Pairs, chosen: seq<Candidate>, c: Candidate) {
    exists i :: 0 <= i < |chosen| && Components.Joined(families, high, c.family, chosen[i].family)
  }

  lemma {:induction false} LabelsOf(families: seq<int>, high: Components.Pairs, labels: map<int, int>,
                                    a: Candidate, b: Candidate)
    requires Components.Components(families, high, labels) && a.family in labels && b.family in labels
    requires a.cluster == labels[a.family] && b.cluster == labels[b.family]
    ensures a.cluster == b.cluster <==> Components.Joined(families, high, a.family, b.family)
  {
  }

  /** Every candidate bears the label of its family. */
  predicate Bear(s: seq<Candidate>, labels: map<int, int>) {
    forall i :: 0 <= i < |s| ==> s[i].family in labels && s[i].cluster == labels[s[i].family]
  }

  lemma {:induction false} ChosenAreUnjoined(families: seq<int>, high: Components.Pairs, labels: map<int, int>,
                                             ranked: seq<Candidate>, size: int)
    requires Components.Components(families, high, labels) && Bear(ranked, labels)
    ensures Unjoined(families, high, Selected(ranked, size)) && Bear(Selected(ranked, size), labels)
  {
    var chosen := Selected(ranked, size);
    SelectionIsFeasible(ranked, size);
    forall i | 0 <= i < |chosen| ensures chosen[i].family in labels && chosen[i].cluster == labels[chosen[i].family] {
      assert chosen[i] in chosen;
    }
    forall i, j | 0 <= i < j < |chosen|
      ensures !Components.Joined(families, high, chosen[i].family, chosen[j].family)
    {
      LabelsOf(families, high, labels, chosen[i], chosen[j]);
    }
  }

  /** A scored candidate that is left out of a selection with room is joined to a chosen one, or two of its
      group are chosen. */
  lemma {:induction false} LeftOutIsJoined(families: seq<int>, high: Components.Pairs, labels: map<int, int>,
                                           ranked: seq<Candidate>, size: int, c: Candidate)
    requires Components.Components(families, high, labels) && Bear(ranked, labels) && Distinct(ranked)
    requires c in ranked && c.score.Scored? && c !in Selected(ranked, size) && |Selected(ranked, size)| < size
    ensures JoinedTo(families, high, Selected(ranked, size), c) || InGroup(Selected(ranked, size), c.group) == 2
  {
    var chosen := Selected(ranked, size);
    SelectionIsMaximal(ranked, size, c);
    SelectionIsFeasible(ranked, size);
    ChosenAreUnjoined(families, high, labels, ranked, size);
    if c.cluster in Clusters(chosen) {
      ClustersHas(chosen, c.cluster);
      var i :| 0 <= i < |chosen| && chosen[i].cluster == c.cluster;
      LabelsOf(families, high, labels, c, chosen[i]);
    }
  }

  lemma {:induction false} Relist(eligible: seq<Candidate>, ranked: seq<Candidate>, labels: map<int, int>)
    requires multiset(ranked) == multiset(eligible) && Bear(eligible, labels) && Distinct(eligible)
    ensures Bear(ranked, labels) && Distinct(ranked)
    ensures forall c :: c in ranked <==> c in eligible
  {
    PermutedIsDistinct(eligible, ranked);
    forall c ensures c in ranked <==> c in eligible {
      assert c in multiset(ranked) <==> c in multiset(eligible);
    }
    forall i | 0 <= i < |ranked| ensures ranked[i].family in labels && ranked[i].cluster == labels[ranked[i].family] {
      assert ranked[i] in ranked;
      var k :| 0 <= k < |eligible| && eligible[k] == ranked[i];
    }
  }

  /** A scored candidate that is left out of a choice with room is joined to a chosen one, or two of its
      group are chosen. */
  ghost predicate NothingFits(families: seq<int>, high: Components.Pairs, eligible: seq<Candidate>,
                              chosen: seq<Candidate>, size: int) {
    forall c :: c in eligible && c.score.Scored? && c !in chosen && |chosen| < size ==>
      JoinedTo(families, high, chosen, c) || InGroup(chosen, c.group) == 2
  }

  lemma {:induction false} ChosenOfLabelled(families: seq<int>, high: Components.Pairs, labels: map<int, int>,
                                            eligible: seq<Candidate>, ranked: seq<Candidate>, size: int)
    requires Components.Components(families, high, labels) && Bear(eligible, labels) && Distinct(eligible)
    requires multiset(ranked) == multiset(eligible)
    ensures var chosen := Selected(ranked, size);
      && (forall c :: c in chosen ==> c in eligible)
      && Unjoined(families, high, chosen) && NothingFits(families, high, eligible, chosen, size)
  {
    var chosen := Selected(ranked, size);
    Relist(eligible, ranked, labels);
    ChosenAreUnjoined(families, high, labels, ranked, size);
    SelectionIsFeasible(ranked, size);
    forall c | c in eligible && c.score.Scored? && c !in chosen && |chosen| < size
      ensures JoinedTo(families, high, chosen, c) || InGroup(chosen, c.group) == 2
    {
      LeftOutIsJoined(families, high, labels, ranked, size, c);
    }
  }

  lemma {:induction false} FamiliesAreLabelled(descriptors: seq<Descriptor>, labels: map<int, int>)
    requires Components.Covers(Families(descriptors), labels)
    ensures forall i :: 0 <= i < |descriptors| ==> descriptors[i].family in labels
  {
    forall i | 0 <= i < |descriptors| ensures descriptors[i].family in labels {
      assert Families(descriptors)[i] in labels;
    }
  }

  lemma {:induction false} CandidatesAreDistinct(descriptors: seq<Descriptor>, labels: map<int, int>)
    requires NoRepeat(Families(descriptors))
    requires forall i :: 0 <= i < |descriptors| ==> descriptors[i].family in labels
    ensures Distinct(Candidates(descriptors, labels)) && Bear(Candidates(descriptors, labels), labels)
  {
    var candidates := Candidates(descriptors, labels);
    forall i, j | 0 <= i < j < |candidates|
      ensures candidates[i].family != candidates[j].family
    {
      assert Families(descriptors)[i] != Families(descriptors)[j];
    }
  }

  /** The families of a descriptor list, clustered. */
  method Cluster(descriptors: seq<Descriptor>, high: Components.Pairs)
      returns (eligible: seq<Candidate>, ghost labels: map<int, int>)
    requires NoRepeat(Families(descriptors))
    ensures |eligible| == |descriptors| && Distinct(eligible)
    ensures forall i :: 0 <= i < |eligible| ==>
              eligible[i].family == descriptors[i].family && eligible[i].group == descriptors[i].group &&
              eligible[i].cell == descriptors[i].cell && eligible[i].score == descriptors[i].score
    ensures Components.Components(Families(descriptors), high, labels) && Bear(eligible, labels)
  {
    var found := Components.FindClusters(Families(descriptors), high);
    FamiliesAreLabelled(descriptors, found);
    CandidatesAreDistinct(descriptors, found);
    return Candidates(descriptors, found), found;
  }

  /** `select` from the descriptors: clusters them, then selects and draws. No two chosen families are
      joined by a chain of highly correlated pairs, and nothing scored could be added. */
  method SelectDescriptors(descriptors: seq<Descriptor>, high: Components.Pairs, anchors: seq<Candidate>, size: int,
                           draws: nat)
      returns (chosen: seq<Candidate>, eligible: seq<Candidate>, ghost ranked: seq<Candidate>,
               broad: seq<seq<Candidate>>, matched: seq<seq<Candidate>>, anchorViews: seq<seq<Candidate>>)
    requires NoRepeat(Families(descriptors))
    ensures |eligible| == |descriptors|
    ensures forall i :: 0 <= i < |eligible| ==>
              eligible[i].family == descriptors[i].family && eligible[i].group == descriptors[i].group &&
              eligible[i].cell == descriptors[i].cell && eligible[i].score == descriptors[i].score
    ensures Ranked(ranked) && multiset(ranked) == multiset(eligible) && chosen == Selected(ranked, size)
    ensures Feasible(chosen, size) && forall c :: c in chosen ==> c in eligible
    ensures Unjoined(Families(descriptors), high, chosen)
    ensures NothingFits(Families(descriptors), high, eligible, chosen, size)
    ensures |broad| == |matched| == draws
    ensures forall d :: 0 <= d < draws ==> Stratifies(broad[d], chosen, eligible)
    ensures forall d :: 0 <= d < draws ==> Matches(matched[d], chosen, eligible)
    ensures |anchorViews| == if |anchors| >= |chosen| > 0 then draws else 0
    ensures forall d :: 0 <= d < |anchorViews| ==> DrawnFrom(anchors, anchorViews[d], |chosen|)
  {
    ghost var labels;
    eligible, labels := Cluster(descriptors, high);
    chosen, ranked, broad, matched, anchorViews := SelectCohorts(eligible, anchors, size, draws);
    ChosenOfLabelled(Families(descriptors), high, labels, eligible, ranked, size);
    SelectionIsFeasible(ranked, size);
  }
}
