/** Rows visited timestamp by timestamp: which rows, in which order, and each of them once. */
module Grouping {
  import opened Ascending
  import opened Sequences

  /** `np.flatnonzero(stamps == stamp)`. */
  function RowsAt(stamps: seq<int>, stamp: int): (r: seq<nat>) {
    if stamps == [] then []
    else
      var n := |stamps| - 1;
      RowsAt(stamps[..n], stamp) + if stamps[n] == stamp then [n] else []
  }

  lemma {:induction false} RowsAtHas(stamps: seq<int>, stamp: int, r: nat)
    ensures r in RowsAt(stamps, stamp) <==> r < |stamps| && stamps[r] == stamp
  {
    if stamps != [] {
      RowsAtHas(stamps[..|stamps| - 1], stamp, r);
    }
  }

  lemma {:induction false} RowsAtAscend(stamps: seq<int>, stamp: int)
    ensures forall i, j :: 0 <= i < j < |RowsAt(stamps, stamp)| ==>
              RowsAt(stamps, stamp)[i] < RowsAt(stamps, stamp)[j]
  {
    if stamps != [] {
      var n := |stamps| - 1;
      RowsAtAscend(stamps[..n], stamp);
      var before := RowsAt(stamps[..n], stamp);
      forall i | 0 <= i < |before|
        ensures before[i] < n
      {
        assert before[i] in before;
        RowsAtHas(stamps[..n], stamp, before[i]);
      }
    }
  }

  lemma {:induction false} RowsAtAre(stamps: seq<int>, stamp: int)
    ensures forall r: nat :: r in RowsAt(stamps, stamp) <==> r < |stamps| && stamps[r] == stamp
    ensures NoRepeat(RowsAt(stamps, stamp))
  {
    RowsAtAscend(stamps, stamp);
    forall r: nat
      ensures r in RowsAt(stamps, stamp) <==> r < |stamps| && stamps[r] == stamp
    {
      RowsAtHas(stamps, stamp, r);
    }
  }

  function RowsOf(stamps: seq<int>, group: seq<int>): (r: seq<nat>) {
    if group == [] then [] else RowsOf(stamps, group[..|group| - 1]) + RowsAt(stamps, group[|group| - 1])
  }

  /** The rows of distinct timestamps: every row of each, and none twice. */
  lemma {:induction false} RowsOfAre(stamps: seq<int>, group: seq<int>)
    requires NoRepeat(group)
    ensures forall r: nat :: r in RowsOf(stamps, group) <==> r < |stamps| && stamps[r] in group
    ensures NoRepeat(RowsOf(stamps, group))
  {
    if group != [] {
      var n := |group| - 1;
      assert group == group[..n] + [group[n]];
      RowsOfAre(stamps, group[..n]);
      RowsAtAre(stamps, group[n]);
      NoRepeatJoins(RowsOf(stamps, group[..n]), RowsAt(stamps, group[n]));
    }
  }

  /** `tuple(dict.fromkeys(stamps))`. */
  function DistinctStamps(stamps: seq<int>): (r: seq<int>)
    ensures NoRepeat(r) && forall t :: t in r <==> t in stamps
  {
    if stamps == [] then []
    else
      var n := |stamps| - 1;
      var before := DistinctStamps(stamps[..n]);
      assert stamps == stamps[..n] + [stamps[n]];
      if stamps[n] in before then before
      else
        NoRepeatJoins(before, [stamps[n]]);
        before + [stamps[n]]
  }

  /** `timestamps.index(stamp)`. */
  function IndexOf(group: seq<int>, stamp: int): (i: nat)
    requires stamp in group
    ensures i < |group| && group[i] == stamp
  {
    if group[0] == stamp then 0 else IndexOf(group[1..], stamp) + 1
  }

  predicate Nondecreasing(stamps: seq<int>) {
    forall i, j :: 0 <= i <= j < |stamps| ==> stamps[i] <= stamps[j]
  }

  /** Runs of equal timestamps; refuses a sequence in which a timestamp is followed by an earlier one. */
  method CanonicalTimestampGroups(stamps: seq<int>) returns (r: Result<seq<seq<nat>>>)
    ensures r.Ok? <==> Nondecreasing(stamps)
    ensures r.Ok? ==> |r.value| == |DistinctStamps(stamps)|
    ensures r.Ok? ==> forall k :: 0 <= k < |r.value| ==> r.value[k] == RowsAt(stamps, DistinctStamps(stamps)[k])
  {
    var groups: seq<seq<nat>> := [];
    var start := 0;
    while start < |stamps|
      invariant 0 <= start <= |stamps| && Grouped(stamps, start, groups)
    {
      var stop := start + 1;
      while stop < |stamps| && stamps[stop] == stamps[start]
        invariant start < stop <= |stamps|
        invariant forall k :: start <= k < stop ==> stamps[k] == stamps[start]
      {
        stop := stop + 1;
      }
      if stop < |stamps| && stamps[stop] < stamps[start] {
        return Err("timestamp rows are not in canonical chronological order");
      }
      RunGrouped(stamps, start, stop, groups);
      groups := groups + [Range(start, stop)];
      start := stop;
    }
    assert stamps[..|stamps|] == stamps;
    return Ok(groups);
  }

  function Range(start: nat, stop: nat): (r: seq<nat>)
    requires start <= stop
  {
    seq(stop - start, k requires 0 <= k => start + k)
  }

  /** The rows before start are in order, earlier than those after, and their groups are complete. */
  ghost predicate Grouped(stamps: seq<int>, start: nat, groups: seq<seq<nat>>)
    requires start <= |stamps|
  {
    && Nondecreasing(stamps[..start])
    && (0 < start < |stamps| ==> stamps[start - 1] < stamps[start])
    && |groups| == |DistinctStamps(stamps[..start])|
    && (forall k :: 0 <= k < |groups| ==>
          groups[k] == RowsAt(stamps[..start], DistinctStamps(stamps[..start])[k]))
  }

  lemma {:induction false} NoRows(stamps: seq<int>, stamp: int)
    requires forall k :: 0 <= k < |stamps| ==> stamps[k] != stamp
    ensures RowsAt(stamps, stamp) == []
  {
    if stamps != [] {
      NoRows(stamps[..|stamps| - 1], stamp);
    }
  }

  /** The positions start to stop hold one run of a timestamp that does not occur before. */
  predicate Run(stamps: seq<int>, start: nat, stop: nat) {
    && start < stop <= |stamps|
    && (forall k :: start <= k < stop ==> stamps[k] == stamps[start])
    && (forall k :: 0 <= k < start ==> stamps[k] != stamps[start])
  }

  lemma {:induction false} RunIsDistinct(stamps: seq<int>, start: nat, stop: nat)
    requires Run(stamps, start, stop)
    ensures DistinctStamps(stamps[..stop]) == DistinctStamps(stamps[..start]) + [stamps[start]]
    decreases stop
  {
    assert stamps[..stop][..stop - 1] == stamps[..stop - 1];
    if stop - 1 > start {
      RunIsDistinct(stamps, start, stop - 1);
    }
  }

  lemma {:induction false} RunIsRows(stamps: seq<int>, start: nat, stop: nat)
    requires Run(stamps, start, stop)
    ensures RowsAt(stamps[..stop], stamps[start]) == Range(start, stop)
    decreases stop
  {
    assert stamps[..stop][..stop - 1] == stamps[..stop - 1];
    if stop - 1 > start {
      RunIsRows(stamps, start, stop - 1);
      assert Range(start, stop - 1) + [stop - 1] == Range(start, stop);
    } else {
      NoRows(stamps[..start], stamps[start]);
      assert [start] == Range(start, stop);
    }
  }

  lemma {:induction false} RunLeavesOthers(stamps: seq<int>, start: nat, stop: nat, t: int)
    requires Run(stamps, start, stop) && t != stamps[start]
    ensures RowsAt(stamps[..stop], t) == RowsAt(stamps[..start], t)
    decreases stop
  {
    assert stamps[..stop][..stop - 1] == stamps[..stop - 1];
    if stop - 1 > start {
      RunLeavesOthers(stamps, start, stop - 1, t);
    }
  }

  lemma {:induction false} RunGrouped(stamps: seq<int>, start: nat, stop: nat, groups: seq<seq<nat>>)
    requires start < stop <= |stamps| && Grouped(stamps, start, groups)
    requires forall k :: start <= k < stop ==> stamps[k] == stamps[start]
    requires stop < |stamps| ==> stamps[stop] > stamps[start]
    ensures Grouped(stamps, stop, groups + [Range(start, stop)])
  {
    forall k | 0 <= k < start
      ensures stamps[k] < stamps[start]
    {
      assert stamps[..start][k] <= stamps[..start][start - 1];
    }
    RunIsDistinct(stamps, start, stop);
    RunIsRows(stamps, start, stop);
    var next := groups + [Range(start, stop)];
    forall i, j | 0 <= i <= j < stop
      ensures stamps[..stop][i] <= stamps[..stop][j]
    {
      if j < start {
        assert stamps[..start][i] <= stamps[..start][j];
      }
    }
    forall k | 0 <= k < |next|
      ensures next[k] == RowsAt(stamps[..stop], DistinctStamps(stamps[..stop])[k])
    {
      if k < |groups| {
        var t := DistinctStamps(stamps[..start])[k];
        assert t in stamps[..start];
        RunLeavesOthers(stamps, start, stop, t);
      }
    }
  }
}
