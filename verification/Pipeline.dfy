/** The cache builder: a windowed pipeline of transforms, and the arrays that rows read it through. */
module Pipeline {
  import opened Ascending
  import opened Grouping
  import opened Sequences

  const MAX_WORKERS: nat := 8

  // ---- The windowed pipeline

  /** How many tasks come before the first whose transform fails. */
  function Succeeding<T, U>(f: T -> Result<U>, tasks: seq<T>): (n: nat)
    ensures n <= |tasks|
    ensures forall k :: 0 <= k < n ==> f(tasks[k]).Ok?
    ensures n < |tasks| ==> f(tasks[n]).Err?
  {
    if tasks == [] || f(tasks[0]).Err? then 0 else 1 + Succeeding(f, tasks[1..])
  }

  predicate AreResults<T, U(==)>(f: T -> Result<U>, tasks: seq<T>, results: seq<U>) {
    |results| <= |tasks| && forall k :: 0 <= k < |results| ==> f(tasks[k]) == Ok(results[k])
  }

  /** Yields the results of the tasks in order while at most `window` tasks are submitted and not yet
      yielded. `submitted` and `peak` record what was submitted and the most that was ever pending. */
  method OrderedTransforms<T, U(==)>(f: T -> Result<U>, tasks: seq<T>, window: nat)
    returns (yielded: seq<U>, failed: bool, ghost submitted: seq<T>, ghost peak: nat)
    ensures window == 0 ==> yielded == [] && !failed && submitted == []
    ensures window > 0 ==> AreResults(f, tasks, yielded) && |yielded| == Succeeding(f, tasks)
    ensures window > 0 ==> (failed <==> Succeeding(f, tasks) < |tasks|)
    ensures submitted <= tasks && (window > 0 && !failed ==> submitted == tasks)
    ensures peak <= window
  {
    var next := if window < |tasks| then window else |tasks|;
    var pending := tasks[..next];
    yielded, failed, submitted, peak := [], false, pending, |pending|;
    while pending != []
      invariant |pending| <= window && peak <= window
      invariant |yielded| + |pending| == next <= |tasks|
      invariant pending == tasks[|yielded|..next] && submitted == tasks[..next]
      invariant AreResults(f, tasks, yielded)
      invariant window == 0 ==> next == 0
      invariant window > 0 && next < |tasks| ==> |pending| == window
      decreases |tasks| - |yielded|
    {
      assert pending[1..] == tasks[|yielded| + 1..next];
      assert pending[0] == tasks[|yielded|];
      var result := f(pending[0]);
      pending := pending[1..];
      if result.Err? {
        failed := true;
        return;
      }
      yielded := yielded + [result.value];
      if next < |tasks| {
        assert tasks[..next + 1] == tasks[..next] + [tasks[next]];
        assert tasks[|yielded|..next + 1] == tasks[|yielded|..next] + [tasks[next]];
        pending := pending + [tasks[next]];
        submitted := submitted + [tasks[next]];
        next := next + 1;
        if |pending| > peak {
          peak := |pending|;
        }
      }
    }
  }

  // ---- A streamed source

  /** Ascending positions of the source at which the timestamps stand, one for each. */
  ghost predicate Embeds(keys: seq<int>, stamps: seq<int>, at: seq<nat>) {
    && |at| == |stamps|
    && (forall k :: 0 <= k < |at| ==> at[k] < |keys| && keys[at[k]] == stamps[k])
    && (forall j, k :: 0 <= j < k < |at| ==> at[j] < at[k])
  }

  /** Reads the source on to the next pair with that timestamp, or to its end. */
  method Seek<T>(source: seq<(int, T)>, from: nat, stamp: int) returns (next: nat)
    requires from <= |source|
    ensures from <= next <= |source| && (next < |source| ==> Keys(source)[next] == stamp)
    ensures forall k :: from <= k < next ==> Keys(source)[k] != stamp
  {
    next := from;
    while next < |source| && source[next].0 != stamp
      invariant from <= next <= |source|
      invariant forall k :: from <= k < next ==> Keys(source)[k] != stamp
    {
      next := next + 1;
    }
  }

  /** No embedding of the timestamps stands before these positions anywhere. */
  ghost predicate Leads(keys: seq<int>, stamps: seq<int>, at: seq<nat>) {
    |at| <= |stamps| && forall p, k :: Embeds(keys, stamps, p) && 0 <= k < |at| ==> at[k] <= p[k]
  }

  lemma {:induction false} LeadGrows(keys: seq<int>, stamps: seq<int>, at: seq<nat>, from: nat, next: nat)
    requires Leads(keys, stamps, at) && |at| < |stamps|
    requires from == if at == [] then 0 else at[|at| - 1] + 1
    requires forall k :: from <= k < next && k < |keys| ==> keys[k] != stamps[|at|]
    ensures Leads(keys, stamps, at + [next])
  {
    forall p | Embeds(keys, stamps, p)
      ensures next <= p[|at|]
    {
      if at != [] {
        assert at[|at| - 1] <= p[|at| - 1] < p[|at|];
      }
    }
  }

  /** The values of the timestamps, taken from a source that can only be read forward: each at the first
      position where it can be. */
  method StreamedSources<T>(source: seq<(int, T)>, stamps: seq<int>) returns (r: Result<seq<T>>, ghost at: seq<nat>)
    ensures r.Ok? <==> exists p :: Embeds(Keys(source), stamps, p)
    ensures r.Ok? ==> Embeds(Keys(source), stamps, at) && |r.value| == |stamps|
    ensures r.Ok? ==> Leads(Keys(source), stamps, at)
    ensures r.Ok? ==> forall k :: 0 <= k < |stamps| ==> r.value[k] == source[at[k]].1
  {
    var values, next := [], 0;
    at := [];
    for n := 0 to |stamps|
      invariant 0 <= next <= |source| && |values| == |at| == n
      invariant Earliest(Keys(source), stamps[..n], at, next) && Leads(Keys(source), stamps, at)
      invariant forall k :: 0 <= k < n ==> values[k] == source[at[k]].1
    {
      ghost var from := next;
      next := Seek(source, next, stamps[n]);
      if next == |source| {
        NoEmbedding(Keys(source), stamps, at, from, n);
        return Err("cache tensor source is missing timestamp"), at;
      }
      EarliestGrows(Keys(source), stamps, at, from, next, n);
      LeadGrows(Keys(source), stamps, at, from, next);
      values, at := values + [source[next].1], at + [next];
      next := next + 1;
    }
    assert stamps[..|stamps|] == stamps;
    return Ok(values), at;
  }

  function Keys<T>(source: seq<(int, T)>): (r: seq<int>) {
    seq(|source|, k requires 0 <= k < |source| => source[k].0)
  }

  /** These positions embed the timestamps and end before `next`; no other embedding ends before they do. */
  ghost predicate Earliest(keys: seq<int>, stamps: seq<int>, at: seq<nat>, next: nat) {
    && next <= |keys|
    && Embeds(keys, stamps, at)
    && (next == if at == [] then 0 else at[|at| - 1] + 1)
    && (forall p :: Embeds(keys, stamps, p) && p != [] ==> p[|p| - 1] + 1 >= next)
  }

  lemma {:induction false} EarliestGrows(keys: seq<int>, stamps: seq<int>, at: seq<nat>, from: nat, next: nat, n: nat)
    requires n < |stamps| && Earliest(keys, stamps[..n], at, from)
    requires from <= next < |keys| && keys[next] == stamps[n]
    requires forall k :: from <= k < next ==> keys[k] != stamps[n]
    ensures Earliest(keys, stamps[..n + 1], at + [next], next + 1)
  {
    assert Embeds(keys, stamps[..n + 1], at + [next]);
    forall p | Embeds(keys, stamps[..n + 1], p) && p != []
      ensures p[|p| - 1] >= next
    {
      LastIsLate(keys, stamps, at, from, n, p);
    }
  }

  lemma {:induction false} LastIsLate(keys: seq<int>, stamps: seq<int>, at: seq<nat>, from: nat, n: nat, p: seq<nat>)
    requires n < |stamps| && Earliest(keys, stamps[..n], at, from)
    requires Embeds(keys, stamps[..n + 1], p)
    ensures p[n] >= from && p[n] < |keys| && keys[p[n]] == stamps[n]
  {
    var front := p[..n];
    assert Embeds(keys, stamps[..n], front);
    if n > 0 {
      assert front[|front| - 1] + 1 >= from;
    }
  }

  lemma {:induction false} NoEmbedding(keys: seq<int>, stamps: seq<int>, at: seq<nat>, from: nat, n: nat)
    requires n < |stamps| && Earliest(keys, stamps[..n], at, from)
    requires forall k :: from <= k < |keys| ==> keys[k] != stamps[n]
    ensures !exists p :: Embeds(keys, stamps, p)
  {
    forall p
      ensures !Embeds(keys, stamps, p)
    {
      if Embeds(keys, stamps, p) {
        LastIsLate(keys, stamps, at, from, n, p[..n + 1]);
      }
    }
  }

  // ---- The cache of one batch

  /** The cached arrays: each row's position in the timestamp axis, and the transforms by position. */
  datatype Cache<U> = Cache(rowTimestamp: seq<nat>, transforms: seq<U>)

  /** It has rows, and its timestamps are distinct and cover the rows. */
  predicate Addressable(rowStamps: seq<int>, stamps: seq<int>) {
    && rowStamps != [] && NoRepeat(stamps)
    && (forall t :: t in rowStamps ==> t in stamps)
  }

  /** Can the batch be cached? It is addressable, and every timestamp has a tensor that can be transformed. */
  ghost predicate Cacheable<T, U>(rowStamps: seq<int>, stamps: seq<int>, tensors: map<int, T>, f: T -> Result<U>) {
    && Addressable(rowStamps, stamps)
    && (forall k :: 0 <= k < |stamps| ==> stamps[k] in tensors && f(tensors[stamps[k]]).Ok?)
  }

  /** Looks every row's timestamp up in the timestamp axis. */
  method RowPositions(rowStamps: seq<int>, stamps: seq<int>) returns (r: Result<seq<nat>>)
    ensures r.Ok? <==> rowStamps != [] && forall t :: t in rowStamps ==> t in stamps
    ensures r.Ok? ==> |r.value| == |rowStamps|
    ensures r.Ok? ==> forall k :: 0 <= k < |rowStamps| ==> r.value[k] < |stamps| && stamps[r.value[k]] == rowStamps[k]
  {
    if rowStamps == [] {
      return Err("no rows");
    }
    var positions: seq<nat> := [];
    for n := 0 to |rowStamps|
      invariant |positions| == n && forall t :: t in rowStamps[..n] ==> t in stamps
      invariant forall k :: 0 <= k < n ==> positions[k] < |stamps| && stamps[positions[k]] == rowStamps[k]
    {
      if rowStamps[n] !in stamps {
        ghost var t := rowStamps[n];
        assert t in rowStamps;
        return Err("row timestamp is missing");
      }
      assert rowStamps[..n + 1] == rowStamps[..n] + [rowStamps[n]];
      positions := positions + [IndexOf(stamps, rowStamps[n])];
    }
    assert rowStamps[..|rowStamps|] == rowStamps;
    return Ok(positions);
  }

  /** A timestamp's tensor, then its transform; fails where either does. */
  function Fetch<T, U>(tensors: map<int, T>, f: T -> Result<U>, stamp: int): (r: Result<U>) {
    if stamp in tensors then f(tensors[stamp]) else Err("tensor is missing")
  }

  /** Each row points at the position of its own timestamp, and that position holds the transform of its task. */
  ghost predicate Caches<T, U>(cache: Cache<U>, rowStamps: seq<int>, stamps: seq<int>, tasks: seq<T>,
                               f: T -> Result<U>) {
    && |cache.transforms| == |tasks| == |stamps| && |cache.rowTimestamp| == |rowStamps|
    && (forall k :: 0 <= k < |rowStamps| ==>
          cache.rowTimestamp[k] < |stamps| && stamps[cache.rowTimestamp[k]] == rowStamps[k])
    && (forall k :: 0 <= k < |tasks| ==> f(tasks[k]) == Ok(cache.transforms[k]))
  }

  /** Transforms one task for each timestamp and fills the arrays position by position. */
  method FillCache<T, U(==)>(rowStamps: seq<int>, stamps: seq<int>, tasks: seq<T>, f: T -> Result<U>)
      returns (r: Result<Cache<U>>)
    requires |tasks| == |stamps|
    ensures r.Ok? <==> Addressable(rowStamps, stamps) && forall k :: 0 <= k < |tasks| ==> f(tasks[k]).Ok?
    ensures r.Ok? ==> Caches(r.value, rowStamps, stamps, tasks, f)
  {
    if !NoRepeat(stamps) {
      return Err("cache timestamps are not unique");
    }
    var rows := RowPositions(rowStamps, stamps);
    if rows.Err? {
      return Err(rows.reason);
    }
    assert rowStamps[0] in rowStamps && rowStamps[0] in stamps;
    var workers := if |stamps| < MAX_WORKERS then |stamps| else MAX_WORKERS;
    var results, failed, _, _ := OrderedTransforms(f, tasks, workers);
    if failed {
      return Err("transform failed");
    }
    var axis := new U[|stamps|](_ => results[0]);
    axis[0] := results[0];
    for position := 1 to |results|
      invariant axis[..position] == results[..position]
    {
      axis[position] := results[position];
    }
    assert axis[..] == results;
    return Ok(Cache(rows.value, axis[..]));
  }

  /** The cache of a batch that holds its tensors. Each row reads the transform of its own timestamp. */
  method MaterialiseBatch<T, U(==)>(rowStamps: seq<int>, stamps: seq<int>, tensors: map<int, T>, f: T -> Result<U>)
      returns (r: Result<Cache<U>>)
    ensures r.Ok? <==> Cacheable(rowStamps, stamps, tensors, f)
    ensures r.Ok? ==> |r.value.transforms| == |stamps| && |r.value.rowTimestamp| == |rowStamps|
    ensures r.Ok? ==> forall row :: 0 <= row < |rowStamps| ==>
              && r.value.rowTimestamp[row] < |stamps|
              && Fetch(tensors, f, rowStamps[row]) == Ok(r.value.transforms[r.value.rowTimestamp[row]])
  {
    r := FillCache(rowStamps, stamps, stamps, t => Fetch(tensors, f, t));
  }

  /** The cache of a batch whose tensors come from a source that can only be read forward. Each row reads
      the transform of the value that the source lists under the row's own timestamp, at the first position
      where it can be. */
  method MaterialiseStream<T, U(==)>(rowStamps: seq<int>, stamps: seq<int>, source: seq<(int, T)>, f: T -> Result<U>)
      returns (r: Result<Cache<U>>, ghost at: seq<nat>)
    ensures (exists p :: Embeds(Keys(source), stamps, p)) ==>
              Embeds(Keys(source), stamps, at) && Leads(Keys(source), stamps, at)
    ensures r.Ok? <==>
      && Addressable(rowStamps, stamps) && Embeds(Keys(source), stamps, at)
      && forall k :: 0 <= k < |at| ==> f(source[at[k]].1).Ok?
    ensures r.Ok? ==> |r.value.transforms| == |stamps| && |r.value.rowTimestamp| == |rowStamps|
    ensures r.Ok? ==> forall row :: 0 <= row < |rowStamps| ==>
              var position := r.value.rowTimestamp[row];
              && position < |stamps| && source[at[position]].0 == rowStamps[row]
              && f(source[at[position]].1) == Ok(r.value.transforms[position])
  {
    var values;
    values, at := StreamedSources(source, stamps);
    if values.Err? {
      return Err(values.reason), at;
    }
    r := FillCache(rowStamps, stamps, values.value, f);
    if r.Ok? {
      forall row | 0 <= row < |rowStamps|
        ensures source[at[r.value.rowTimestamp[row]]].0 == rowStamps[row]
      {
        assert Keys(source)[at[r.value.rowTimestamp[row]]] == rowStamps[row];
      }
    }
  }
}
