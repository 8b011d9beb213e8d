/** Forecast payloads joined with outcomes into evaluation rows. */
module ForecastRows {
  import opened Ascending
  import opened Sequences

  /** A JSON number that may not be finite. */
  datatype Number = Finite(value: real) | NotFinite

  datatype Outcome = Outcome(key: int, period: Option<int>, instrument: int, time: int, target: Number)

  datatype Payload = Payload(slot: int, stage: int, controls: int, keys: seq<int>, total: seq<Number>,
                             residual: seq<Number>, local: seq<Number>, pooled: seq<Number>)

  datatype Row = Row(period: int, instrument: int, time: int, target: real, forecast: real, residual: real,
                     local: real, pooled: real, slot: int, controls: int)

  /** The keys of a period's outcomes, in the outcomes' order. */
  function Support(outcomes: seq<Outcome>, period: int): (r: seq<int>) {
    if outcomes == [] then []
    else
      var n := |outcomes| - 1;
      var before := Support(outcomes[..n], period);
      if outcomes[n].period == Some(period) then before + [outcomes[n].key] else before
  }

  predicate UniqueKeys(outcomes: seq<Outcome>) {
    forall i, j :: 0 <= i < j < |outcomes| ==> outcomes[i].key != outcomes[j].key
  }

  /** The outcomes by key. */
  function Index(outcomes: seq<Outcome>): (r: map<int, Outcome>) {
    if outcomes == [] then map[]
    else Index(outcomes[..|outcomes| - 1])[outcomes[|outcomes| - 1].key := outcomes[|outcomes| - 1]]
  }

  ghost predicate Indexes(outcomes: seq<Outcome>, byKey: map<int, Outcome>) {
    && (forall k :: 0 <= k < |outcomes| ==> outcomes[k].key in byKey && byKey[outcomes[k].key] == outcomes[k])
    && (forall key :: key in byKey ==> byKey[key] in outcomes && byKey[key].key == key)
  }

  ghost predicate Supports(outcomes: seq<Outcome>, expected: map<int, seq<int>>) {
    && (forall period :: period in expected ==> expected[period] == Support(outcomes, period) != [])
    && (forall period :: period !in expected ==> Support(outcomes, period) == [])
  }

  /** Indexes the outcomes; refuses a repeated key, and without `mapping` an outcome without a period. */
  method IndexOutcomes(outcomes: seq<Outcome>, mapping: bool)
    returns (ok: bool, byKey: map<int, Outcome>, expected: map<int, seq<int>>)
    ensures ok <==> UniqueKeys(outcomes) && (mapping || forall k :: 0 <= k < |outcomes| ==> outcomes[k].period.Some?)
    ensures ok ==> byKey == Index(outcomes) && Indexes(outcomes, byKey) && Supports(outcomes, expected)
  {
    byKey, expected := map[], map[];
    for n := 0 to |outcomes|
      invariant Indexed(outcomes, n, mapping, byKey, expected)
    {
      var outcome := outcomes[n];
      if outcome.key in byKey || (!mapping && outcome.period.None?) {
        RefusedOutcome(outcomes, n, byKey, mapping);
        return false, byKey, expected;
      }
      IndexedGrows(outcomes, n, mapping, byKey, expected);
      byKey := byKey[outcome.key := outcome];
      if outcome.period.Some? {
        expected := WithKey(expected, outcome.period.value, outcome.key);
      }
    }
    assert outcomes[..|outcomes|] == outcomes;
    ok := true;
  }

  ghost predicate Indexed(outcomes: seq<Outcome>, n: nat, mapping: bool, byKey: map<int, Outcome>,
                          expected: map<int, seq<int>>)
    requires n <= |outcomes|
  {
    && UniqueKeys(outcomes[..n])
    && (mapping || forall k :: 0 <= k < n ==> outcomes[k].period.Some?)
    && byKey == Index(outcomes[..n])
    && Indexes(outcomes[..n], byKey)
    && Supports(outcomes[..n], expected)
  }

  lemma {:induction false} IndexedGrows(outcomes: seq<Outcome>, n: nat, mapping: bool, byKey: map<int, Outcome>,
                     expected: map<int, seq<int>>)
    requires n < |outcomes| && Indexed(outcomes, n, mapping, byKey, expected)
    requires outcomes[n].key !in byKey && (mapping || outcomes[n].period.Some?)
    ensures Indexed(outcomes, n + 1, mapping, byKey[outcomes[n].key := outcomes[n]],
              if outcomes[n].period.Some? then WithKey(expected, outcomes[n].period.value, outcomes[n].key)
              else expected)
  {
    assert outcomes[..n + 1][..n] == outcomes[..n];
    IndexGrows(outcomes, n, byKey);
    SupportGrows(outcomes, n, expected);
  }

  lemma {:induction false} RefusedOutcome(outcomes: seq<Outcome>, n: nat, byKey: map<int, Outcome>, mapping: bool)
    requires n < |outcomes| && Indexes(outcomes[..n], byKey)
    requires outcomes[n].key in byKey || (!mapping && outcomes[n].period.None?)
    ensures !(UniqueKeys(outcomes) && (mapping || forall k :: 0 <= k < |outcomes| ==> outcomes[k].period.Some?))
  {
    if outcomes[n].key in byKey {
      var k :| 0 <= k < n && outcomes[..n][k] == byKey[outcomes[n].key];
      assert outcomes[k].key == outcomes[n].key;
    }
  }

  /** `expected[period].append(key)` of a default dictionary of lists. */
  function WithKey(expected: map<int, seq<int>>, period: int, key: int): (r: map<int, seq<int>>) {
    expected[period := (if period in expected then expected[period] else []) + [key]]
  }

  lemma {:induction false} IndexGrows(outcomes: seq<Outcome>, n: nat, byKey: map<int, Outcome>)
    requires n < |outcomes| && Indexes(outcomes[..n], byKey) && outcomes[n].key !in byKey
    requires UniqueKeys(outcomes[..n])
    ensures Indexes(outcomes[..n + 1], byKey[outcomes[n].key := outcomes[n]]) && UniqueKeys(outcomes[..n + 1])
  {
    var front, grown := outcomes[..n], outcomes[..n + 1];
    var next := byKey[outcomes[n].key := outcomes[n]];
    assert grown == front + [outcomes[n]];
    forall k | 0 <= k < n
      ensures grown[k].key != outcomes[n].key && next[grown[k].key] == grown[k]
    {
      assert front[k].key in byKey;
    }
  }

  lemma {:induction false} SupportGrows(outcomes: seq<Outcome>, n: nat, expected: map<int, seq<int>>)
    requires n < |outcomes| && Supports(outcomes[..n], expected)
    ensures outcomes[n].period.None? ==> Supports(outcomes[..n + 1], expected)
    ensures outcomes[n].period.Some? ==>
              Supports(outcomes[..n + 1], WithKey(expected, outcomes[n].period.value, outcomes[n].key))
  {
    assert outcomes[..n + 1][..n] == outcomes[..n];
  }

  // ---- One payload

  /** The total must be the local forecast plus the residual, and every number finite. */
  predicate EntryFits(p: Payload, k: nat, outcome: Outcome)
    requires k < |p.keys| == |p.total| == |p.residual| == |p.local| == |p.pooled|
  {
    && outcome.target.Finite? && p.total[k].Finite? && p.residual[k].Finite? && p.local[k].Finite?
    && p.pooled[k].Finite?
    && p.total[k].value == p.local[k].value + p.residual[k].value
  }

  function RowOf(p: Payload, k: nat, outcome: Outcome): (r: Row)
    requires k < |p.keys| == |p.total| == |p.residual| == |p.local| == |p.pooled|
    requires EntryFits(p, k, outcome)
  {
    Row(p.stage, outcome.instrument, outcome.time, outcome.target.value, p.total[k].value, p.residual[k].value,
        p.local[k].value, p.pooled[k].value, p.slot, p.controls)
  }

  predicate Aligned(p: Payload) {
    |p.keys| == |p.total| == |p.residual| == |p.local| == |p.pooled|
  }

  /** The payload covers its stage's support, in its order, with fitting entries. */
  ghost predicate Fits(p: Payload, outcomes: seq<Outcome>, byKey: map<int, Outcome>) {
    && p.keys == Support(outcomes, p.stage) != []
    && Aligned(p)
    && (forall k :: 0 <= k < |p.keys| ==> p.keys[k] in byKey && EntryFits(p, k, byKey[p.keys[k]]))
  }

  /** These are the payload's rows: one for each key of the support, in its order. */
  ghost predicate AreRows(rows: seq<Row>, p: Payload, byKey: map<int, Outcome>, n: nat)
    requires Aligned(p) && n <= |p.keys|
  {
    && |rows| == n
    && (forall k :: 0 <= k < n ==> p.keys[k] in byKey && EntryFits(p, k, byKey[p.keys[k]]))
    && (forall k :: 0 <= k < n ==> rows[k] == RowOf(p, k, byKey[p.keys[k]]))
  }

  lemma {:induction false} SupportHas(outcomes: seq<Outcome>, byKey: map<int, Outcome>, period: int, k: nat)
    requires UniqueKeys(outcomes) && k < |Support(outcomes, period)|
    requires forall i :: 0 <= i < |outcomes| ==> outcomes[i].key in byKey && byKey[outcomes[i].key] == outcomes[i]
    ensures Support(outcomes, period)[k] in byKey
    ensures byKey[Support(outcomes, period)[k]].period == Some(period)
  {
    var n := |outcomes| - 1;
    if k < |Support(outcomes[..n], period)| {
      SupportHas(outcomes[..n], byKey, period, k);
    }
  }

  lemma {:induction false} SupportIsDistinct(outcomes: seq<Outcome>, period: int)
    requires UniqueKeys(outcomes)
    ensures NoRepeat(Support(outcomes, period))
    ensures forall key :: key in Support(outcomes, period) <==>
              exists i :: 0 <= i < |outcomes| && outcomes[i].period == Some(period) && outcomes[i].key == key
  {
    if outcomes != [] {
      var n := |outcomes| - 1;
      var front := outcomes[..n];
      SupportIsDistinct(front, period);
      assert forall i :: 0 <= i < n ==> front[i] == outcomes[i];
      if outcomes[n].period == Some(period) {
        NoRepeatJoins(Support(front, period), [outcomes[n].key]);
      }
    }
  }

  /** The checks of one payload, in their order, and its rows. */
  method RowsOfPayload(p: Payload, outcomes: seq<Outcome>, byKey: map<int, Outcome>, expected: map<int, seq<int>>)
    returns (r: Result<seq<Row>>)
    requires UniqueKeys(outcomes) && Indexes(outcomes, byKey) && Supports(outcomes, expected)
    ensures r.Ok? <==> Fits(p, outcomes, byKey)
    ensures r.Ok? ==> Aligned(p) && AreRows(r.value, p, byKey, |p.keys|)
  {
    SupportIsDistinct(outcomes, p.stage);
    if !NoRepeat(p.keys) {
      return Err("forecast payload contains duplicate target keys");
    }
    if k :| 0 <= k < |p.keys| && p.keys[k] in byKey && byKey[p.keys[k]].period !in {None, Some(p.stage)} {
      WrongPeriod(p, outcomes, byKey, k);
      return Err("outcome period does not match forecast stage");
    }
    if p.stage !in expected || (set k | k in expected[p.stage]) != (set k | k in p.keys) {
      return Err("outcome key is out of forecast support");
    }
    if p.keys != expected[p.stage] {
      return Err("forecast payload target keys differ from canonical support order");
    }
    if !Aligned(p) {
      return Err("forecast payload arrays are misaligned");
    }
    r := RowsOfEntries(p, outcomes, byKey);
  }

  /** The entries of a payload whose keys are its stage's support. */
  method RowsOfEntries(p: Payload, outcomes: seq<Outcome>, byKey: map<int, Outcome>) returns (r: Result<seq<Row>>)
    requires UniqueKeys(outcomes) && Indexes(outcomes, byKey)
    requires p.keys == Support(outcomes, p.stage) != [] && Aligned(p)
    ensures r.Ok? <==> Fits(p, outcomes, byKey)
    ensures r.Ok? ==> AreRows(r.value, p, byKey, |p.keys|)
  {
    var rows: seq<Row> := [];
    for k := 0 to |p.keys|
      invariant AreRows(rows, p, byKey, k)
    {
      SupportHas(outcomes, byKey, p.stage, k);
      var outcome := byKey[p.keys[k]];
      if outcome.period.Some? && outcome.period.value != p.stage {
        assert false;
      }
      if !EntryFits(p, k, outcome) {
        return Err("forecast entry is not finite or not the sum of its parts");
      }
      rows := rows + [RowOf(p, k, outcome)];
    }
    return Ok(rows);
  }

  lemma {:induction false} WrongPeriod(p: Payload, outcomes: seq<Outcome>, byKey: map<int, Outcome>, k: nat)
    requires UniqueKeys(outcomes) && Indexes(outcomes, byKey)
    requires k < |p.keys| && p.keys[k] in byKey && byKey[p.keys[k]].period !in {None, Some(p.stage)}
    ensures p.keys != Support(outcomes, p.stage)
  {
    if p.keys == Support(outcomes, p.stage) {
      SupportHas(outcomes, byKey, p.stage, k);
    }
  }

  // ---- All payloads

  ghost function Part(p: Payload, outcomes: seq<Outcome>): (rows: seq<Row>)
    requires Fits(p, outcomes, Index(outcomes))
    ensures AreRows(rows, p, Index(outcomes), |p.keys|)
  {
    var byKey := Index(outcomes);
    seq(|p.keys|, k requires 0 <= k < |p.keys| => RowOf(p, k, byKey[p.keys[k]]))
  }

  ghost predicate AllFit(used: seq<Payload>, outcomes: seq<Outcome>) {
    forall k :: 0 <= k < |used| ==> Fits(used[k], outcomes, Index(outcomes))
  }

  /** The rows of the payloads, one payload after another. */
  ghost function AllRows(used: seq<Payload>, outcomes: seq<Outcome>): (r: seq<Row>)
    requires AllFit(used, outcomes)
  {
    if used == [] then [] else AllRows(used[..|used| - 1], outcomes) + Part(used[|used| - 1], outcomes)
  }

  function InPeriods(payloads: seq<Payload>, periods: set<int>): (r: seq<Payload>) {
    if payloads == [] then []
    else
      var n := |payloads| - 1;
      var before := InPeriods(payloads[..n], periods);
      if payloads[n].stage in periods then before + [payloads[n]] else before
  }

  predicate DistinctSlots(used: seq<Payload>) {
    forall i, j :: 0 <= i < j < |used| ==> used[i].slot != used[j].slot
  }

  /** No outcome is left without a payload that forecasts it. */
  predicate Covers(used: seq<Payload>, outcomes: seq<Outcome>) {
    forall k :: 0 <= k < |outcomes| ==> exists j :: 0 <= j < |used| && outcomes[k].key in used[j].keys
  }

  ghost predicate Acceptable(payloads: seq<Payload>, outcomes: seq<Outcome>, mapping: bool, periods: set<int>) {
    var used := InPeriods(payloads, periods);
    && UniqueKeys(outcomes)
    && (mapping || forall k :: 0 <= k < |outcomes| ==> outcomes[k].period.Some?)
    && used != []
    && DistinctSlots(used)
    && AllFit(used, outcomes)
    && Covers(used, outcomes)
  }

  lemma {:induction false} RowsAreThePart(rows: seq<Row>, p: Payload, outcomes: seq<Outcome>)
    requires Fits(p, outcomes, Index(outcomes)) && AreRows(rows, p, Index(outcomes), |p.keys|)
    ensures rows == Part(p, outcomes)
  {
  }

  /** Joins payloads and outcomes, or refuses them; accepted exactly when they are acceptable. */
  method PayloadRows(payloads: seq<Payload>, outcomes: seq<Outcome>, mapping: bool, periods: set<int>)
    returns (r: Result<seq<Row>>)
    ensures r.Ok? <==> Acceptable(payloads, outcomes, mapping, periods)
    ensures r.Ok? ==> r.value == AllRows(InPeriods(payloads, periods), outcomes)
  {
    var indexed, byKey, expected := IndexOutcomes(outcomes, mapping);
    if !indexed {
      return Err("duplicate or unplaced evaluation outcome");
    }
    if payloads == [] {
      return Err("evaluation requires forecast payloads");
    }
    r := JoinPayloads(payloads, outcomes, byKey, expected, periods);
    if r.Err? {
      return;
    }
    var used := InPeriods(payloads, periods);
    if !Covers(used, outcomes) {
      return Err("evaluation outcome is out of forecast support");
    }
    AllRowsEmpty(used, outcomes);
    if r.value == [] {
      return Err("evaluation support is empty");
    }
  }

  lemma {:induction false} AllRowsEmpty(used: seq<Payload>, outcomes: seq<Outcome>)
    requires AllFit(used, outcomes)
    ensures AllRows(used, outcomes) == [] <==> used == []
  {
    assert used != [] ==> Part(used[|used| - 1], outcomes) != [];
  }

  method JoinPayloads(payloads: seq<Payload>, outcomes: seq<Outcome>, byKey: map<int, Outcome>,
                      expected: map<int, seq<int>>, periods: set<int>) returns (r: Result<seq<Row>>)
    requires UniqueKeys(outcomes) && byKey == Index(outcomes)
    requires Indexes(outcomes, byKey) && Supports(outcomes, expected)
    ensures r.Ok? <==> DistinctSlots(InPeriods(payloads, periods)) && AllFit(InPeriods(payloads, periods), outcomes)
    ensures r.Ok? ==> r.value == AllRows(InPeriods(payloads, periods), outcomes)
  {
    var rows, seen := [], {};
    for n := 0 to |payloads|
      invariant Joined(InPeriods(payloads[..n], periods), outcomes, seen, rows)
    {
      var p := payloads[n];
      ghost var before := InPeriods(payloads[..n], periods);
      assert payloads[..n + 1][..n] == payloads[..n];
      if p.stage in periods {
        PartOfAll(payloads, periods, n);
        if p.slot in seen {
          RepeatedSlot(InPeriods(payloads, periods), before, p);
          return Err("evaluation contains duplicate payload slot");
        }
        var part := RowsOfPayload(p, outcomes, byKey, expected);
        if part.Err? {
          assert InPeriods(payloads, periods)[|before|] == p;
          return Err(part.reason);
        }
        RowsAreThePart(part.value, p, outcomes);
        JoinedGrows(before, outcomes, seen, rows, p);
        seen, rows := seen + {p.slot}, rows + part.value;
      }
    }
    assert payloads[..|payloads|] == payloads;
    return Ok(rows);
  }

  ghost predicate Joined(used: seq<Payload>, outcomes: seq<Outcome>, seen: set<int>, rows: seq<Row>) {
    && DistinctSlots(used)
    && AllFit(used, outcomes)
    && rows == AllRows(used, outcomes)
    && (forall k :: 0 <= k < |used| ==> used[k].slot in seen)
    && (forall slot :: slot in seen ==> exists k :: 0 <= k < |used| && used[k].slot == slot)
  }

  lemma {:induction false} JoinedGrows(used: seq<Payload>, outcomes: seq<Outcome>, seen: set<int>, rows: seq<Row>,
                                       p: Payload)
    requires Joined(used, outcomes, seen, rows) && p.slot !in seen && Fits(p, outcomes, Index(outcomes))
    ensures Joined(used + [p], outcomes, seen + {p.slot}, rows + Part(p, outcomes))
  {
    var next := used + [p];
    assert next[..|used|] == used;
    forall slot | slot in seen + {p.slot}
      ensures exists k :: 0 <= k < |next| && next[k].slot == slot
    {
      if slot in seen {
        var k :| 0 <= k < |used| && used[k].slot == slot;
        assert next[k].slot == slot;
      } else {
        assert next[|used|].slot == slot;
      }
    }
  }

  lemma {:induction false} PartOfAll(payloads: seq<Payload>, periods: set<int>, n: nat)
    requires n < |payloads| && payloads[n].stage in periods
    ensures InPeriods(payloads[..n], periods) + [payloads[n]] <= InPeriods(payloads, periods)
    decreases |payloads|
  {
    var last := |payloads| - 1;
    if n < last {
      assert payloads[..last][..n] == payloads[..n];
      PartOfAll(payloads[..last], periods, n);
    }
  }

  lemma {:induction false} RepeatedSlot(all: seq<Payload>, before: seq<Payload>, p: Payload)
    requires before + [p] <= all
    requires exists k :: 0 <= k < |before| && before[k].slot == p.slot
    ensures !DistinctSlots(all)
  {
    var k :| 0 <= k < |before| && before[k].slot == p.slot;
    assert all[k] == before[k] && all[|before|] == p;
  }

  // ---- What the rows hold

  function OfSlot(rows: seq<Row>, slot: int): (r: seq<Row>) {
    if rows == [] then []
    else
      var n := |rows| - 1;
      if rows[n].slot == slot then OfSlot(rows[..n], slot) + [rows[n]] else OfSlot(rows[..n], slot)
  }

  lemma {:induction false} OfSlotJoins(a: seq<Row>, b: seq<Row>, slot: int)
    ensures OfSlot(a + b, slot) == OfSlot(a, slot) + OfSlot(b, slot)
  {
    if b == [] {
      assert a + b == a;
    } else {
      assert (a + b)[..|a + b| - 1] == a + b[..|b| - 1];
      OfSlotJoins(a, b[..|b| - 1], slot);
    }
  }

  lemma {:induction false} OfOneSlot(rows: seq<Row>, slot: int, own: int)
    requires forall k :: 0 <= k < |rows| ==> rows[k].slot == own
    ensures OfSlot(rows, slot) == if slot == own then rows else []
  {
    if rows != [] {
      OfOneSlot(rows[..|rows| - 1], slot, own);
    }
  }

  lemma {:induction false} LastSlotRows(used: seq<Payload>, outcomes: seq<Outcome>, slot: int)
    requires used != [] && AllFit(used, outcomes)
    ensures OfSlot(AllRows(used, outcomes), slot) ==
            OfSlot(AllRows(used[..|used| - 1], outcomes), slot) +
            if used[|used| - 1].slot == slot then Part(used[|used| - 1], outcomes) else []
  {
    var front, last := used[..|used| - 1], used[|used| - 1];
    OfSlotJoins(AllRows(front, outcomes), Part(last, outcomes), slot);
    OfOneSlot(Part(last, outcomes), slot, last.slot);
  }

  lemma {:induction false} NoSlotNoRows(used: seq<Payload>, outcomes: seq<Outcome>, slot: int)
    requires AllFit(used, outcomes) && forall k :: 0 <= k < |used| ==> used[k].slot != slot
    ensures OfSlot(AllRows(used, outcomes), slot) == []
  {
    if used != [] {
      NoSlotNoRows(used[..|used| - 1], outcomes, slot);
      LastSlotRows(used, outcomes, slot);
    }
  }

  lemma {:induction false} SlotRows(used: seq<Payload>, outcomes: seq<Outcome>, k: nat)
    requires AllFit(used, outcomes) && DistinctSlots(used) && k < |used|
    ensures OfSlot(AllRows(used, outcomes), used[k].slot) == Part(used[k], outcomes)
  {
    var n, slot := |used| - 1, used[k].slot;
    LastSlotRows(used, outcomes, slot);
    if k < n {
      SlotRows(used[..n], outcomes, k);
    } else {
      NoSlotNoRows(used[..n], outcomes, slot);
    }
  }

  /** A slot's rows are its stage's support, every key once and in canonical order. */
  lemma {:induction false} SlotRowsAreSupport(used: seq<Payload>, outcomes: seq<Outcome>, k: nat)
    requires UniqueKeys(outcomes) && AllFit(used, outcomes) && DistinctSlots(used) && k < |used|
    ensures OfSlot(AllRows(used, outcomes), used[k].slot) == Part(used[k], outcomes)
    ensures used[k].keys == Support(outcomes, used[k].stage) && NoRepeat(used[k].keys)
  {
    SlotRows(used, outcomes, k);
    SupportIsDistinct(outcomes, used[k].stage);
  }

  /** In accepted evaluation data every outcome belongs to an evaluated stage, and every slot of that
      stage holds its row. */
  lemma {:induction false} EveryOutcomeIsUsed(payloads: seq<Payload>, outcomes: seq<Outcome>, mapping: bool,
                                              periods: set<int>, k: nat)
    requires Acceptable(payloads, outcomes, mapping, periods) && k < |outcomes|
    ensures outcomes[k].period.Some?
    ensures exists p :: p in InPeriods(payloads, periods) && p.stage == outcomes[k].period.value
    ensures forall p :: p in InPeriods(payloads, periods) && p.stage == outcomes[k].period.value ==>
              outcomes[k].key in p.keys
  {
    var used := InPeriods(payloads, periods);
    var j :| 0 <= j < |used| && outcomes[k].key in used[j].keys;
    var p := used[j];
    assert p in used;
    SupportIsDistinct(outcomes, p.stage);
    var i :| 0 <= i < |outcomes| && outcomes[i].period == Some(p.stage) && outcomes[i].key == outcomes[k].key;
    assert i == k;
  }
}
