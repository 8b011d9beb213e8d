/** Control rows, one for each outcome, out of the repeats that every family and seed carries. */
module ControlRows {
  import opened Ascending
  import opened Sequences
  import opened ForecastRows

  datatype Place = Place(period: int, instrument: int, time: int)

  function PlaceOf(row: Row): (r: Place) {
    Place(row.period, row.instrument, row.time)
  }

  /** Python's order of triples. */
  predicate Before(a: Place, b: Place) {
    a.period < b.period ||
    (a.period == b.period && (a.instrument < b.instrument || (a.instrument == b.instrument && a.time < b.time)))
  }

  function At(rows: seq<Row>, place: Place): (r: seq<Row>) {
    if rows == [] then []
    else
      var n := |rows| - 1;
      if PlaceOf(rows[n]) == place then At(rows[..n], place) + [rows[n]] else At(rows[..n], place)
  }

  function Places(rows: seq<Row>): (r: set<Place>) {
    set row | row in rows :: PlaceOf(row)
  }

  const TOLERANCE: real := 0.000000000001

  predicate Close(a: real, b: real) {
    -TOLERANCE <= a - b <= TOLERANCE
  }

  /** The same controls: values within the tolerance, and the same identities. */
  predicate Agrees(a: Row, b: Row) {
    Close(a.local, b.local) && Close(a.pooled, b.pooled) && a.controls == b.controls
  }

  /** Every repeat agrees with the first row at its place. */
  ghost predicate Consistent(rows: seq<Row>) {
    forall place :: place in Places(rows) ==> ConsistentAt(rows, place)
  }

  predicate ConsistentAt(rows: seq<Row>, place: Place) {
    forall k :: 0 <= k < |At(rows, place)| ==> Agrees(At(rows, place)[0], At(rows, place)[k])
  }

  lemma {:induction false} AtHas(rows: seq<Row>, place: Place, row: Row)
    ensures row in At(rows, place) <==> row in rows && PlaceOf(row) == place
  {
    if rows != [] {
      var n := |rows| - 1;
      AtHas(rows[..n], place, row);
      assert rows == rows[..n] + [rows[n]];
    }
  }

  /** One row for each place, in the order of the places, and each the first of the repeats. */
  ghost predicate Deduplicates(result: seq<Row>, rows: seq<Row>) {
    && (forall i, j :: 0 <= i < j < |result| ==> Before(PlaceOf(result[i]), PlaceOf(result[j])))
    && (forall k :: 0 <= k < |result| ==> FirstAt(rows, result[k]))
    && (forall place :: place in Places(rows) ==> exists k :: 0 <= k < |result| && PlaceOf(result[k]) == place)
  }

  predicate FirstAt(rows: seq<Row>, row: Row) {
    var entries := At(rows, PlaceOf(row));
    entries != [] && entries[0] == row
  }

  predicate IsFirst(place: Place, left: set<Place>) {
    place in left && forall p :: p in left && p != place ==> Before(place, p)
  }

  lemma {:induction false} FirstExists(left: set<Place>) returns (first: Place)
    requires left != {}
    ensures IsFirst(first, left)
  {
    first :| first in left;
    if p :| p in left && p != first && !Before(first, p) {
      var rest := left - {first};
      assert p in rest;
      var other := FirstExists(rest);
      assert left == rest + {first};
      first := other;
    }
  }

  /** Groups the rows by place, checks every group and keeps its first row, places in order. */
  method DeduplicateControlRows(rows: seq<Row>) returns (r: Result<seq<Row>>)
    ensures r.Ok? <==> Consistent(rows)
    ensures r.Ok? ==> Deduplicates(r.value, rows)
  {
    var result: seq<Row> := [];
    var left := Places(rows);
    while left != {}
      invariant left <= Places(rows)
      invariant Gathered(result, rows, left)
      invariant forall place :: place in Places(rows) - left ==> ConsistentAt(rows, place)
      decreases |left|
    {
      ghost var least := FirstExists(left);
      var place :| place in left && IsFirst(place, left);
      var row := KeepFirst(rows, place);
      if row.Err? {
        return Err(row.reason);
      }
      GatheredGrows(result, rows, left, place, row.value);
      result, left := result + [row.value], left - {place};
    }
    return Ok(result);
  }

  method KeepFirst(rows: seq<Row>, place: Place) returns (r: Result<Row>)
    requires place in Places(rows)
    ensures r.Ok? <==> ConsistentAt(rows, place)
    ensures r.Ok? ==> FirstAt(rows, r.value) && PlaceOf(r.value) == place
  {
    var entries := At(rows, place);
    ghost var one :| one in rows && PlaceOf(one) == place;
    AtHas(rows, place, one);
    assert |entries| > 0;
    AtHas(rows, place, entries[0]);
    for k := 1 to |entries|
      invariant forall j :: 0 <= j < k ==> Agrees(entries[0], entries[j])
    {
      if !Agrees(entries[0], entries[k]) {
        return Err("linear control values or identity drifted across repeated support");
      }
    }
    return Ok(entries[0]);
  }

  /** The places handled so far have their row, and all of them come before those left. */
  ghost predicate Gathered(result: seq<Row>, rows: seq<Row>, left: set<Place>) {
    && (forall i, j :: 0 <= i < j < |result| ==> Before(PlaceOf(result[i]), PlaceOf(result[j])))
    && (forall k :: 0 <= k < |result| ==> FirstAt(rows, result[k]))
    && (forall k, p :: 0 <= k < |result| && p in left ==> Before(PlaceOf(result[k]), p))
    && (forall p :: p in Places(rows) ==> p in left || exists k :: 0 <= k < |result| && PlaceOf(result[k]) == p)
  }

  lemma {:induction false} GatheredGrows(result: seq<Row>, rows: seq<Row>, left: set<Place>, place: Place, row: Row)
    requires Gathered(result, rows, left) && IsFirst(place, left) && FirstAt(rows, row) && PlaceOf(row) == place
    ensures Gathered(result + [row], rows, left - {place})
  {
    var next := result + [row];
    forall p | p in Places(rows) && p !in left - {place}
      ensures exists k :: 0 <= k < |next| && PlaceOf(next[k]) == p
    {
      if p == place {
        assert PlaceOf(next[|result|]) == p;
      } else {
        var k :| 0 <= k < |result| && PlaceOf(result[k]) == p;
        assert PlaceOf(next[k]) == p;
      }
    }
  }

  // ---- One control row for each outcome

  /** Where an outcome's rows stand. */
  function OutcomePlace(o: Outcome): (r: Place)
    requires o.period.Some?
  {
    Place(o.period.value, o.instrument, o.time)
  }

  ghost predicate PlacesDetermineOutcomes(outcomes: seq<Outcome>) {
    forall i, j :: 0 <= i < j < |outcomes| && outcomes[i].period.Some? && outcomes[j].period.Some? ==>
      OutcomePlace(outcomes[i]) != OutcomePlace(outcomes[j])
  }

  function OutcomePlaces(outcomes: seq<Outcome>): (r: seq<Place>)
    requires forall k :: 0 <= k < |outcomes| ==> outcomes[k].period.Some?
  {
    seq(|outcomes|, k requires 0 <= k < |outcomes| && outcomes[k].period.Some? => OutcomePlace(outcomes[k]))
  }

  function RowPlaces(rows: seq<Row>): (r: seq<Place>) {
    seq(|rows|, k requires 0 <= k < |rows| => PlaceOf(rows[k]))
  }

  lemma {:induction false} SameMembersSameLength<T>(a: seq<T>, b: seq<T>)
    requires NoRepeat(a) && NoRepeat(b) && forall x :: x in a <==> x in b
    ensures |a| == |b|
  {
    NoRepeatSize(a);
    NoRepeatSize(b);
    assert Members(a) == Members(b);
  }

  /** A row stands where the outcome of its key stands. */
  lemma {:induction false} PartPlace(p: Payload, outcomes: seq<Outcome>, k: nat) returns (i: nat)
    requires UniqueKeys(outcomes) && Fits(p, outcomes, Index(outcomes)) && k < |p.keys|
    ensures i < |outcomes| && outcomes[i].period == Some(p.stage) && outcomes[i].key == p.keys[k]
    ensures PlaceOf(Part(p, outcomes)[k]) == OutcomePlace(outcomes[i])
  {
    SupportIsDistinct(outcomes, p.stage);
    var key := p.keys[k];
    assert key in Support(outcomes, p.stage);
    i :| i < |outcomes| && outcomes[i].period == Some(p.stage) && outcomes[i].key == key;
    IndexAt(outcomes, i);
  }

  lemma {:induction false} IndexAt(outcomes: seq<Outcome>, i: nat)
    requires UniqueKeys(outcomes) && i < |outcomes|
    ensures outcomes[i].key in Index(outcomes) && Index(outcomes)[outcomes[i].key] == outcomes[i]
  {
    var n := |outcomes| - 1;
    if i < n {
      IndexAt(outcomes[..n], i);
      assert outcomes[i].key != outcomes[n].key;
    }
  }

  lemma {:induction false} RowHasOutcome(used: seq<Payload>, outcomes: seq<Outcome>, row: Row) returns (i: nat)
    requires UniqueKeys(outcomes) && AllFit(used, outcomes) && row in AllRows(used, outcomes)
    ensures i < |outcomes| && outcomes[i].period.Some? && OutcomePlace(outcomes[i]) == PlaceOf(row)
  {
    var n := |used| - 1;
    if row in AllRows(used[..n], outcomes) {
      i := RowHasOutcome(used[..n], outcomes, row);
    } else {
      var part := Part(used[n], outcomes);
      var k :| 0 <= k < |part| && part[k] == row;
      i := PartPlace(used[n], outcomes, k);
    }
  }

  lemma {:induction false} PartIsIn(used: seq<Payload>, outcomes: seq<Outcome>, j: nat, k: nat)
    requires AllFit(used, outcomes) && j < |used| && k < |used[j].keys|
    ensures Part(used[j], outcomes)[k] in AllRows(used, outcomes)
  {
    var n := |used| - 1;
    if j < n {
      PartIsIn(used[..n], outcomes, j, k);
    } else {
      assert Part(used[n], outcomes)[k] in Part(used[n], outcomes);
    }
  }

  /** An outcome of accepted data has a row at its place. */
  lemma {:induction false} OutcomeHasRow(payloads: seq<Payload>, outcomes: seq<Outcome>, mapping: bool,
                                         periods: set<int>, i: nat)
    requires Acceptable(payloads, outcomes, mapping, periods) && i < |outcomes|
    ensures outcomes[i].period.Some?
    ensures exists row :: row in AllRows(InPeriods(payloads, periods), outcomes) &&
              PlaceOf(row) == OutcomePlace(outcomes[i])
  {
    var used := InPeriods(payloads, periods);
    EveryOutcomeIsUsed(payloads, outcomes, mapping, periods, i);
    var j :| 0 <= j < |used| && outcomes[i].key in used[j].keys;
    var k :| 0 <= k < |used[j].keys| && used[j].keys[k] == outcomes[i].key;
    var at := PartPlace(used[j], outcomes, k);
    assert at == i;
    PartIsIn(used, outcomes, j, k);
    assert PlaceOf(Part(used[j], outcomes)[k]) == OutcomePlace(outcomes[i]);
  }

  /** However many families and seeds repeat them, accepted rows give one control row for each outcome. */
  lemma {:induction false} OneControlRowPerOutcome(payloads: seq<Payload>, outcomes: seq<Outcome>, mapping: bool,
                                                   periods: set<int>,
                                result: seq<Row>)
    requires Acceptable(payloads, outcomes, mapping, periods) && PlacesDetermineOutcomes(outcomes)
    requires Deduplicates(result, AllRows(InPeriods(payloads, periods), outcomes))
    ensures |result| == |outcomes|
    ensures forall k :: 0 <= k < |outcomes| ==> outcomes[k].period.Some?
    ensures forall k :: 0 <= k < |outcomes| ==>
              exists i :: 0 <= i < |result| && PlaceOf(result[i]) == OutcomePlace(outcomes[k])
  {
    var rows := AllRows(InPeriods(payloads, periods), outcomes);
    forall k | 0 <= k < |outcomes|
      ensures outcomes[k].period.Some?
      ensures exists i :: 0 <= i < |result| && PlaceOf(result[i]) == OutcomePlace(outcomes[k])
    {
      OutcomeHasRow(payloads, outcomes, mapping, periods, k);
      assert OutcomePlace(outcomes[k]) in Places(rows);
    }
    var expected, found := OutcomePlaces(outcomes), RowPlaces(result);
    forall place: Place
      ensures place in found <==> place in expected
    {
      PlacesAgree(payloads, outcomes, mapping, periods, result, place);
    }
    SameMembersSameLength(found, expected);
  }

  lemma {:induction false} PlacesAgree(payloads: seq<Payload>, outcomes: seq<Outcome>, mapping: bool,
                                       periods: set<int>,
                    result: seq<Row>, place: Place)
    requires Acceptable(payloads, outcomes, mapping, periods)
    requires Deduplicates(result, AllRows(InPeriods(payloads, periods), outcomes))
    requires forall k :: 0 <= k < |outcomes| ==> outcomes[k].period.Some?
    ensures place in RowPlaces(result) <==> place in OutcomePlaces(outcomes)
  {
    var rows := AllRows(InPeriods(payloads, periods), outcomes);
    if place in RowPlaces(result) {
      var k :| 0 <= k < |result| && PlaceOf(result[k]) == place;
      assert FirstAt(rows, result[k]);
      AtHas(rows, place, result[k]);
      var i := RowHasOutcome(InPeriods(payloads, periods), outcomes, result[k]);
      assert OutcomePlaces(outcomes)[i] == place;
    }
    if place in OutcomePlaces(outcomes) {
      var i :| 0 <= i < |outcomes| && OutcomePlaces(outcomes)[i] == place;
      OutcomeHasRow(payloads, outcomes, mapping, periods, i);
      assert place in Places(rows);
      var k :| 0 <= k < |result| && PlaceOf(result[k]) == place;
      assert RowPlaces(result)[k] == place;
    }
  }
}
