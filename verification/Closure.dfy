/** Closure snapshots of the journal: slot dispositions, the two lifecycle summaries, and the
    validator that every stored snapshot must pass, now and on every later read. */
module Closure {
  import opened Ascending
  import opened Journal

  datatype Mode = Primary | Smoke

  datatype Line = Line(number: AttemptNumber, status: Status, error: Option<string>)

  datatype Label = SucceededLabel | FailedLabel | OpenLabel

  datatype Disposition = Disposition(
    slotId: int, mode: Mode, stage: Stage, attempts: seq<Line>, finalStatus: Status, outcome: Label)

  datatype LedgerStatus = Empty | Open | PartialClosed | Complete

  /** One row of the report: the attempt, its mode, the status and the payload's error entry. */
  datatype Row = Row(attempt: Attempt, mode: Mode, status: Status, error: Option<string>)

  /** Digests are what they digest; the duplicated digest and length fields are not repeated. */
  datatype Snapshot = Snapshot(
    recordsDigest: seq<Record>, byteLength: nat, lineCount: nat, lifecycle: LedgerStatus,
    rowsDigest: seq<Row>, dispositions: seq<Disposition>)

  // ---- dispositions

  function ById(records: seq<Record>, id: int): (r: seq<Record>) {
    if records == [] then []
    else (if records[0].attempt.slot.id == id then [records[0]] else []) + ById(records[1..], id)
  }

  function Numbered(records: seq<Record>, number: AttemptNumber): (r: seq<Record>) {
    if records == [] then []
    else (if records[0].attempt.number == number then [records[0]] else []) + Numbered(records[1..], number)
  }

  function Statuses(records: seq<Record>): (r: seq<Status>) {
    seq(|records|, i requires 0 <= i < |records| => records[i].status)
  }

  predicate CanonicalStatuses(s: seq<Status>) {
    s == [Started] || s == [Started, Succeeded] || s == [Started, Failed]
  }

  /** The attempts of one slot, grouped by number, follow the retry rule. */
  predicate CanonicalGroups(first: seq<Record>, second: seq<Record>) {
    && (first != [] ==> CanonicalStatuses(Statuses(first)))
    && (second != [] ==> CanonicalStatuses(Statuses(second)))
    && (first != [] && second != [] ==> Statuses(first) == [Started, Failed])
  }

  function LinesOf(records: seq<Record>): (r: seq<Line>) {
    seq(|records|, i requires 0 <= i < |records| =>
      Line(records[i].attempt.number, records[i].status, records[i].payload.error))
  }

  function LabelOf(status: Status): (r: Label) {
    if status == Succeeded then SucceededLabel else if status == Failed then FailedLabel else OpenLabel
  }

  /** The disposition of one slot's records, in attempt order: the status of the last record counts. */
  function DispositionOf(records: seq<Record>, mode: Mode): (r: Disposition)
    requires records != []
  {
    var final := records[|records| - 1];
    Disposition(final.attempt.slot.id, mode, final.attempt.slot.stage, LinesOf(records), final.status,
                LabelOf(final.status))
  }

  function ByAttempt(records: seq<Record>): (r: seq<Record>) {
    Numbered(records, 0) + Numbered(records, 1)
  }

  function Ids(records: seq<Record>): (r: set<int>)
    ensures forall x :: x in r <==> exists i :: 0 <= i < |records| && records[i].attempt.slot.id == x
  {
    set i | 0 <= i < |records| :: records[i].attempt.slot.id
  }

  predicate Raises(records: seq<Record>) {
    exists id :: id in Ids(records) && !CanonicalGroups(Numbered(ById(records, id), 0), Numbered(ById(records, id), 1))
  }

  /** Every id has records, and sorting them by attempt loses none. */
  lemma {:induction false} ByIdNonempty(records: seq<Record>, id: int)
    ensures id in Ids(records) <==> ByAttempt(ById(records, id)) != []
  {
    if records != [] {
      ByIdNonempty(records[1..], id);
      assert id in Ids(records) <==> id == records[0].attempt.slot.id || id in Ids(records[1..]) by {
        assert forall i :: 0 < i < |records| ==> records[i] == records[1..][i - 1];
        assert forall i :: 0 <= i < |records| - 1 ==> records[1..][i] == records[i + 1];
      }
      var rest := ById(records[1..], id);
      if records[0].attempt.slot.id == id {
        assert ([records[0]] + rest)[1..] == rest;
      }
    }
  }

  /** `_ledger_dispositions`: one disposition per slot, by slot id, unless some lifecycle is not canonical. */
  ghost function LedgerDispositions(records: seq<Record>, mode: Mode): (r: Result<seq<Disposition>>) {
    if Raises(records) then Err("attempt lifecycle is not canonical")
    else
      var ids := Sorted(Ids(records));
      Ok(seq(|ids|, i requires 0 <= i < |ids| =>
        (assert ids[i] in ids; ByIdNonempty(records, ids[i]); DispositionOf(ByAttempt(ById(records, ids[i])), mode))))
  }

  // ---- lifecycle summaries

  /** The table of expected slots reads the stage of a scheduled id. */
  predicate ScheduledAs(schedule: seq<Slot>, id: int, stage: Stage) {
    exists s :: s in schedule && s.id == id && s.stage == stage
  }

  predicate HasStarted(dispositions: seq<Disposition>) {
    exists d :: d in dispositions && d.finalStatus == Started
  }

  predicate CoversSchedule(schedule: seq<Slot>, dispositions: seq<Disposition>) {
    && schedule != []
    && (forall s :: s in schedule ==> exists d :: d in dispositions && d.slotId == s.id)
    && (forall d :: d in dispositions ==> exists s :: s in schedule && s.id == d.slotId)
    && (forall d :: d in dispositions ==> d.mode == Primary && ScheduledAs(schedule, d.slotId, d.stage))
  }

  function LifecycleFromDispositions(schedule: seq<Slot>, dispositions: seq<Disposition>): (r: LedgerStatus) {
    if dispositions == [] then Empty
    else if HasStarted(dispositions) then Open
    else if CoversSchedule(schedule, dispositions) && (forall d :: d in dispositions ==> Terminal(d.finalStatus))
      then Complete
    else PartialClosed
  }

  function LifecycleStatus(schedule: seq<Slot>, records: seq<Record>, mode: Mode, dispositions: seq<Disposition>,
                           hasOpen: bool): (r: LedgerStatus) {
    if records == [] then Empty
    else if hasOpen then Open
    else
      var lifecycle := LifecycleFromDispositions(schedule, dispositions);
      if lifecycle != Complete then lifecycle
      else if schedule != [] &&
              (forall r :: r in records ==> mode == Primary && exists s :: s in schedule && s.id == r.attempt.slot.id)
        then Complete else PartialClosed
  }

  // ---- snapshots

  function RowsOf(records: seq<Record>, mode: Mode): (r: seq<Row>) {
    seq(|records|, i requires 0 <= i < |records| =>
      Row(records[i].attempt, mode, records[i].status, records[i].payload.error))
  }

  function TotalSize(records: seq<Record>): (r: nat) {
    if records == [] then 0 else records[0].payload.encodedSize + TotalSize(records[1..])
  }

  ghost function SnapshotOfRecords(records: seq<Record>, schedule: seq<Slot>, mode: Mode): (r: Result<Snapshot>) {
    var dispositions := LedgerDispositions(records, mode);
    if dispositions.Err? then Err(dispositions.reason)
    else
      var hasOpen := exists d :: d in dispositions.value && d.outcome == OpenLabel;
      Ok(Snapshot(records, TotalSize(records), |records|,
           LifecycleStatus(schedule, records, mode, dispositions.value, hasOpen),
           RowsOf(records, mode), dispositions.value))
  }

  /** `_closure_create_only_journal_snapshot`, of the whole journal or of its observed records. */
  ghost function SnapshotOf(files: Directory, schedule: seq<Slot>, mode: Mode,
                            observed: Option<set<Key>>): (r: Result<Snapshot>) {
    var journal := OrderedRecords(files, schedule);
    if journal.Err? then Err(journal.reason)
    else
      SnapshotOfRecords(if observed.Some? then Keep(journal.value, observed.value) else journal.value, schedule, mode)
  }

  // ---- validation

  function Lines(lines: seq<Line>, number: AttemptNumber): (r: seq<Line>) {
    if lines == [] then []
    else (if lines[0].number == number then [lines[0]] else []) + Lines(lines[1..], number)
  }

  function LineStatuses(lines: seq<Line>): (r: seq<Status>) {
    seq(|lines|, i requires 0 <= i < |lines| => lines[i].status)
  }

  /** A failed line has error text, any other line has none. */
  predicate ErrorFits(status: Status, error: Option<string>) {
    if status == Failed then error.Some? && error.value != "" else error.None?
  }

  /** The checks on one disposition before the final status is compared. */
  predicate WellFormed(d: Disposition) {
    var first, second := Lines(d.attempts, 0), Lines(d.attempts, 1);
    && d.finalStatus != Invalidated
    && d.outcome == LabelOf(d.finalStatus)
    && d.attempts != [] && (forall l :: l in d.attempts ==> l.status != Invalidated)
    && d.attempts == first + second && first != []
    && CanonicalStatuses(LineStatuses(first))
    && (second != [] ==> CanonicalStatuses(LineStatuses(second)) && LineStatuses(first) == [Started, Failed])
    && (forall l :: l in d.attempts ==> ErrorFits(l.status, l.error))
  }

  /** The last terminal status over all attempts, or STARTED. */
  function LastTerminal(lines: seq<Line>): (r: Status) {
    if lines == [] then Started
    else if Terminal(lines[|lines| - 1].status) then lines[|lines| - 1].status
    else LastTerminal(lines[..|lines| - 1])
  }

  predicate SlotIdsAscend(dispositions: seq<Disposition>) {
    forall i, j :: 0 <= i < j < |dispositions| ==> dispositions[i].slotId < dispositions[j].slotId
  }

  /** The part of `_validate_closure_ledger_snapshot` that looks only at the snapshot. */
  predicate SelfValid(s: Snapshot, schedule: seq<Slot>) {
    && (forall d :: d in s.dispositions ==> WellFormed(d))
    && SlotIdsAscend(s.dispositions)
    && (forall d :: d in s.dispositions ==> d.finalStatus == LastTerminal(d.attempts))
    && s.lifecycle == LifecycleFromDispositions(schedule, s.dispositions)
    && match s.lifecycle
       case Empty => s.dispositions == [] && s.rowsDigest == []
       case Open => HasStarted(s.dispositions)
       case PartialClosed => s.dispositions != [] && !HasStarted(s.dispositions)
       case Complete => s.dispositions != [] && !HasStarted(s.dispositions) && CoversSchedule(schedule, s.dispositions)
  }

  function Observed(dispositions: seq<Disposition>): (r: set<Key>) {
    set d, l | d in dispositions && l in d.attempts :: Key(d.slotId, l.number, l.status)
  }

  /** `_validate_closure_ledger_snapshot` against the journal as it is now. */
  ghost predicate Validates(s: Snapshot, files: Directory, schedule: seq<Slot>, mode: Mode) {
    SelfValid(s, schedule) && SnapshotOf(files, schedule, mode, Some(Observed(s.dispositions))) == Ok(s)
  }
}
