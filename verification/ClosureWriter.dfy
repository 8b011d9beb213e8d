/** The closure-report writer as it runs: loops over records and report files, proved to compute the
    functions the laws of `ClosureLaws` and `ClosureHistory` are about. */
module ClosureWriter {
  import opened Ascending
  import opened Journal
  import opened Attempts
  import opened Closure
  import opened ReportLog
  import opened ClosureHistory
  import JournalStore
  import ClosureLaws

  lemma {:induction false} ByIdAppend(records: seq<Record>, r: Record, id: int)
    ensures ById(records + [r], id) == ById(records, id) + if r.attempt.slot.id == id then [r] else []
  {
    if records == [] {
      assert records + [r] == [r];
    } else {
      var first := if records[0].attempt.slot.id == id then [records[0]] else [];
      assert (records + [r])[0] == records[0] && (records + [r])[1..] == records[1..] + [r];
      ByIdAppend(records[1..], r, id);
      assert ById(records + [r], id) == first + ById(records[1..] + [r], id);
    }
  }

  ghost predicate Groups(grouped: map<int, seq<Record>>, records: seq<Record>) {
    && (forall id :: id in grouped <==> ById(records, id) != [])
    && (forall id :: id in grouped ==> grouped[id] == ById(records, id))
  }

  lemma {:induction false} ByIdHas(records: seq<Record>, id: int)
    ensures ById(records, id) != [] <==> exists k :: 0 <= k < |records| && records[k].attempt.slot.id == id
  {
    if records != [] {
      var rest := records[1..];
      ByIdHas(rest, id);
      if k :| 0 <= k < |rest| && rest[k].attempt.slot.id == id {
        assert records[k + 1].attempt.slot.id == id;
      }
      if k :| 0 < k < |records| && records[k].attempt.slot.id == id {
        assert rest[k - 1].attempt.slot.id == id;
      }
    }
  }

  lemma {:induction false} GroupsGrow(grouped: map<int, seq<Record>>, records: seq<Record>, r: Record)
    requires Groups(grouped, records)
    ensures var id := r.attempt.slot.id;
      Groups(grouped[id := (if id in grouped then grouped[id] else []) + [r]], records + [r])
  {
    forall x
      ensures ById(records + [r], x) == if x == r.attempt.slot.id then ById(records, x) + [r] else ById(records, x)
    {
      ByIdAppend(records, r, x);
    }
  }

  lemma {:induction false} GroupsAreIds(grouped: map<int, seq<Record>>, records: seq<Record>)
    requires Groups(grouped, records)
    ensures grouped.Keys == Ids(records)
  {
    forall id
      ensures id in grouped.Keys <==> id in Ids(records)
    {
      ByIdHas(records, id);
    }
  }

  method AddToGroup(grouped: map<int, seq<Record>>, ghost records: seq<Record>, r: Record)
    returns (next: map<int, seq<Record>>)
    requires Groups(grouped, records)
    ensures Groups(next, records + [r])
  {
    GroupsGrow(grouped, records, r);
    var id := r.attempt.slot.id;
    next := grouped[id := (if id in grouped then grouped[id] else []) + [r]];
  }

  method GroupById(records: seq<Record>) returns (grouped: map<int, seq<Record>>)
    ensures grouped.Keys == Ids(records)
    ensures forall id :: id in grouped ==> grouped[id] == ById(records, id)
  {
    grouped := map[];
    var i := 0;
    while i < |records|
      invariant i <= |records| && Groups(grouped, records[..i])
    {
      assert records[..i + 1] == records[..i] + [records[i]];
      grouped := AddToGroup(grouped, records[..i], records[i]);
      i := i + 1;
    }
    assert records[..i] == records;
    GroupsAreIds(grouped, records);
  }

  /** The disposition of one id's records. */
  ghost predicate EntryOf(records: seq<Record>, mode: Mode, id: int, d: Disposition) {
    var group := ById(records, id);
    && ByAttempt(group) != []
    && CanonicalGroups(Numbered(group, 0), Numbered(group, 1))
    && d == DispositionOf(ByAttempt(group), mode)
  }

  ghost predicate Entries(records: seq<Record>, mode: Mode, ids: seq<int>, d: seq<Disposition>) {
    |d| <= |ids| && forall k :: 0 <= k < |d| ==> EntryOf(records, mode, ids[k], d[k])
  }

  lemma {:induction false} AddEntry(records: seq<Record>, mode: Mode, ids: seq<int>, d: seq<Disposition>,
                                    next: Disposition)
    requires Entries(records, mode, ids, d) && |d| < |ids| && EntryOf(records, mode, ids[|d|], next)
    ensures Entries(records, mode, ids, d + [next])
  {
  }

  lemma {:induction false} EntriesAreDispositions(records: seq<Record>, mode: Mode, d: seq<Disposition>)
    requires |d| == |Sorted(Ids(records))|
    requires Entries(records, mode, Sorted(Ids(records)), d)
    ensures LedgerDispositions(records, mode) == Ok(d)
  {
    var ids := Sorted(Ids(records));
    forall id | id in Ids(records)
      ensures CanonicalGroups(Numbered(ById(records, id), 0), Numbered(ById(records, id), 1))
    {
      assert id in ids;
      var k :| 0 <= k < |ids| && ids[k] == id;
      assert EntryOf(records, mode, ids[k], d[k]);
    }
    assert !Raises(records);
    ClosureLaws.BuilderEntries(records, mode);
    var value := LedgerDispositions(records, mode).value;
    forall k | 0 <= k < |d| ensures value[k] == d[k] {
      assert EntryOf(records, mode, ids[k], d[k]);
    }
    assert value == d;
  }

  method BuildOne(ghost records: seq<Record>, ghost id: int, group: seq<Record>,
                  mode: Mode) returns (r: Result<Disposition>)
    requires id in Ids(records) && group == ById(records, id)
    ensures r.Ok? ==> EntryOf(records, mode, id, r.value)
    ensures r.Err? ==> Raises(records)
  {
    ByIdNonempty(records, id);
    if !CanonicalGroups(Numbered(group, 0), Numbered(group, 1)) {
      return Err("attempt lifecycle is not canonical");
    }
    return Ok(DispositionOf(ByAttempt(group), mode));
  }

  method BuildDispositions(records: seq<Record>, mode: Mode) returns (r: Result<seq<Disposition>>)
    ensures r.Ok? == LedgerDispositions(records, mode).Ok?
    ensures r.Ok? ==> r == LedgerDispositions(records, mode)
  {
    var grouped := GroupById(records);
    var ids := SortSet(grouped.Keys);
    var dispositions: seq<Disposition> := [];
    while |dispositions| < |ids|
      invariant Entries(records, mode, ids, dispositions)
    {
      var id := ids[|dispositions|];
      assert id in ids;
      var one := BuildOne(records, id, grouped[id], mode);
      if one.Err? {
        return Err(one.reason);
      }
      AddEntry(records, mode, ids, dispositions, one.value);
      dispositions := dispositions + [one.value];
    }
    EntriesAreDispositions(records, mode, dispositions);
    return Ok(dispositions);
  }

  method BuildSnapshot(records: seq<Record>, schedule: seq<Slot>, mode: Mode) returns (r: Result<Snapshot>)
    ensures r.Ok? == SnapshotOfRecords(records, schedule, mode).Ok?
    ensures r.Ok? ==> r == SnapshotOfRecords(records, schedule, mode)
  {
    var dispositions := BuildDispositions(records, mode);
    if dispositions.Err? {
      return Err(dispositions.reason);
    }
    var d := dispositions.value;
    var hasOpen := exists x :: x in d && x.outcome == OpenLabel;
    return Ok(Snapshot(records, TotalSize(records), |records|,
                       LifecycleStatus(schedule, records, mode, d, hasOpen), RowsOf(records, mode), d));
  }

  class ReportStore {
    const journal: JournalStore.CreateOnlyAttemptJournal
    const schedule: seq<Slot>
    const mode: Mode
    var reports: map<ReportName, Report<Snapshot>>

    constructor (journal: JournalStore.CreateOnlyAttemptJournal, schedule: seq<Slot>, mode: Mode)
      ensures this.journal == journal && this.schedule == schedule && this.mode == mode && reports == map[]
    {
      this.journal, this.schedule, this.mode, reports := journal, schedule, mode, map[];
    }

    ghost function Checks(): (checks: Checks<Snapshot>) {
      ClosureChecks(schedule, mode)
    }

    method TakeSnapshot(observed: Option<set<Key>>) returns (r: Result<Snapshot>)
      ensures r.Ok? == SnapshotOf(journal.files, schedule, mode, observed).Ok?
      ensures r.Ok? ==> r == SnapshotOf(journal.files, schedule, mode, observed)
    {
      var records := journal.OrderedRecords(schedule);
      if records.Err? {
        return Err(records.reason);
      }
      r := BuildSnapshot(if observed.Some? then Keep(records.value, observed.value) else records.value, schedule, mode);
    }

    method ValidateLedgerSnapshot(s: Snapshot) returns (valid: bool)
      ensures valid <==> Validates(s, journal.files, schedule, mode)
    {
      if !SelfValid(s, schedule) {
        return false;
      }
      var current := TakeSnapshot(Some(Observed(s.dispositions)));
      return current == Ok(s);
    }

    method ValidatePayload(name: ReportName, report: Report<Snapshot>) returns (valid: bool)
      ensures valid <==> PayloadValid(Checks(), journal.files, name, report)
    {
      if report.sequence <= 0 || name != NameFor(report) {
        return false;
      }
      var development := ValidateLedgerSnapshot(report.development);
      var terminal := ValidateLedgerSnapshot(report.terminal);
      return development && terminal;
    }

    /** The table of file names by sequence number; two files with one number break the sequence. */
    method BySequence() returns (r: Result<map<int, ReportName>>)
      ensures r.Ok? <==> forall a, b :: a in reports && b in reports && a.sequence == b.sequence ==> a == b
      ensures r.Ok? ==> |r.value| == |reports|
      ensures r.Ok? ==> forall k :: k in r.value ==> r.value[k] in reports && r.value[k].sequence == k
      ensures r.Ok? ==> forall name :: name in reports ==> name.sequence in r.value
    {
      var table: map<int, ReportName> := map[];
      var unread := reports.Keys;
      while unread != {}
        invariant unread <= reports.Keys && |table| + |unread| == |reports|
        invariant forall k :: k in table ==> table[k] in reports.Keys - unread && table[k].sequence == k
        invariant forall name :: name in reports.Keys - unread ==>
          name.sequence in table && table[name.sequence] == name
        decreases |unread|
      {
        var name :| name in unread;
        if name.sequence in table {
          assert table[name.sequence] != name;
          return Err("closure report sequence is not contiguous");
        }
        table := table[name.sequence := name];
        unread := unread - {name};
      }
      return Ok(table);
    }

    /** The file names in sequence order, if their numbers are 1..n. */
    method NamesInSequence() returns (r: Result<seq<ReportName>>)
      ensures r.Ok? <==> Contiguous(reports)
      ensures r.Ok? ==> |r.value| == |reports|
      ensures r.Ok? ==> forall k :: 0 <= k < |r.value| ==> r.value[k] in reports && r.value[k].sequence == k + 1
      ensures r.Ok? ==> forall name :: name in reports ==> name in r.value
    {
      var table := BySequence();
      if table.Err? {
        return Err(table.reason);
      }
      var names: seq<ReportName> := [];
      while |names| < |reports|
        invariant |names| <= |reports|
        invariant forall j :: 0 <= j < |names| ==> names[j] in reports && names[j].sequence == j + 1
      {
        if |names| + 1 !in table.value {
          SomeOutside(table.value.Keys, |reports|, |names| + 1);
          ghost var outside :| outside in table.value && !(1 <= outside <= |reports|);
          assert table.value[outside] in reports;
          return Err("closure report sequence is not contiguous");
        }
        names := names + [table.value[|names| + 1]];
      }
      forall j | 1 <= j <= |reports| ensures j in table.value {
        assert names[j - 1].sequence == j;
      }
      NoneOutside(table.value.Keys, |reports|);
      forall name | name in reports ensures name in names {
        assert names[name.sequence - 1].sequence == name.sequence;
      }
      return Ok(names);
    }

    ghost predicate ValidNow(name: ReportName)
      reads this, journal
    {
      name in reports && PayloadValid(Checks(), journal.files, name, reports[name])
    }

    /** `current` is the set of reports that are valid now. */
    ghost predicate IsCurrent(current: set<ReportName>)
      reads this, journal
    {
      forall name {:trigger ValidNow(name)} :: ValidNow(name) <==> name in current
    }

    method ValidateReport(name: ReportName, ghost current: set<ReportName>) returns (valid: bool)
      requires name in reports && IsCurrent(current)
      ensures valid <==> name in current
    {
      valid := ValidatePayload(name, reports[name]);
      assert valid <==> ValidNow(name);
    }

    /** The reports of these names, if each is valid now. */
    method ReadReports(names: seq<ReportName>, ghost current: set<ReportName>)
        returns (r: Result<seq<Report<Snapshot>>>)
      requires IsCurrent(current)
      requires forall k :: 0 <= k < |names| ==> names[k] in reports
      ensures r.Ok? <==> forall k :: 0 <= k < |names| ==> names[k] in current
      ensures r.Ok? ==> |r.value| == |names| && forall k :: 0 <= k < |names| ==> r.value[k] == reports[names[k]]
    {
      var records: seq<Report<Snapshot>> := [];
      while |records| < |names|
        invariant |records| <= |names|
        invariant forall j :: 0 <= j < |records| ==> names[j] in current
        invariant forall j :: 0 <= j < |records| ==> records[j] == reports[names[j]]
      {
        var name := names[|records|];
        var valid := ValidateReport(name, current);
        if !valid {
          return Err("closure report is not valid");
        }
        records := records + [reports[name]];
      }
      return Ok(records);
    }

    /** What `_closure_report_records` promises of the reports it returns. */
    ghost predicate InSequence(records: seq<Report<Snapshot>>)
      reads this
    {
      && |records| == |reports|
      && (forall k :: 0 <= k < |records| ==> records[k].sequence == k + 1)
      && (forall k :: 0 <= k < |records| ==>
            NameFor(records[k]) in reports && reports[NameFor(records[k])] == records[k])
    }

    method ReadInSequence(ghost current: set<ReportName>) returns (r: Result<seq<Report<Snapshot>>>)
      requires IsCurrent(current)
      requires forall name :: name in current ==> name in reports && name == NameFor(reports[name])
      ensures r.Ok? <==> Contiguous(reports) && reports.Keys <= current
      ensures r.Ok? ==> InSequence(r.value)
    {
      var names := NamesInSequence();
      if names.Err? {
        return Err(names.reason);
      }
      r := ReadReports(names.value, current);
    }

    ghost function Current(): (current: set<ReportName>)
      reads this, journal
      ensures IsCurrent(current)
      ensures forall name :: name in current ==> name in reports && name == NameFor(reports[name])
    {
      set name | name in reports && ValidNow(name)
    }

    lemma {:induction false} CurrentExactly()
      ensures reports.Keys <= Current() <==> AllValid(Checks(), journal.files, reports)
    {
      forall name | name in reports
        ensures PayloadValid(Checks(), journal.files, name, reports[name]) <==> name in Current()
      {
        assert ValidNow(name) <==> name in Current();
      }
    }

    /** `_closure_report_records`: all reports in sequence order, or an exception. */
    method ReportRecords() returns (r: Result<seq<Report<Snapshot>>>)
      ensures r.Ok? <==> ReadsBack(Checks(), journal.files, reports)
      ensures r.Ok? ==> InSequence(r.value)
    {
      r := ReadInSequence(Current());
      CurrentExactly();
    }

    /** Creating the file and reading the log back, with no other writer in between. */
    method CreateReport(report: Report<Snapshot>)
      requires var next := reports[NameFor(report) := report];
        ReadsBack(Checks(), journal.files, next) && IsLast(next, report)
      modifies this`reports
      ensures reports == old(reports)[NameFor(report) := report]
    {
      reports := reports[NameFor(report) := report];
      var committed := ReportRecords();
      if committed.Err? || |committed.value| != report.sequence || committed.value[|committed.value| - 1] != report {
        assert false;  // the earlier reports read back before, and the new one is valid and next in sequence
      }
    }

    /** One uninterrupted `write_outcome_blind_closure_report` has the effect of the five protocol steps in
        a row: with no other writer its read-back cannot fail. */
    method WriteReport(subject: int) returns (r: Result<()>)
      modifies this`reports
      ensures reports == Written(Checks(), journal.files, old(reports), subject)
      ensures r.Ok? <==> reports != old(reports)
      ensures r.Ok? ==> ReadsBack(Checks(), journal.files, reports)
    {
      var existing := ReportRecords();
      if existing.Err? {
        return Err(existing.reason);
      }
      var s := TakeSnapshot(None);
      if s.Err? {
        return Err(s.reason);
      }
      var report := Report(|existing.value| + 1, subject, s.value, s.value);
      WrittenAdds(Checks(), journal.files, reports, report);
      var valid := ValidatePayload(NameFor(report), report);
      if !valid || NameFor(report) in reports {
        return Err("closure report is not valid");
      }
      CreateReport(report);
      return Ok(());
    }
  }
}
