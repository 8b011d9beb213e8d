/** The history of closure reports: a report that validated when it was written validates on every
    later read, however the journal has grown. */
module ClosureHistory {
  import opened Ascending
  import opened Journal
  import opened Attempts
  import opened Closure
  import opened ClosureLaws
  import opened ReportLog
  import opened RacedJournal
  import JournalStore

  /** The program's own way of taking and validating snapshots. */
  ghost function ClosureChecks(schedule: seq<Slot>, mode: Mode): (checks: Checks<Snapshot>) {
    Checks(files => SnapshotOf(files, schedule, mode, None), (s, files) => Validates(s, files, schedule, mode))
  }

  /** Racing appends lead from one journal to the other. */
  ghost predicate Later(schedule: seq<Slot>, v: Raced, w: Raced) {
    Sane(schedule, v) && exists moves :: w == Race(schedule, v, moves)
  }

  /** The program's own journal, moved on by any racing appends. */
  ghost function ClosureRules(schedule: seq<Slot>, mode: Mode): (rules: Rules<Raced, Snapshot>) {
    Rules(ClosureChecks(schedule, mode), (r: Raced) => r.world.files,
      (v: Raced, w: Raced) => Later(schedule, v, w), (r: Raced) => NoConflict(r.world.files))
  }

  const NEW: History<Raced, Snapshot> := History(QUIET, map[], map[])

  // ---- snapshots outlive later appends

  lemma {:induction false} ByIdMembers(records: seq<Record>, id: int)
    ensures forall r :: r in ById(records, id) ==> r in records && r.attempt.slot.id == id
  {
    if records != [] {
      ByIdMembers(records[1..], id);
    }
  }

  lemma {:induction false} NumberedMembers(records: seq<Record>, number: AttemptNumber)
    ensures forall r :: r in Numbered(records, number) ==> r in records
  {
    if records != [] {
      NumberedMembers(records[1..], number);
    }
  }

  lemma {:induction false} LinesAreRecords(records: seq<Record>, mode: Mode, id: int, l: Line)
    requires ByAttempt(ById(records, id)) != []
    requires l in DispositionOf(ByAttempt(ById(records, id)), mode).attempts
    ensures DispositionOf(ByAttempt(ById(records, id)), mode).slotId == id
    ensures exists r :: r in records && KeyOf(r) == Key(id, l.number, l.status)
  {
    var h := ByAttempt(ById(records, id));
    ByIdMembers(records, id);
    NumberedMembers(ById(records, id), 0);
    NumberedMembers(ById(records, id), 1);
    var k :| 0 <= k < |h| && LinesOf(h)[k] == l;
    assert h[k] in h && h[|h| - 1] in h;
    assert h[k] in records && KeyOf(h[k]) == Key(id, l.number, l.status);
  }

  /** Every observed key belongs to a record the dispositions were built from. */
  lemma {:induction false} ObservedAreRecords(records: seq<Record>, mode: Mode, d: seq<Disposition>, key: Key)
    requires LedgerDispositions(records, mode) == Ok(d) && key in Observed(d)
    ensures exists r :: r in records && KeyOf(r) == key
  {
    var x, l :| x in d && l in x.attempts && key == Key(x.slotId, l.number, l.status);
    BuilderEntries(records, mode);
    var i :| 0 <= i < |d| && d[i] == x;
    LinesAreRecords(records, mode, Sorted(Ids(records))[i], l);
  }

  lemma {:induction false} KeepMembers(records: seq<Record>, keys: set<Key>)
    ensures forall r :: r in Keep(records, keys) ==> r in records
  {
    if records != [] {
      KeepMembers(records[1..], keys);
    }
  }

  /** A record that a later journal shows under an observed key was there when it was observed. */
  lemma {:induction false} ObservedRecordWasThere(schedule: seq<Slot>, v: World, w: World, mode: Mode, s: Snapshot,
                                                  name: Name)
    requires Lawful(schedule, v) && Lawful(schedule, w) && DistinctIds(schedule)
    requires LedgerDispositions(Keep(Journaled(v.files, schedule), Observed(s.dispositions)), mode)
      == Ok(s.dispositions)
    requires name in w.files && KeyOf(w.files[name]) in Observed(s.dispositions)
    ensures name in v.files
  {
    var records := Keep(Journaled(v.files, schedule), Observed(s.dispositions));
    JournalStore.InOrderMembers(v.files, schedule);
    KeepMembers(Journaled(v.files, schedule), Observed(s.dispositions));
    ObservedAreRecords(records, mode, s.dispositions, KeyOf(w.files[name]));
    var r :| r in records && KeyOf(r) == KeyOf(w.files[name]);
    assert name == NameOf(w.files[name]) && name.attempt.slot in schedule;
    assert NameOf(r) in v.files && r.attempt.slot in schedule;
    assert NameOf(r) == name;
  }

  /** The observed records of a grown journal are those of the old one. */
  lemma {:induction false} ObservedRecordsStay(schedule: seq<Slot>, v: World, w: World, mode: Mode, s: Snapshot)
    requires Lawful(schedule, v) && Lawful(schedule, w) && DistinctIds(schedule)
    requires Grows(v.files, w.files)
    requires LedgerDispositions(Keep(Journaled(v.files, schedule), Observed(s.dispositions)), mode)
      == Ok(s.dispositions)
    ensures Keep(Journaled(w.files, schedule), Observed(s.dispositions))
      == Keep(Journaled(v.files, schedule), Observed(s.dispositions))
  {
    var keys := Observed(s.dispositions);
    forall name | name in w.files && KeyOf(w.files[name]) in keys ensures name in v.files {
      ObservedRecordWasThere(schedule, v, w, mode, s, name);
    }
    assert Restrict(v.files, keys) == Restrict(w.files, keys);
    FilteringCommutesWithOrderedRead(v.files, Slots(schedule), keys);
    FilteringCommutesWithOrderedRead(w.files, Slots(schedule), keys);
  }

  /** A snapshot that agreed with the journal agrees with every later journal, so a report that
      validated once validates for ever. */
  lemma {:induction false} ValidityPersists(schedule: seq<Slot>, v: World, w: World, mode: Mode, s: Snapshot)
    requires Lawful(schedule, v) && Lawful(schedule, w) && DistinctIds(schedule)
    requires Grows(v.files, w.files)
    requires Validates(s, v.files, schedule, mode)
    ensures Validates(s, w.files, schedule, mode)
  {
    JournalReads(schedule, v, Slot(0, Dev2));
    JournalReads(schedule, w, Slot(0, Dev2));
    ObservedRecordsStay(schedule, v, w, mode, s);
  }

  // ---- every run

  lemma {:induction false} LaterOn(schedule: seq<Slot>, u: Raced, v: Raced, w: Raced)
    requires Later(schedule, u, v) && Later(schedule, v, w)
    ensures Later(schedule, u, w)
  {
    var a :| v == Race(schedule, u, a);
    var b :| w == Race(schedule, v, b);
    RaceInParts(schedule, u, a, b);
    assert w == Race(schedule, u, a + b);
  }

  lemma {:induction false} LaterIsSane(schedule: seq<Slot>, v: Raced, w: Raced)
    requires Later(schedule, v, w)
    ensures Sane(schedule, w) && Later(schedule, w, w) && Grows(v.world.files, w.world.files)
    ensures NoConflict(w.world.files) ==> NoConflict(v.world.files)
  {
    var moves :| w == Race(schedule, v, moves);
    RaceIsSane(schedule, v, moves);
    assert w == Race(schedule, w, []);
    if NoConflict(w.world.files) {
      ConflictStays(v.world.files, w.world.files);
    }
  }

  /** On a journal that cannot be read no snapshot validates. */
  lemma {:induction false} UnreadableRefuses(schedule: seq<Slot>, r: Raced, mode: Mode, s: Snapshot)
    requires Sane(schedule, r) && !NoConflict(r.world.files)
    ensures !Validates(s, r.world.files, schedule, mode)
    ensures SnapshotOf(r.world.files, schedule, mode, None).Err?
  {
    ReadsExactly(schedule, r);
  }

  /** After any racing appends a snapshot that validated still does, exactly when no attempt has both
      terminal files. */
  lemma {:induction false} RacedValidityExactly(schedule: seq<Slot>, v: Raced, w: Raced, mode: Mode, s: Snapshot)
    requires DistinctIds(schedule) && Later(schedule, v, w) && Validates(s, v.world.files, schedule, mode)
    ensures Validates(s, w.world.files, schedule, mode) <==> NoConflict(w.world.files)
  {
    LaterIsSane(schedule, v, w);
    if NoConflict(w.world.files) {
      LawfulExactly(schedule, v);
      LawfulExactly(schedule, w);
      ValidityPersists(schedule, v.world, w.world, mode, s);
    } else {
      UnreadableRefuses(schedule, w, mode, s);
    }
  }

  lemma {:induction false} RulesPersist(schedule: seq<Slot>, mode: Mode)
    requires DistinctIds(schedule)
    ensures Persistent(ClosureRules(schedule, mode))
  {
    var rules := ClosureRules(schedule, mode);
    forall u: Raced, v: Raced, w: Raced | rules.next(u, v) && rules.next(v, w) ensures rules.next(u, w) {
      LaterOn(schedule, u, v, w);
    }
    forall v: Raced, w: Raced | rules.next(v, w)
      ensures rules.next(w, w) && (rules.holds(w) ==> rules.holds(v))
    {
      LaterIsSane(schedule, v, w);
    }
    forall s: Snapshot, v: Raced, w: Raced |
        rules.next(v, w) && rules.holds(w) && rules.checks.valid(s, rules.files(v))
      ensures rules.checks.valid(s, rules.files(w))
    {
      RacedValidityExactly(schedule, v, w, mode, s);
    }
    forall s: Snapshot, w: Raced | rules.next(w, w) && !rules.holds(w)
      ensures !rules.checks.valid(s, rules.files(w))
    {
      UnreadableRefuses(schedule, w, mode, s);
    }
  }

  lemma {:induction false} NewIsSound(schedule: seq<Slot>, mode: Mode)
    requires DistinctIds(schedule)
    ensures var rules := ClosureRules(schedule, mode);
      Persistent(rules) && Sound(rules, NEW) && Reads(rules, NEW)
  {
    RulesPersist(schedule, mode);
    assert Sane(schedule, QUIET) && QUIET == Race(schedule, QUIET, []);
  }

  /** In every run that interleaves racing appends with any number of report writers and crashes, no
      report ever written is altered or lost, and each still validates, its stored snapshot being the one
      recomputed from the grown journal, exactly when no attempt has both terminal files. The log reads
      back, its numbers 1..n, exactly when moreover every report bore the next number when its file was
      created. */
  lemma {:induction false} EveryReportStillValidates(schedule: seq<Slot>, mode: Mode, before: seq<Action<Raced>>,
                                                     later: seq<Action<Raced>>)
    requires DistinctIds(schedule)
    ensures var rules := ClosureRules(schedule, mode);
      var h := ReportLog.Run(rules, NEW, before); var t := ReportLog.Run(rules, h, later);
      var files := t.journal.world.files;
      && (Reads(rules, h) <==> OnTime(rules, NEW, before) && Consultable(rules, h))
      && (forall name :: name in h.reports ==>
            && name in t.reports && t.reports[name] == h.reports[name] && name == NameFor(h.reports[name])
            && (Validates(h.reports[name].development, files, schedule, mode) <==> NoConflict(files))
            && (Validates(h.reports[name].terminal, files, schedule, mode) <==> NoConflict(files)))
  {
    var rules := ClosureRules(schedule, mode);
    NewIsSound(schedule, mode);
    ReportLog.RunIsSound(rules, NEW, before);
    ReportLog.RunReadsBackExactly(rules, NEW, before);
    var h := ReportLog.Run(rules, NEW, before);
    ReportLog.RunIsSound(rules, h, later);
    var t := ReportLog.Run(rules, h, later);
    forall name | name in h.reports
      ensures name == NameFor(h.reports[name])
      ensures ReportValidExactly(h.reports[name], t.journal.world.files, schedule, mode)
    {
      StoredIsValid(schedule, mode, t, name);
    }
  }

  ghost predicate ReportValidExactly(report: Report<Snapshot>, files: Directory, schedule: seq<Slot>, mode: Mode) {
    && (Validates(report.development, files, schedule, mode) <==> NoConflict(files))
    && (Validates(report.terminal, files, schedule, mode) <==> NoConflict(files))
  }

  lemma {:induction false} StoredIsValid(schedule: seq<Slot>, mode: Mode, t: History<Raced, Snapshot>,
                                         name: ReportName)
    requires Persistent(ClosureRules(schedule, mode)) && Sound(ClosureRules(schedule, mode), t) && name in t.reports
    ensures ReportValidExactly(t.reports[name], t.journal.world.files, schedule, mode)
  {
    var rules := ClosureRules(schedule, mode);
    if rules.holds(t.journal) {
      assert PayloadValid(rules.checks, rules.files(t.journal), name, t.reports[name]);
    } else {
      UnreadableRefuses(schedule, t.journal, mode, t.reports[name].development);
      UnreadableRefuses(schedule, t.journal, mode, t.reports[name].terminal);
    }
  }

  /** If no call of the writer counts while another is between its count and its creation, the numbers are
      1..n in every run, and the log reads back whenever the journal does. */
  lemma {:induction false} SerialWritesStayNumbered(schedule: seq<Slot>, mode: Mode, actions: seq<Action<Raced>>)
    requires DistinctIds(schedule) && Serial(ClosureRules(schedule, mode), NEW, actions)
    ensures var rules := ClosureRules(schedule, mode); var t := ReportLog.Run(rules, NEW, actions);
      Contiguous(t.reports) && (Reads(rules, t) <==> Consultable(rules, t))
  {
    var rules := ClosureRules(schedule, mode);
    NewIsSound(schedule, mode);
    ReportLog.SerialIsOnTime(rules, NEW, actions);
    ReportLog.RunReadsBackExactly(rules, NEW, actions);
  }

  /** A draft passes its validation exactly when the journal it was drafted from had fitting error entries
      and no open retry, and the journal can still be read, whatever was appended since. */
  lemma {:induction false} CheckSucceedsExactly(schedule: seq<Slot>, mode: Mode, h: History<Raced, Snapshot>, w: nat)
    requires DistinctIds(schedule) && Sound(ClosureRules(schedule, mode), h) && h.At(w).Drafted?
    ensures var t := Act(ClosureRules(schedule, mode), h, WriterStep(w, Check));
      var source := h.At(w).source.world.files; var files := h.journal.world.files;
      if ErrorsRecorded(source) && NoOpenRetry(source, schedule) && NoConflict(files)
      then t.At(w) == Checked(h.At(w).report, h.At(w).source) else t.At(w).Stopped?
  {
    var rules := ClosureRules(schedule, mode);
    var report, source := h.At(w).report, h.At(w).source;
    assert StageHolds(rules, h.journal, h.reports, h.At(w));
    RacedDraftValidatesExactly(schedule, mode, source, h.journal, report.development);
    assert rules.checks.valid(report.development, rules.files(h.journal))
      == Validates(report.development, h.journal.world.files, schedule, mode);
  }

  lemma {:induction false} RacedDraftValidatesExactly(schedule: seq<Slot>, mode: Mode, v: Raced, w: Raced, s: Snapshot)
    requires DistinctIds(schedule) && Later(schedule, v, w)
    requires SnapshotOf(v.world.files, schedule, mode, None) == Ok(s)
    ensures Validates(s, w.world.files, schedule, mode) <==>
      ErrorsRecorded(v.world.files) && NoOpenRetry(v.world.files, schedule) && NoConflict(w.world.files)
  {
    LaterIsSane(schedule, v, w);
    if NoConflict(w.world.files) {
      LawfulExactly(schedule, v);
      LawfulExactly(schedule, w);
      DraftValidatesExactly(schedule, mode, v.world, w.world, s);
    } else {
      UnreadableRefuses(schedule, w, mode, s);
    }
  }

  lemma {:induction false} DraftValidatesExactly(schedule: seq<Slot>, mode: Mode, v: World, w: World, s: Snapshot)
    requires DistinctIds(schedule)
    requires Lawful(schedule, v) && Lawful(schedule, w) && Grows(v.files, w.files)
    requires SnapshotOf(v.files, schedule, mode, None) == Ok(s)
    ensures Validates(s, w.files, schedule, mode) <==>
      ErrorsRecorded(v.files) && NoOpenRetry(v.files, schedule)
  {
    SnapshotValidatesExactly(schedule, v, mode);
    if Validates(s, v.files, schedule, mode) {
      ValidityPersists(schedule, v, w, mode, s);
    } else {
      SnapshotStaysCurrent(schedule, v, mode, s);
      assert !SelfValid(s, schedule);
    }
  }

  /** The snapshot of the empty journal is taken and accepted. */
  lemma {:induction false} FirstSnapshot(schedule: seq<Slot>, mode: Mode)
    requires DistinctIds(schedule)
    ensures var rules := ClosureRules(schedule, mode); var s := rules.checks.take(START.files);
      s.Ok? && rules.checks.valid(s.value, START.files)
  {
    SnapshotValidatesExactly(schedule, START, mode);
  }

  /** The program reaches this: two overlapping writes of different subjects on a new journal both create
      a report number 1. Whatever happens later, no read of the log returns and no call of the writer,
      begun or not, ever returns. */
  lemma {:induction false} OverlappingWritesEndTheLog(schedule: seq<Slot>, mode: Mode, x: nat, y: nat, a: int, b: int,
                                                      later: seq<Action<Raced>>, w: nat)
    requires DistinctIds(schedule) && x != y && a != b
    ensures var rules := ClosureRules(schedule, mode);
      var h := ReportLog.Run(rules, NEW, Overlap(x, y, a, b)); var t := ReportLog.Run(rules, h, later);
      && h.At(x).Created? && h.At(y).Created? && h.At(x).report.sequence == h.At(y).report.sequence == 1
      && !Reads(rules, t) && !t.At(w).Returned?
  {
    NewIsSound(schedule, mode);
    FirstSnapshot(schedule, mode);
    ReportLog.OverlapEndsTheLog(ClosureRules(schedule, mode), NEW, x, y, a, b, later, w);
  }

  lemma {:induction false} ClashEndsTheJournal(schedule: seq<Slot>, mode: Mode, h: History<Raced, Snapshot>,
                                               a: Attempt, p: Payload, q: Payload)
    requires DistinctIds(schedule) && Sound(ClosureRules(schedule, mode), h)
    requires a in h.journal.world.held && Name(a, Started) in h.journal.world.files
    requires Name(a, Succeeded) !in h.journal.world.files && Name(a, Failed) !in h.journal.world.files
    ensures var rules := ClosureRules(schedule, mode);
      var c := Act(rules, h, JournalMove(Race(schedule, h.journal, Clash(h.journal, a, p, q))));
      && Persistent(rules) && Sound(rules, c) && !rules.holds(c.journal)
      && c.reports == h.reports && c.writers == h.writers
  {
    var rules := ClosureRules(schedule, mode);
    RulesPersist(schedule, mode);
    var journal := Race(schedule, h.journal, Clash(h.journal, a, p, q));
    assert Sane(schedule, h.journal) && Later(schedule, h.journal, journal);
    ClashConflicts(schedule, h.journal, a, p, q);
    ReportLog.StepIsSound(rules, h, JournalMove(journal));
  }

  /** Wherever an attempt is STARTED and nothing else, two racing opposite terminal appends end the log: no
      stored report validates again, and with a report stored no read of the log and no write returns. */
  lemma {:induction false} RacingAppendsEndTheLog(schedule: seq<Slot>, mode: Mode, h: History<Raced, Snapshot>,
                                                  a: Attempt, p: Payload, q: Payload, later: seq<Action<Raced>>, w: nat)
    requires DistinctIds(schedule) && Sound(ClosureRules(schedule, mode), h)
    requires a in h.journal.world.held && Name(a, Started) in h.journal.world.files
    requires Name(a, Succeeded) !in h.journal.world.files && Name(a, Failed) !in h.journal.world.files
    ensures var rules := ClosureRules(schedule, mode);
      var c := Act(rules, h, JournalMove(Race(schedule, h.journal, Clash(h.journal, a, p, q))));
      var t := ReportLog.Run(rules, c, later);
      && Grows(h.reports, t.reports)
      && (forall s :: !Validates(s, t.journal.world.files, schedule, mode))
      && (h.reports != map[] ==> !Reads(rules, t) && (t.At(w).Returned? ==> h.At(w) == t.At(w)))
  {
    var rules := ClosureRules(schedule, mode);
    ClashEndsTheJournal(schedule, mode, h, a, p, q);
    var c := Act(rules, h, JournalMove(Race(schedule, h.journal, Clash(h.journal, a, p, q))));
    ReportLog.RunIsSound(rules, c, later);
    var t := ReportLog.Run(rules, c, later);
    assert Sane(schedule, t.journal) && !rules.holds(t.journal);
    forall s ensures !Validates(s, t.journal.world.files, schedule, mode) {
      UnreadableRefuses(schedule, t.journal, mode, s);
    }
    if h.reports != map[] {
      ReportLog.ReadableExactly(rules, c);
      ReportLog.CollisionIsFinal(rules, c, later, w);
    }
  }

  /** A journal with one STARTED record and nothing else gives an accepted snapshot. */
  lemma {:induction false} StartedIsWritable(schedule: seq<Slot>, mode: Mode, w: World, a: Attempt, payload: Payload)
    requires DistinctIds(schedule) && Lawful(schedule, w) && payload.error.None?
    requires w.files == map[Name(a, Started) := Record(a, Started, payload)]
    ensures var s := SnapshotOf(w.files, schedule, mode, None); s.Ok? && Validates(s.value, w.files, schedule, mode)
  {
    SnapshotValidatesExactly(schedule, w, mode);
    assert NoOpenRetry(w.files, schedule);
    assert ErrorsRecorded(w.files);
  }

  /** The program reaches a state that `RacingAppendsEndTheLog` speaks of: a STARTED attempt, and a report
      written meanwhile. */
  lemma {:induction false} ReportWhileStarted(schedule: seq<Slot>, slot: Slot, mode: Mode, payload: Payload,
                                              subject: int)
    requires DistinctIds(schedule) && slot in schedule && payload.error.None?
    ensures var rules := ClosureRules(schedule, mode); var a := Attempt(slot, 0);
      var started := Act(rules, NEW, JournalMove(Race(schedule, QUIET, Opening(slot, payload))));
      var h := InOneGo(rules, started, 0, subject);
      && Sound(rules, h) && h.reports != map[] && h.At(0).Returned?
      && h.journal.world == World(map[Name(a, Started) := Record(a, Started, payload)], {a})
  {
    var rules := ClosureRules(schedule, mode);
    var journal := Race(schedule, QUIET, Opening(slot, payload));
    NewIsSound(schedule, mode);
    OpeningStarts(schedule, slot, payload);
    assert Sane(schedule, QUIET) && Later(schedule, QUIET, journal);
    LaterIsSane(schedule, QUIET, journal);
    assert NoConflict(journal.world.files);
    LawfulExactly(schedule, journal);
    StartedIsWritable(schedule, mode, journal.world, Attempt(slot, 0), payload);
    var started := Act(rules, NEW, JournalMove(journal));
    ReportLog.StepIsSound(rules, NEW, JournalMove(journal));
    ReportLog.ReadableExactly(rules, started);
    assert started.At(0).Waiting? && Writable(rules, started);
    ReportLog.WriteSucceeds(rules, started, 0, subject);
  }
}
