/** The closure-report log: reports are numbered files, each embeds what a snapshot of the journal was,
    and every read of the log validates all of them against the journal as it is then.

    Writing a report takes no lock. Counting the reports, drafting, validating, creating the file and
    reading the log back are separate steps of any number of writers, and a writer can crash between any
    two. The log is stated for any way of taking and validating snapshots; `ClosureHistory` supplies the
    program's own, and its own journal. */
module ReportLog {
  import opened Ascending
  import opened Journal

  /** How snapshots are taken of the journal's files and validated against them. */
  datatype Checks<!S> = Checks(take: Directory -> Result<S>, valid: (S, Directory) -> bool)

  /** The journal as other processes move it on: its files, which state may come later than which, and
      whether it can be read. */
  datatype Rules<!J, !S> = Rules(checks: Checks<S>, files: J -> Directory, next: (J, J) -> bool, holds: J -> bool)

  /** The file-name token digests the sequence with the report's status, phase, reason and identity,
      which are `subject` here. */
  datatype ReportName = ReportName(sequence: int, subject: int)

  datatype Report<S> = Report(sequence: int, subject: int, development: S, terminal: S)

  type Log<S> = map<ReportName, Report<S>>

  /** How far one call of the writer is. `source` is a history variable: the journal the draft's snapshot
      was taken of. An exception and a crash both leave the call `Stopped`. */
  datatype Stage<J, S> =
    | Waiting
    | Counted(sequence: int)
    | Drafted(report: Report<S>, source: J)
    | Checked(report: Report<S>, source: J)
    | Created(report: Report<S>)
    | Returned(report: Report<S>)
    | Stopped

  datatype History<J, S> = History(journal: J, reports: Log<S>, writers: map<nat, Stage<J, S>>) {
    function At(w: nat): (stage: Stage<J, S>) {
      if w in writers then writers[w] else Waiting
    }
  }

  datatype Step = Count | Draft(subject: int) | Check | Create | ReadBack | Crash

  datatype Action<J> = JournalMove(journal: J) | WriterStep(writer: nat, step: Step)

  function NameFor<S>(report: Report<S>): (name: ReportName) {
    ReportName(report.sequence, report.subject)
  }

  /** `_validate_closure_report_payload`, as far as it depends on the journal or the file name. */
  predicate PayloadValid<S>(checks: Checks<S>, files: Directory, name: ReportName, report: Report<S>) {
    && report.sequence > 0
    && checks.valid(report.development, files)
    && checks.valid(report.terminal, files)
    && name == NameFor(report)
  }

  predicate DistinctNumbers<S>(reports: Log<S>) {
    forall a, b :: a in reports && b in reports && a.sequence == b.sequence ==> a == b
  }

  /** The sorted sequence numbers are 1..n. */
  predicate Contiguous<S>(reports: Log<S>) {
    && (forall name :: name in reports ==> 1 <= name.sequence <= |reports|)
    && DistinctNumbers(reports)
  }

  predicate AllValid<S>(checks: Checks<S>, files: Directory, reports: Log<S>) {
    forall name :: name in reports ==> PayloadValid(checks, files, name, reports[name])
  }

  /** `_closure_report_records` returns instead of raising. */
  predicate ReadsBack<S>(checks: Checks<S>, files: Directory, reports: Log<S>) {
    Contiguous(reports) && AllValid(checks, files, reports)
  }

  /** The check of the read-back: as many reports as the draft's number, and the last one is the draft. */
  ghost predicate IsLast<S>(reports: Log<S>, report: Report<S>) {
    && |reports| == report.sequence
    && (forall name :: name in reports && name.sequence == |reports| ==> reports[name] == report)
  }

  /** One step of one writer. */
  ghost function Advance<J, S>(rules: Rules<J, S>, journal: J, reports: Log<S>, stage: Stage<J, S>,
                      step: Step): (next: (Log<S>, Stage<J, S>)) {
    match (step, stage)
    case (Count, Waiting) =>
      (reports, if ReadsBack(rules.checks, rules.files(journal), reports) then Counted(|reports| + 1) else Stopped)
    case (Draft(subject), Counted(sequence)) =>
      var s := rules.checks.take(rules.files(journal));
      (reports, if s.Ok? then Drafted(Report(sequence, subject, s.value, s.value), journal) else Stopped)
    case (Check, Drafted(report, source)) =>
      var valid := PayloadValid(rules.checks, rules.files(journal), NameFor(report), report);
      (reports, if valid then Checked(report, source) else Stopped)
    case (Create, Checked(report, _)) =>
      if NameFor(report) in reports then (reports, Stopped)
      else (reports[NameFor(report) := report], Created(report))
    case (ReadBack, Created(report)) =>
      var complete := ReadsBack(rules.checks, rules.files(journal), reports) && IsLast(reports, report);
      (reports, if complete then Returned(report) else Stopped)
    case (Crash, _) => (reports, if stage.Returned? then stage else Stopped)
    case _ => (reports, stage)
  }

  ghost function Act<J, S>(rules: Rules<J, S>, h: History<J, S>, action: Action<J>): (next: History<J, S>) {
    match action
    case JournalMove(journal) => if rules.next(h.journal, journal) then h.(journal := journal) else h
    case WriterStep(w, step) =>
      var (reports, stage) := Advance(rules, h.journal, h.reports, h.At(w), step);
      History(h.journal, reports, h.writers[w := stage])
  }

  ghost function Run<J, S>(rules: Rules<J, S>, h: History<J, S>, actions: seq<Action<J>>): (last: History<J, S>)
    decreases |actions|
  {
    if actions == [] then h else Run(rules, Act(rules, h, actions[0]), actions[1..])
  }

  ghost predicate Grows<K, V>(a: map<K, V>, b: map<K, V>) {
    forall k :: k in a ==> k in b && b[k] == a[k]
  }

  /** What the journal promises: a snapshot that agreed with it agrees with every later journal that can be
      read, and with none that cannot; a journal that cannot be read never can be again. */
  ghost predicate Persistent<J(!new), S(!new)>(rules: Rules<J, S>) {
    && (forall u: J, v: J, w: J :: rules.next(u, v) && rules.next(v, w) ==> rules.next(u, w))
    && (forall v: J, w: J :: rules.next(v, w) ==> rules.next(w, w) && (rules.holds(w) ==> rules.holds(v)))
    && (forall s: S, v: J, w: J :: rules.next(v, w) && rules.holds(w) && rules.checks.valid(s, rules.files(v)) ==>
          rules.checks.valid(s, rules.files(w)))
    && (forall s: S, w: J :: rules.next(w, w) && !rules.holds(w) ==> !rules.checks.valid(s, rules.files(w)))
  }

  /** `_closure_report_records` would return. */
  ghost predicate Reads<J, S>(rules: Rules<J, S>, h: History<J, S>) {
    ReadsBack(rules.checks, rules.files(h.journal), h.reports)
  }

  // ---- numbers in use

  ghost function Numbers<S>(reports: Log<S>): (numbers: set<int>) {
    set name | name in reports :: name.sequence
  }

  /** Every number below n is in use. */
  ghost predicate Reached<S>(reports: Log<S>, n: int) {
    1 <= n && forall k :: 1 <= k < n ==> k in Numbers(reports)
  }

  ghost predicate Gapless<S>(reports: Log<S>) {
    forall name :: name in reports ==> Reached(reports, name.sequence)
  }

  lemma {:induction false} NumbersSize<S>(reports: Log<S>)
    ensures |Numbers(reports)| <= |reports|
    ensures DistinctNumbers(reports) ==> |Numbers(reports)| == |reports|
    decreases |reports|
  {
    if reports.Keys != {} {
      var name :| name in reports.Keys;
      var rest := reports - {name};
      assert rest.Keys == reports.Keys - {name};
      NumbersSize(rest);
      assert Numbers(reports) == Numbers(rest) + {name.sequence};
    }
  }

  /** Without gaps, the numbers are 1..n exactly when no two reports share one. */
  lemma {:induction false} ContiguousExactly<S>(reports: Log<S>)
    requires Gapless(reports)
    ensures Contiguous(reports) <==> DistinctNumbers(reports)
  {
    if DistinctNumbers(reports) {
      NumbersSize(reports);
      forall name | name in reports ensures 1 <= name.sequence <= |reports| {
        assert Reached(reports, name.sequence) && name.sequence in Numbers(reports);
        SubsetSize(UpTo(name.sequence), Numbers(reports));
      }
    }
  }

  lemma {:induction false} ContiguousIsFull<S>(reports: Log<S>)
    requires Contiguous(reports)
    ensures forall k :: 1 <= k <= |reports| ==> k in Numbers(reports)
    ensures Reached(reports, |reports| + 1)
  {
    NumbersSize(reports);
    forall k | 1 <= k <= |reports| ensures k in Numbers(reports) {
      if k !in Numbers(reports) {
        SomeOutside(Numbers(reports), |reports|, k);
      }
    }
  }

  lemma {:induction false} NumbersGrow<S>(a: Log<S>, b: Log<S>)
    requires Grows(a, b)
    ensures Numbers(a) <= Numbers(b)
    ensures forall n :: Reached(a, n) ==> Reached(b, n)
  {
    forall k | k in Numbers(a) ensures k in Numbers(b) {
      var name :| name in a && name.sequence == k;
      assert name in b;
    }
  }

  lemma {:induction false} SecondUse<S>(reports: Log<S>, name: ReportName, report: Report<S>)
    requires name !in reports && name.sequence in Numbers(reports)
    ensures !DistinctNumbers(reports[name := report])
  {
    var other :| other in reports && other.sequence == name.sequence;
    assert other in reports[name := report] && name in reports[name := report];
  }

  /** A new report keeps the numbers 1..n exactly when it bears the next one. */
  lemma {:induction false} AddContiguous<S>(reports: Log<S>, name: ReportName, report: Report<S>)
    requires Contiguous(reports) && name !in reports && 1 <= name.sequence
    ensures |reports[name := report]| == |reports| + 1
    ensures Contiguous(reports[name := report]) <==> name.sequence == |reports| + 1
  {
    var next := reports[name := report];
    assert next.Keys == reports.Keys + {name};
    if name.sequence <= |reports| {
      ContiguousIsFull(reports);
      SecondUse(reports, name, report);
    } else if name.sequence > |reports| + 1 {
      assert name in next;
    }
  }

  // ---- the invariant

  /** The draft was taken from an earlier journal, and bears a number that was next when it counted. */
  ghost predicate DraftHolds<J, S>(rules: Rules<J, S>, journal: J, reports: Log<S>, report: Report<S>, source: J) {
    && Reached(reports, report.sequence)
    && report.development == report.terminal
    && rules.next(source, journal)
    && rules.checks.take(rules.files(source)) == Ok(report.development)
  }

  /** It passes validation, as long as the journal can be read. */
  ghost predicate DraftPasses<J, S>(rules: Rules<J, S>, journal: J, report: Report<S>) {
    rules.holds(journal) ==> PayloadValid(rules.checks, rules.files(journal), NameFor(report), report)
  }

  ghost predicate StageHolds<J, S>(rules: Rules<J, S>, journal: J, reports: Log<S>, stage: Stage<J, S>) {
    match stage
    case Waiting => true
    case Counted(sequence) => Reached(reports, sequence)
    case Drafted(report, source) => DraftHolds(rules, journal, reports, report, source)
    case Checked(report, source) =>
      DraftHolds(rules, journal, reports, report, source) && DraftPasses(rules, journal, report)
    case Created(report) => NameFor(report) in reports && reports[NameFor(report)] == report
    case Returned(report) => NameFor(report) in reports && reports[NameFor(report)] == report
    case Stopped => true
  }

  ghost predicate Named<S>(reports: Log<S>) {
    forall name :: name in reports ==> name == NameFor(reports[name])
  }

  ghost predicate LogHolds<J, S>(rules: Rules<J, S>, journal: J, reports: Log<S>) {
    && rules.next(journal, journal)
    && (rules.holds(journal) ==> AllValid(rules.checks, rules.files(journal), reports))
    && Named(reports) && Gapless(reports)
  }

  ghost predicate Sound<J, S>(rules: Rules<J, S>, h: History<J, S>) {
    && LogHolds(rules, h.journal, h.reports)
    && (forall w :: w in h.writers ==> StageHolds(rules, h.journal, h.reports, h.writers[w]))
  }

  /** The journal can be read, or there is no report to validate against it. */
  ghost predicate Consultable<J, S>(rules: Rules<J, S>, h: History<J, S>) {
    rules.holds(h.journal) || h.reports == map[]
  }

  /** The log reads back exactly when no two reports share a number and the journal can be read. */
  lemma {:induction false} ReadableExactly<J(!new), S(!new)>(rules: Rules<J, S>, h: History<J, S>)
    requires Persistent(rules) && Sound(rules, h)
    ensures Reads(rules, h) <==> DistinctNumbers(h.reports) && Consultable(rules, h)
  {
    ContiguousExactly(h.reports);
    if !rules.holds(h.journal) && h.reports.Keys != {} {
      var name :| name in h.reports.Keys;
      assert !PayloadValid(rules.checks, rules.files(h.journal), name, h.reports[name]);
    }
  }

  // ---- single steps

  lemma {:induction false} CreateHolds<J, S>(rules: Rules<J, S>, journal: J, reports: Log<S>, report: Report<S>)
    requires LogHolds(rules, journal, reports) && Reached(reports, report.sequence)
    requires DraftPasses(rules, journal, report) && NameFor(report) !in reports
    ensures LogHolds(rules, journal, reports[NameFor(report) := report])
    ensures Grows(reports, reports[NameFor(report) := report])
  {
    var next := reports[NameFor(report) := report];
    NumbersGrow(reports, next);
    forall name | name in next ensures Reached(next, name.sequence) {
      assert name == NameFor(report) || name in reports;
    }
  }

  /** One step of one writer keeps the log sound, alters no report, and leaves a sound stage. */
  lemma {:induction false} AdvanceHolds<J, S>(rules: Rules<J, S>, journal: J, reports: Log<S>, stage: Stage<J, S>,
                                              step: Step)
    requires LogHolds(rules, journal, reports) && StageHolds(rules, journal, reports, stage)
    ensures var (after, next) := Advance(rules, journal, reports, stage, step);
      LogHolds(rules, journal, after) && Grows(reports, after) && StageHolds(rules, journal, after, next)
  {
    match (step, stage)
    case (Count, Waiting) =>
      if ReadsBack(rules.checks, rules.files(journal), reports) {
        ContiguousIsFull(reports);
      }
    case (Create, Checked(report, _)) =>
      if NameFor(report) !in reports {
        CreateHolds(rules, journal, reports, report);
      }
    case _ =>
  }

  /** Growth of the log keeps every other writer's stage sound. */
  lemma {:induction false} StageStays<J, S>(rules: Rules<J, S>, journal: J, a: Log<S>, b: Log<S>, stage: Stage<J, S>)
    requires Grows(a, b) && StageHolds(rules, journal, a, stage)
    ensures StageHolds(rules, journal, b, stage)
  {
    NumbersGrow(a, b);
  }

  /** So does growth of the journal. */
  lemma {:induction false} StagePersists<J(!new), S(!new)>(rules: Rules<J, S>, v: J, w: J, reports: Log<S>,
                                                           stage: Stage<J, S>)
    requires Persistent(rules) && rules.next(v, w) && StageHolds(rules, v, reports, stage)
    ensures StageHolds(rules, w, reports, stage)
  {
    if stage.Drafted? || stage.Checked? {
      assert rules.next(stage.source, v) && rules.next(v, w);
    }
  }

  lemma {:induction false} LogPersists<J(!new), S(!new)>(rules: Rules<J, S>, v: J, w: J, reports: Log<S>)
    requires Persistent(rules) && LogHolds(rules, v, reports) && rules.next(v, w)
    ensures LogHolds(rules, w, reports)
  {
    if rules.holds(w) {
      forall name | name in reports ensures PayloadValid(rules.checks, rules.files(w), name, reports[name]) {
        assert PayloadValid(rules.checks, rules.files(v), name, reports[name]);
      }
    }
  }

  lemma {:induction false} JournalMoveIsSound<J(!new), S(!new)>(rules: Rules<J, S>, h: History<J, S>, journal: J)
    requires Persistent(rules) && Sound(rules, h)
    ensures Sound(rules, Act(rules, h, JournalMove(journal)))
  {
    if rules.next(h.journal, journal) {
      LogPersists(rules, h.journal, journal, h.reports);
      forall i | i in h.writers ensures StageHolds(rules, journal, h.reports, h.writers[i]) {
        StagePersists(rules, h.journal, journal, h.reports, h.writers[i]);
      }
    }
  }

  lemma {:induction false} WriteIsSound<J, S>(rules: Rules<J, S>, h: History<J, S>, w: nat, step: Step)
    requires Sound(rules, h)
    ensures var t := Act(rules, h, WriterStep(w, step)); Sound(rules, t) && Grows(h.reports, t.reports)
  {
    var t := Act(rules, h, WriterStep(w, step));
    AdvanceHolds(rules, h.journal, h.reports, h.At(w), step);
    forall i | i in t.writers ensures StageHolds(rules, t.journal, t.reports, t.writers[i]) {
      if i != w {
        StageStays(rules, h.journal, h.reports, t.reports, h.writers[i]);
      }
    }
  }

  /** Every step of any writer or of the journal keeps the invariant and alters no report. */
  lemma {:induction false} StepIsSound<J(!new), S(!new)>(rules: Rules<J, S>, h: History<J, S>, action: Action<J>)
    requires Persistent(rules) && Sound(rules, h)
    ensures var t := Act(rules, h, action);
      Sound(rules, t) && Grows(h.reports, t.reports) && rules.next(h.journal, t.journal)
  {
    match action
    case JournalMove(journal) => JournalMoveIsSound(rules, h, journal);
    case WriterStep(w, step) => WriteIsSound(rules, h, w, step);
  }

  lemma {:induction false} RunIsSound<J(!new), S(!new)>(rules: Rules<J, S>, h: History<J, S>, actions: seq<Action<J>>)
    requires Persistent(rules) && Sound(rules, h)
    ensures var t := Run(rules, h, actions);
      Sound(rules, t) && Grows(h.reports, t.reports) && rules.next(h.journal, t.journal)
    decreases |actions|
  {
    if actions != [] {
      var t := Act(rules, h, actions[0]);
      StepIsSound(rules, h, actions[0]);
      RunIsSound(rules, t, actions[1..]);
      assert rules.next(h.journal, t.journal) && rules.next(t.journal, Run(rules, t, actions[1..]).journal);
    }
  }

  // ---- exactly when the log stays readable

  lemma {:induction false} SharedNumberStays<S>(a: Log<S>, b: Log<S>)
    requires Grows(a, b) && !DistinctNumbers(a)
    ensures !DistinctNumbers(b)
  {
    var x, y :| x in a && y in a && x.sequence == y.sequence && x != y;
    assert x in b && y in b;
  }

  /** A journal that cannot be read stays so, and no report disappears. */
  lemma {:induction false} ShutStays<J(!new), S(!new)>(rules: Rules<J, S>, h: History<J, S>, t: History<J, S>)
    requires Persistent(rules) && rules.next(h.journal, t.journal) && Grows(h.reports, t.reports)
    ensures !Consultable(rules, h) ==> !Consultable(rules, t)
  {
    if h.reports.Keys != {} {
      var name :| name in h.reports.Keys;
      assert name in t.reports;
    }
    assert h.reports.Keys == {} ==> h.reports == map[];
  }

  lemma {:induction false} CollisionStays<J(!new), S(!new)>(rules: Rules<J, S>, h: History<J, S>, action: Action<J>)
    requires Persistent(rules) && Sound(rules, h) && !Reads(rules, h)
    ensures var t := Act(rules, h, action); Sound(rules, t) && !Reads(rules, t)
  {
    var t := Act(rules, h, action);
    StepIsSound(rules, h, action);
    ReadableExactly(rules, h);
    ReadableExactly(rules, t);
    ShutStays(rules, h, t);
    if !DistinctNumbers(h.reports) {
      SharedNumberStays(h.reports, t.reports);
    }
  }

  /** Creating the file keeps the log readable exactly when the draft's number is still the next one and
      the journal can be read. */
  lemma {:induction false} CreateExactly<J(!new), S(!new)>(rules: Rules<J, S>, h: History<J, S>, w: nat)
    requires Persistent(rules) && Sound(rules, h) && Reads(rules, h) && h.At(w).Checked?
    ensures var report := h.At(w).report; var t := Act(rules, h, WriterStep(w, Create));
      if NameFor(report) in h.reports then t.reports == h.reports && t.At(w).Stopped?
      else
        && t.reports == h.reports[NameFor(report) := report] && t.At(w) == Created(report)
        && (Reads(rules, t) <==> report.sequence == |h.reports| + 1 && rules.holds(h.journal))
  {
    var report := h.At(w).report;
    assert StageHolds(rules, h.journal, h.reports, h.At(w));
    if NameFor(report) !in h.reports {
      var t := Act(rules, h, WriterStep(w, Create));
      WriteIsSound(rules, h, w, Create);
      AddContiguous(h.reports, NameFor(report), report);
      ReadableExactly(rules, t);
      ContiguousExactly(t.reports);
      assert NameFor(report) in t.reports;
    }
  }

  /** The read-back returns exactly when no number is shared, nothing was created after the draft, and the
      journal can be read. */
  lemma {:induction false} ReadBackExactly<J(!new), S(!new)>(rules: Rules<J, S>, h: History<J, S>, w: nat)
    requires Persistent(rules) && Sound(rules, h) && h.At(w).Created?
    ensures var report := h.At(w).report; var t := Act(rules, h, WriterStep(w, ReadBack));
      var complete := DistinctNumbers(h.reports) && |h.reports| == report.sequence && rules.holds(h.journal);
      t.reports == h.reports && t.At(w) == if complete then Returned(report) else Stopped
  {
    ReadableExactly(rules, h);
    assert StageHolds(rules, h.journal, h.reports, h.At(w));
    assert NameFor(h.At(w).report) in h.reports;
  }

  /** The number a call took, for as long as it lives. */
  predicate Bears<J, S>(stage: Stage<J, S>, n: int) {
    match stage
    case Waiting => false
    case Counted(sequence) => sequence == n
    case Drafted(report, _) => report.sequence == n
    case Checked(report, _) => report.sequence == n
    case Created(report) => report.sequence == n
    case Returned(report) => report.sequence == n
    case Stopped => true
  }

  lemma {:induction false} NumberStays<J, S>(rules: Rules<J, S>, h: History<J, S>, actions: seq<Action<J>>, w: nat,
                                             n: int)
    requires Bears(h.At(w), n)
    ensures Bears(Run(rules, h, actions).At(w), n)
    decreases |actions|
  {
    if actions != [] {
      assert Bears(Act(rules, h, actions[0]).At(w), n);
      NumberStays(rules, Act(rules, h, actions[0]), actions[1..], w, n);
    }
  }

  lemma {:induction false} SameSize<S>(a: Log<S>, b: Log<S>)
    requires Grows(a, b)
    ensures |a| <= |b| && (|a| == |b| ==> a == b)
  {
    assert b.Keys == a.Keys + (b.Keys - a.Keys);
  }

  lemma {:induction false} CreateAdds<J, S>(rules: Rules<J, S>, t: History<J, S>, w: nat)
    requires t.At(w).Checked?
    ensures var report := t.At(w).report; var u := Act(rules, t, WriterStep(w, Create));
      if NameFor(report) in t.reports then u.At(w).Stopped? && u.reports == t.reports
      else u.At(w) == Created(report) && u.reports == t.reports[NameFor(report) := report]
  {
  }

  lemma {:induction false} CreateOnBroken<J(!new), S(!new)>(rules: Rules<J, S>, t: History<J, S>, w: nat)
    requires Persistent(rules) && Sound(rules, t) && !Reads(rules, t)
    ensures var u := Act(rules, t, WriterStep(w, Create)); !Reads(rules, u)
  {
    CollisionStays(rules, t, WriterStep(w, Create));
  }

  /** A draft that counted `seen`, whatever the log is by the time its file is created. */
  lemma {:induction false} CreateAfter<J(!new), S(!new)>(rules: Rules<J, S>, seen: Log<S>, t: History<J, S>, w: nat)
    requires Persistent(rules) && Sound(rules, t) && Contiguous(seen) && Grows(seen, t.reports)
    requires t.At(w).Checked? && t.At(w).report.sequence == |seen| + 1
    ensures var u := Act(rules, t, WriterStep(w, Create));
      if u.At(w).Created? then Reads(rules, u) <==> t.reports == seen && rules.holds(t.journal)
      else u.At(w).Stopped? && u.reports == t.reports != seen
  {
    SameSize(seen, t.reports);
    CreateAdds(rules, t, w);
    ReachedNames(seen, t.At(w).report.subject);
    if Reads(rules, t) {
      CreateExactly(rules, t, w);
    } else {
      ReadableExactly(rules, t);
      CreateOnBroken(rules, t, w);
    }
  }

  lemma {:induction false} ReachedNames<S>(reports: Log<S>, subject: int)
    requires Contiguous(reports)
    ensures ReportName(|reports| + 1, subject) !in reports
  {
  }

  /** A whole write against anything that happens meanwhile: the file it creates keeps the log readable
      exactly when no report was created between its count and its own creation and the journal can be
      read. */
  lemma {:induction false} OverlapExactly<J(!new), S(!new)>(rules: Rules<J, S>, h: History<J, S>, w: nat,
                                                            between: seq<Action<J>>)
    requires Persistent(rules) && Sound(rules, h)
    requires Reads(rules, h) && h.At(w).Waiting?
    ensures var t := Run(rules, Act(rules, h, WriterStep(w, Count)), between);
      var u := Act(rules, t, WriterStep(w, Create));
      t.At(w).Checked? ==>
        && t.At(w).report.sequence == |h.reports| + 1
        && if u.At(w).Created? then Reads(rules, u) <==> t.reports == h.reports && rules.holds(t.journal)
           else u.At(w).Stopped? && u.reports == t.reports != h.reports
  {
    var c := Act(rules, h, WriterStep(w, Count));
    var t := Run(rules, c, between);
    WriteIsSound(rules, h, w, Count);
    RunIsSound(rules, c, between);
    NumberStays(rules, c, between, w, |h.reports| + 1);
    if t.At(w).Checked? {
      CreateAfter(rules, h.reports, t, w);
    }
  }

  /** A write returns exactly when its own report is the only one created from its count to its read-back
      and the journal can then be read. */
  lemma {:induction false} WriteReturnsExactly<J(!new), S(!new)>(rules: Rules<J, S>, h: History<J, S>, w: nat,
                                                                 during: seq<Action<J>>)
    requires Persistent(rules) && Sound(rules, h)
    requires Reads(rules, h) && h.At(w).Waiting?
    ensures var t := Run(rules, Act(rules, h, WriterStep(w, Count)), during);
      var u := Act(rules, t, WriterStep(w, ReadBack));
      t.At(w).Created? ==>
        (u.At(w).Returned? <==>
         t.reports == h.reports[NameFor(t.At(w).report) := t.At(w).report] && rules.holds(t.journal))
  {
    var c := Act(rules, h, WriterStep(w, Count));
    var t := Run(rules, c, during);
    WriteIsSound(rules, h, w, Count);
    RunIsSound(rules, c, during);
    NumberStays(rules, c, during, w, |h.reports| + 1);
    if t.At(w).Created? {
      var report := t.At(w).report;
      var alone := h.reports[NameFor(report) := report];
      ReadBackExactly(rules, t, w);
      assert StageHolds(rules, t.journal, t.reports, t.At(w));
      assert NameFor(report) !in h.reports;
      AddContiguous(h.reports, NameFor(report), report);
      SameSize(alone, t.reports);
    }
  }

  // ---- after a collision

  /** A call does not begin and does not return. */
  ghost predicate Ends<J, S>(before: Stage<J, S>, after: Stage<J, S>) {
    && (after.Returned? ==> before == after)
    && (before.Waiting? || before.Stopped? ==> after.Waiting? || after.Stopped?)
  }

  lemma {:induction false} StepEnds<J, S>(rules: Rules<J, S>, h: History<J, S>, action: Action<J>, w: nat)
    requires !Reads(rules, h)
    ensures Ends(h.At(w), Act(rules, h, action).At(w))
  {
  }

  /** A log that does not read back, because two reports share a number or the journal cannot be read, never
      does again: whatever happens later, no write that
      has not begun gets past its count, and no write that has not returned ever returns. */
  lemma {:induction false} CollisionIsFinal<J(!new), S(!new)>(rules: Rules<J, S>, h: History<J, S>,
                                                              later: seq<Action<J>>, w: nat)
    requires Persistent(rules) && Sound(rules, h) && !Reads(rules, h)
    ensures var t := Run(rules, h, later); !Reads(rules, t) && Ends(h.At(w), t.At(w))
    decreases |later|
  {
    if later != [] {
      CollisionStays(rules, h, later[0]);
      StepEnds(rules, h, later[0], w);
      CollisionIsFinal(rules, Act(rules, h, later[0]), later[1..], w);
    }
  }

  /** Every report created in the run bore the next number when its file appeared. */
  ghost predicate OnTime<J, S>(rules: Rules<J, S>, h: History<J, S>, actions: seq<Action<J>>)
    decreases |actions|
  {
    actions == [] ||
    (var t := Act(rules, h, actions[0]);
     && (forall name :: name in t.reports && name !in h.reports ==> name.sequence == |h.reports| + 1)
     && OnTime(rules, t, actions[1..]))
  }

  lemma {:induction false} OnlyCreateWrites<J, S>(rules: Rules<J, S>, h: History<J, S>, action: Action<J>)
    ensures Act(rules, h, action).reports == h.reports ||
      (action.WriterStep? && action.step.Create? && h.At(action.writer).Checked?)
  {
  }

  lemma {:induction false} StepReadsBackExactly<J(!new), S(!new)>(rules: Rules<J, S>, h: History<J, S>,
                                                                  action: Action<J>)
    requires Persistent(rules) && Sound(rules, h) && Reads(rules, h)
    ensures var t := Act(rules, h, action);
      Reads(rules, t) <==>
        && Consultable(rules, t)
        && forall name :: name in t.reports && name !in h.reports ==> name.sequence == |h.reports| + 1
  {
    OnlyCreateWrites(rules, h, action);
    var t := Act(rules, h, action);
    if t.reports == h.reports {
      StepIsSound(rules, h, action);
      ReadableExactly(rules, t);
    } else {
      CreateExactly(rules, h, action.writer);
      assert NameFor(h.At(action.writer).report) in t.reports;
    }
  }

  /** The log reads back after a run exactly when every report of the run was created on time and the
      journal can be read, unless there is no report. */
  lemma {:induction false} RunReadsBackExactly<J(!new), S(!new)>(rules: Rules<J, S>, h: History<J, S>,
                                                                 actions: seq<Action<J>>)
    requires Persistent(rules) && Sound(rules, h) && Reads(rules, h)
    ensures var t := Run(rules, h, actions); Reads(rules, t) <==> OnTime(rules, h, actions) && Consultable(rules, t)
    decreases |actions|
  {
    if actions == [] {
      ReadableExactly(rules, h);
    } else {
      var t := Act(rules, h, actions[0]);
      StepIsSound(rules, h, actions[0]);
      StepReadsBackExactly(rules, h, actions[0]);
      if Reads(rules, t) {
        RunReadsBackExactly(rules, t, actions[1..]);
      } else {
        CollisionIsFinal(rules, t, actions[1..], 0);
        RunIsSound(rules, t, actions[1..]);
        ShutStays(rules, t, Run(rules, t, actions[1..]));
      }
    }
  }

  // ---- what a lock would buy

  /** The call has counted and not created its file yet. */
  predicate Busy<J, S>(stage: Stage<J, S>) {
    stage.Counted? || stage.Drafted? || stage.Checked?
  }

  /** No call counts while another is between its count and its creation. */
  ghost predicate Serial<J, S>(rules: Rules<J, S>, h: History<J, S>, actions: seq<Action<J>>)
    decreases |actions|
  {
    actions == [] ||
    (&& (actions[0].WriterStep? && actions[0].step.Count? ==> forall v :: v in h.writers ==> !Busy(h.writers[v]))
     && Serial(rules, Act(rules, h, actions[0]), actions[1..]))
  }

  /** At most one call is busy, and it bears the next number. */
  ghost predicate OneBusy<J, S>(h: History<J, S>) {
    && (forall v :: v in h.writers && Busy(h.writers[v]) ==> Bears(h.writers[v], |h.reports| + 1))
    && (forall u, v :: u in h.writers && v in h.writers && Busy(h.writers[u]) && Busy(h.writers[v]) ==> u == v)
  }

  lemma {:induction false} StepStaysOneBusy<J, S>(rules: Rules<J, S>, h: History<J, S>, action: Action<J>)
    requires OneBusy(h)
    requires action.WriterStep? && action.step.Count? ==> forall v :: v in h.writers ==> !Busy(h.writers[v])
    ensures OneBusy(Act(rules, h, action))
  {
    OnlyCreateWrites(rules, h, action);
    var t := Act(rules, h, action);
    if action.WriterStep? {
      var w := action.writer;
      assert forall v :: v in t.writers && v != w ==> v in h.writers && t.writers[v] == h.writers[v];
      if t.reports != h.reports {
        assert h.At(w) == h.writers[w] && Busy(h.writers[w]) && !Busy(t.writers[w]);
      }
      assert Busy(t.writers[w]) && !action.step.Count? ==> w in h.writers && Busy(h.writers[w]);
    }
  }

  /** If no call counts while another is between its count and its creation, every report is created on
      time: the numbers stay 1..n, and the log reads back whenever the journal does. */
  lemma {:induction false} SerialIsOnTime<J(!new), S(!new)>(rules: Rules<J, S>, h: History<J, S>,
                                                            actions: seq<Action<J>>)
    requires Persistent(rules) && Sound(rules, h) && DistinctNumbers(h.reports) && OneBusy(h)
    requires Serial(rules, h, actions)
    ensures OnTime(rules, h, actions) && Contiguous(Run(rules, h, actions).reports)
    decreases |actions|
  {
    ContiguousExactly(h.reports);
    if actions != [] {
      var t := Act(rules, h, actions[0]);
      StepIsSound(rules, h, actions[0]);
      StepStaysOneBusy(rules, h, actions[0]);
      NextOnly(rules, h, actions[0]);
      SerialIsOnTime(rules, t, actions[1..]);
    }
  }

  lemma {:induction false} NextOnly<J, S>(rules: Rules<J, S>, h: History<J, S>, action: Action<J>)
    requires Contiguous(h.reports) && OneBusy(h)
    ensures var t := Act(rules, h, action);
      && (forall name :: name in t.reports && name !in h.reports ==> name.sequence == |h.reports| + 1)
      && DistinctNumbers(t.reports)
  {
    OnlyCreateWrites(rules, h, action);
    var t := Act(rules, h, action);
    if t.reports != h.reports {
      var report := h.At(action.writer).report;
      assert Busy(h.writers[action.writer]);
      AddContiguous(h.reports, NameFor(report), report);
    }
  }

  // ---- uninterrupted and overlapping writes

  /** A snapshot can be taken now, and it is accepted. */
  ghost predicate Writable<J, S>(rules: Rules<J, S>, h: History<J, S>) {
    var s := rules.checks.take(rules.files(h.journal));
    s.Ok? && rules.checks.valid(s.value, rules.files(h.journal))
  }

  /** What one uninterrupted write does to the reports. */
  function Written<S>(checks: Checks<S>, files: Directory, reports: Log<S>, subject: int): (after: Log<S>) {
    var s := checks.take(files);
    if !ReadsBack(checks, files, reports) || s.Err? then reports
    else
      var report := Report(|reports| + 1, subject, s.value, s.value);
      if PayloadValid(checks, files, NameFor(report), report) then reports[NameFor(report) := report] else reports
  }

  /** Drafting and validating, with nothing between them. */
  ghost function Prepare<J, S>(rules: Rules<J, S>, h: History<J, S>, w: nat, subject: int): (next: History<J, S>) {
    Act(rules, Act(rules, h, WriterStep(w, Draft(subject))), WriterStep(w, Check))
  }

  lemma {:induction false} PrepareEffect<J, S>(rules: Rules<J, S>, h: History<J, S>, w: nat, subject: int)
    requires h.At(w).Counted?
    ensures var t := Prepare(rules, h, w, subject); var s := rules.checks.take(rules.files(h.journal));
      && t.journal == h.journal && t.reports == h.reports && (forall v: nat :: v != w ==> t.At(v) == h.At(v))
      && if s.Err? then t.At(w).Stopped?
         else
           var report := Report(h.At(w).sequence, subject, s.value, s.value);
           var valid := PayloadValid(rules.checks, rules.files(h.journal), NameFor(report), report);
           t.At(w) == if valid then Checked(report, h.journal) else Stopped
  {
  }

  /** The five steps in a row. */
  ghost function InOneGo<J, S>(rules: Rules<J, S>, h: History<J, S>, w: nat, subject: int): (next: History<J, S>) {
    var prepared := Prepare(rules, Act(rules, h, WriterStep(w, Count)), w, subject);
    Act(rules, Act(rules, prepared, WriterStep(w, Create)), WriterStep(w, ReadBack))
  }

  /** What a write adds once it has counted, drafted and validated. */
  lemma {:induction false} WrittenAdds<S>(checks: Checks<S>, files: Directory, reports: Log<S>, report: Report<S>)
    requires ReadsBack(checks, files, reports) && report.sequence == |reports| + 1
    requires checks.take(files) == Ok(report.development) && report.terminal == report.development
    ensures NameFor(report) !in reports
    ensures PayloadValid(checks, files, NameFor(report), report) ==>
      && Written(checks, files, reports, report.subject) == reports[NameFor(report) := report] != reports
      && ReadsBack(checks, files, reports[NameFor(report) := report])
      && IsLast(reports[NameFor(report) := report], report)
    ensures !PayloadValid(checks, files, NameFor(report), report) ==>
      Written(checks, files, reports, report.subject) == reports
  {
    AddContiguous(reports, NameFor(report), report);
  }

  /** An uninterrupted write leaves the reports `Written`, and returns exactly when that adds one: its
      read-back cannot fail. */
  lemma {:induction false} WriteInOneGo<J, S>(rules: Rules<J, S>, h: History<J, S>, w: nat, subject: int)
    requires h.At(w).Waiting?
    ensures var t := InOneGo(rules, h, w, subject);
      && t.reports == Written(rules.checks, rules.files(h.journal), h.reports, subject)
      && (t.At(w).Returned? <==> t.reports != h.reports)
  {
    var c := Act(rules, h, WriterStep(w, Count));
    if c.At(w).Counted? {
      PrepareEffect(rules, c, w, subject);
      var p := Prepare(rules, c, w, subject);
      if p.At(w).Checked? {
        WrittenAdds(rules.checks, rules.files(h.journal), h.reports, p.At(w).report);
        FinishEffect(rules, p, w);
      } else {
        StoppedStays(rules, p, w);
      }
    } else {
      StoppedStays(rules, Act(rules, c, WriterStep(w, Draft(subject))), w);
    }
  }

  /** Creating and reading back, with nothing between them. */
  lemma {:induction false} FinishEffect<J, S>(rules: Rules<J, S>, p: History<J, S>, w: nat)
    requires p.At(w).Checked? && NameFor(p.At(w).report) !in p.reports
    ensures var report := p.At(w).report; var next := p.reports[NameFor(report) := report];
      var t := Act(rules, Act(rules, p, WriterStep(w, Create)), WriterStep(w, ReadBack));
      && t.reports == next
      && (t.At(w).Returned? <==> ReadsBack(rules.checks, rules.files(p.journal), next) && IsLast(next, report))
  {
    CreateAdds(rules, p, w);
  }

  lemma {:induction false} StoppedStays<J, S>(rules: Rules<J, S>, p: History<J, S>, w: nat)
    requires p.At(w).Stopped?
    ensures var t := Act(rules, Act(rules, p, WriterStep(w, Create)), WriterStep(w, ReadBack));
      t.reports == p.reports && t.At(w).Stopped?
    ensures var t := Act(rules, p, WriterStep(w, Check)); t.reports == p.reports && t.At(w).Stopped?
  {
  }

  /** Wherever a snapshot is taken and accepted, an uninterrupted write adds a report and returns. */
  lemma {:induction false} WriteSucceeds<J, S>(rules: Rules<J, S>, h: History<J, S>, w: nat, subject: int)
    requires Sound(rules, h) && Reads(rules, h) && h.At(w).Waiting? && Writable(rules, h)
    ensures var t := InOneGo(rules, h, w, subject);
      Sound(rules, t) && t.journal == h.journal && t.reports != h.reports && t.At(w).Returned?
  {
    var s := rules.checks.take(rules.files(h.journal)).value;
    WrittenAdds(rules.checks, rules.files(h.journal), h.reports, Report(|h.reports| + 1, subject, s, s));
    WriteInOneGo(rules, h, w, subject);
    var c := Act(rules, h, WriterStep(w, Count));
    var d := Act(rules, c, WriterStep(w, Draft(subject)));
    var k := Act(rules, d, WriterStep(w, Check));
    var f := Act(rules, k, WriterStep(w, Create));
    WriteIsSound(rules, h, w, Count);
    WriteIsSound(rules, c, w, Draft(subject));
    WriteIsSound(rules, d, w, Check);
    WriteIsSound(rules, k, w, Create);
    WriteIsSound(rules, f, w, ReadBack);
  }

  /** Two writes that both count before either creates its file. */
  ghost function BothCounted<J, S>(rules: Rules<J, S>, h: History<J, S>, x: nat, y: nat, a: int,
                                   b: int): (next: History<J, S>) {
    var counted := Act(rules, Act(rules, h, WriterStep(x, Count)), WriterStep(y, Count));
    Prepare(rules, Prepare(rules, counted, x, a), y, b)
  }

  lemma {:induction false} BothAreChecked<J, S>(rules: Rules<J, S>, h: History<J, S>, x: nat, y: nat, a: int, b: int)
    requires Reads(rules, h) && x != y && h.At(x).Waiting? && h.At(y).Waiting?
    requires Writable(rules, h)
    ensures var t := BothCounted(rules, h, x, y, a, b);
      var s := rules.checks.take(rules.files(h.journal)).value; var n := |h.reports| + 1;
      && t.journal == h.journal && t.reports == h.reports
      && t.At(x) == Checked(Report(n, a, s, s), h.journal) && t.At(y) == Checked(Report(n, b, s, s), h.journal)
      && (forall v: nat :: v != x && v != y ==> t.At(v) == h.At(v))
  {
    var c := Act(rules, Act(rules, h, WriterStep(x, Count)), WriterStep(y, Count));
    assert c.At(x) == c.At(y) == Counted(|h.reports| + 1);
    PrepareEffect(rules, c, x, a);
    PrepareEffect(rules, Prepare(rules, c, x, a), y, b);
  }

  /** Wherever one write would succeed, two overlapping ones take the same number. With different
      subjects both files appear and the log is unreadable; with the same subject the second creation
      fails and the log stays readable. */
  lemma {:induction false} OverlapCollides<J, S>(rules: Rules<J, S>, h: History<J, S>, x: nat, y: nat, a: int, b: int)
    requires Reads(rules, h) && x != y && h.At(x).Waiting? && h.At(y).Waiting?
    requires Writable(rules, h)
    ensures var c := BothCounted(rules, h, x, y, a, b);
      var t := Act(rules, Act(rules, c, WriterStep(x, Create)), WriterStep(y, Create));
      && t.At(x).Created?
      && (t.At(y).Created? <==> a != b) && (t.At(y).Stopped? <==> a == b)
      && (Reads(rules, t) <==> a == b)
  {
    BothAreChecked(rules, h, x, y, a, b);
    var c := BothCounted(rules, h, x, y, a, b);
    var t := Act(rules, c, WriterStep(x, Create));
    var r := c.At(x).report;
    ReachedNames(h.reports, a);
    ReachedNames(h.reports, b);
    CreateAdds(rules, c, x);
    WrittenAdds(rules.checks, rules.files(h.journal), h.reports, r);
    assert t.At(y) == c.At(y);
    CreateAdds(rules, t, y);
    if a != b {
      assert NameFor(r) in t.reports;
      SecondUse(t.reports, NameFor(t.At(y).report), t.At(y).report);
    }
  }

  lemma {:induction false} RunInParts<J, S>(rules: Rules<J, S>, h: History<J, S>, a: seq<Action<J>>, b: seq<Action<J>>)
    ensures Run(rules, h, a + b) == Run(rules, Run(rules, h, a), b)
    decreases |a|
  {
    if a == [] {
      assert a + b == b;
    } else {
      assert (a + b)[1..] == a[1..] + b;
      RunInParts(rules, Act(rules, h, a[0]), a[1..], b);
    }
  }

  lemma {:induction false} RunTwo<J, S>(rules: Rules<J, S>, h: History<J, S>, p: Action<J>, q: Action<J>)
    ensures Run(rules, h, [p, q]) == Act(rules, Act(rules, h, p), q)
  {
    assert [p, q][1..] == [q] && [q][1..] == [];
    assert Run(rules, h, [p, q]) == Run(rules, Act(rules, h, p), [q]);
    assert Run(rules, Act(rules, h, p), [q]) == Run(rules, Act(rules, Act(rules, h, p), q), []);
  }

  /** The overlap as a run: count, count, draft and check, draft and check, create, create. */
  function Overlap<J>(x: nat, y: nat, a: int, b: int): (actions: seq<Action<J>>) {
    [WriterStep(x, Count), WriterStep(y, Count)] + [WriterStep(x, Draft(a)), WriterStep(x, Check)]
    + [WriterStep(y, Draft(b)), WriterStep(y, Check)] + [WriterStep(x, Create), WriterStep(y, Create)]
  }

  lemma {:induction false} OverlapIsRun<J, S>(rules: Rules<J, S>, h: History<J, S>, x: nat, y: nat, a: int, b: int)
    ensures Run(rules, h, Overlap(x, y, a, b))
      == Act(rules, Act(rules, BothCounted(rules, h, x, y, a, b), WriterStep(x, Create)), WriterStep(y, Create))
  {
    var counts := [WriterStep(x, Count), WriterStep(y, Count)];
    var first := [WriterStep(x, Draft(a)), WriterStep(x, Check)];
    var second := [WriterStep(y, Draft(b)), WriterStep(y, Check)];
    var creates := [WriterStep(x, Create), WriterStep(y, Create)];
    RunInParts(rules, h, counts + first + second, creates);
    RunInParts(rules, h, counts + first, second);
    RunInParts(rules, h, counts, first);
    RunTwo(rules, h, counts[0], counts[1]);
    RunTwo(rules, Run(rules, h, counts), first[0], first[1]);
    RunTwo(rules, Run(rules, h, counts + first), second[0], second[1]);
    RunTwo(rules, Run(rules, h, counts + first + second), creates[0], creates[1]);
  }

  lemma {:induction false} OverlapEffect<J, S>(rules: Rules<J, S>, h: History<J, S>, x: nat, y: nat, a: int, b: int,
                                               w: nat)
    requires Reads(rules, h) && x != y && h.At(x).Waiting? && h.At(y).Waiting?
    requires Writable(rules, h)
    requires a != b
    ensures var t := Run(rules, h, Overlap(x, y, a, b));
      && t.At(x).Created? && t.At(x).report.sequence == |h.reports| + 1
      && t.At(y).Created? && t.At(y).report.sequence == |h.reports| + 1
      && (w != x && w != y ==> t.At(w) == h.At(w))
      && !Reads(rules, t)
  {
    OverlapIsRun(rules, h, x, y, a, b);
    OverlapCollides(rules, h, x, y, a, b);
    BothAreChecked(rules, h, x, y, a, b);
    CreatesInTurn(rules, BothCounted(rules, h, x, y, a, b), x, y, w);
  }

  lemma {:induction false} CreatesInTurn<J, S>(rules: Rules<J, S>, c: History<J, S>, x: nat, y: nat, w: nat)
    requires x != y && c.At(x).Checked? && c.At(y).Checked?
    ensures var t := Act(rules, Act(rules, c, WriterStep(x, Create)), WriterStep(y, Create));
      && (t.At(x).Created? ==> t.At(x).report == c.At(x).report)
      && (t.At(y).Created? ==> t.At(y).report == c.At(y).report)
      && (w != x && w != y ==> t.At(w) == c.At(w))
  {
    var t := Act(rules, c, WriterStep(x, Create));
    assert t.At(y) == c.At(y);
    CreateAdds(rules, c, x);
    CreateAdds(rules, t, y);
  }

  /** Two overlapping writes of different subjects end the log: from then on, whatever is appended or
      written, no read of it returns, no write returns, and no new write gets past its count. */
  lemma {:induction false} OverlapEndsTheLog<J(!new), S(!new)>(rules: Rules<J, S>, h: History<J, S>, x: nat, y: nat,
                                                               a: int, b: int,
                                                      later: seq<Action<J>>, w: nat)
    requires Persistent(rules) && Sound(rules, h)
    requires Reads(rules, h) && x != y && h.At(x).Waiting? && h.At(y).Waiting?
    requires Writable(rules, h)
    requires a != b
    ensures var t := Run(rules, h, Overlap(x, y, a, b)); var u := Run(rules, t, later);
      && t.At(x).Created? && t.At(y).Created? && t.At(x).report.sequence == t.At(y).report.sequence == |h.reports| + 1
      && !Reads(rules, u)
      && (u.At(w).Returned? ==> h.At(w) == u.At(w))
      && (h.At(w).Waiting? && w != x && w != y ==> u.At(w).Waiting? || u.At(w).Stopped?)
  {
    OverlapEffect(rules, h, x, y, a, b, w);
    RunIsSound(rules, h, Overlap(x, y, a, b));
    CollisionIsFinal(rules, Run(rules, h, Overlap(x, y, a, b)), later, w);
  }
}
