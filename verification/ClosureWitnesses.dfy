/** Reachable journals, in the program's own discipline, whose snapshot the validator rejects. */
module ClosureWitnesses {
  import opened Ascending
  import opened Journal
  import opened Attempts
  import opened Closure
  import opened ClosureLaws

  /** Only FAILED records carry an error entry, as in every append the program makes. */
  predicate Disciplined(events: seq<Event>) {
    forall e :: e in events && e.Write? && e.status != Failed ==> e.payload.error.None?
  }

  lemma {:induction false} DisciplineHolds(schedule: seq<Slot>, w: World, events: seq<Event>)
    requires Lawful(schedule, w) && Disciplined(events)
    requires forall name :: name in w.files && name.status != Failed ==> w.files[name].payload.error.None?
    ensures forall name :: name in Run(schedule, w, events).files && name.status != Failed ==>
      Run(schedule, w, events).files[name].payload.error.None?
    decreases |events|
  {
    if events != [] {
      var e := events[0];
      assert e in events;
      StepIsLawful(schedule, w, e);
      assert forall x :: x in events[1..] ==> x in events;
      DisciplineHolds(schedule, After(schedule, w, e), events[1..]);
    }
  }

  ghost predicate FailuresExplained(files: Directory) {
    forall name :: name in files && name.status == Failed ==>
      files[name].payload.error.Some? && files[name].payload.error.value != ""
  }

  /** On every disciplined run, stopped anywhere: the snapshot of the journal can be taken, and its own
      validator accepts it exactly when every FAILED record has error text and no retry is open. */
  lemma {:induction false} ReachableSnapshotValidatesExactly(schedule: seq<Slot>, events: seq<Event>, mode: Mode)
    requires DistinctIds(schedule) && Disciplined(events)
    ensures var files := Run(schedule, START, events).files; var s := SnapshotOf(files, schedule, mode, None);
      s.Ok? && (Validates(s.value, files, schedule, mode) <==> FailuresExplained(files) && NoOpenRetry(files, schedule))
  {
    var w := Run(schedule, START, events);
    RunIsLawful(schedule, START, events);
    DisciplineHolds(schedule, START, events);
    SnapshotValidatesExactly(schedule, w, mode);
    assert ErrorsRecorded(w.files) <==> FailuresExplained(w.files) by {
      forall name | name in w.files ensures name.status != Invalidated {
        assert Readable(name, w.files[name]);
      }
      if ErrorsRecorded(w.files) {
        forall name | name in w.files && name.status == Failed
          ensures w.files[name].payload.error.Some? && w.files[name].payload.error.value != ""
        {
          assert ErrorFits(name.status, w.files[name].payload.error);
        }
      }
    }
  }

  const QUIET := Payload(0, 0, None, 0)

  function OneFailure(slot: Slot, error: Option<string>): (r: seq<Event>) {
    var a := Attempt(slot, 0);
    [Select(slot), Write(a, Started, QUIET), Write(a, Failed, QUIET.(error := error))]
  }

  /** What a first attempt that started and failed leaves behind. */
  lemma {:induction false} AfterOneFailure(schedule: seq<Slot>, slot: Slot, error: Option<string>)
    requires slot in schedule
    ensures var a := Attempt(slot, 0);
      Run(schedule, START, OneFailure(slot, error)) == World(
        map[Name(a, Started) := Record(a, Started, QUIET),
            Name(a, Failed) := Record(a, Failed, QUIET.(error := error))], {a})
  {
    var a, e := Attempt(slot, 0), OneFailure(slot, error);
    NextAttemptReads(schedule, START, slot);
    assert SlotHistory(START.files, slot) == [];
    var w1 := After(schedule, START, e[0]);
    assert w1 == World(map[], {a});
    var w2 := After(schedule, w1, e[1]);
    assert w2 == World(map[Name(a, Started) := Record(a, Started, QUIET)], {a});
    RunFirst(schedule, START, e);
    RunOfTwo(schedule, w1, e[1], e[2]);
  }

  lemma {:induction false} RunFirst(schedule: seq<Slot>, w: World, events: seq<Event>)
    requires events != []
    ensures Run(schedule, w, events) == Run(schedule, After(schedule, w, events[0]), events[1..])
  {
  }

  lemma {:induction false} RunOfTwo(schedule: seq<Slot>, w: World, d: Event, e: Event)
    ensures Run(schedule, w, [d, e]) == After(schedule, After(schedule, w, d), e)
  {
    assert [d, e][1..] == [e] && [e][1..] == [];
    RunFirst(schedule, w, [d, e]);
    RunFirst(schedule, After(schedule, w, d), [e]);
  }

  ghost predicate Unexplained(files: Directory, name: Name) {
    name in files && name.status == Failed && (files[name].payload.error.None? || files[name].payload.error.value == "")
  }

  /** Records are never changed, so a FAILED record without error text has the snapshot of every later
      journal rejected. */
  lemma {:induction false} UnexplainedFailureIsFinal(schedule: seq<Slot>, events: seq<Event>, later: seq<Event>,
                                                     name: Name, mode: Mode)
    requires DistinctIds(schedule) && Disciplined(events) && Disciplined(later)
    requires Unexplained(Run(schedule, START, events).files, name)
    ensures var files := Run(schedule, START, events + later).files; var s := SnapshotOf(files, schedule, mode, None);
      s.Ok? && !Validates(s.value, files, schedule, mode)
  {
    RunIsLawful(schedule, START, events);
    RunIsLawful(schedule, Run(schedule, START, events), later);
    RunsInParts(schedule, START, events, later);
    assert Unexplained(Run(schedule, START, events + later).files, name);
    ReachableSnapshotValidatesExactly(schedule, events + later, mode);
  }

  /** Reconciliation of an interrupted attempt appends a FAILED record with no error entry. From then
      on, however the journal grows, its snapshot is rejected, so no closure report can be written. */
  lemma {:induction false} ReconciledFailureIsRejected(schedule: seq<Slot>, slot: Slot, mode: Mode, later: seq<Event>)
    requires DistinctIds(schedule) && slot in schedule && Disciplined(later)
    ensures Disciplined(OneFailure(slot, None))
    ensures var files := Run(schedule, START, OneFailure(slot, None) + later).files;
      var s := SnapshotOf(files, schedule, mode, None);
      s.Ok? && !Validates(s.value, files, schedule, mode)
  {
    AfterOneFailure(schedule, slot, None);
    assert Unexplained(Run(schedule, START, OneFailure(slot, None)).files, Name(Attempt(slot, 0), Failed));
    UnexplainedFailureIsFinal(schedule, OneFailure(slot, None), later, Name(Attempt(slot, 0), Failed), mode);
  }

  function RetryStarted(slot: Slot): (r: seq<Event>) {
    OneFailure(slot, Some("error")) + [Select(slot), Write(Attempt(slot, 1), Started, QUIET)]
  }

  lemma {:induction false} RetryIsGranted(schedule: seq<Slot>, slot: Slot)
    requires slot in schedule
    ensures NextAttempt(Run(schedule, START, OneFailure(slot, Some("error"))).files, schedule, slot) == Ok(1)
  {
    var w := Run(schedule, START, OneFailure(slot, Some("error")));
    AfterOneFailure(schedule, slot, Some("error"));
    RunIsLawful(schedule, START, OneFailure(slot, Some("error")));
    HistoryByFiles(schedule, w, slot);
    NextAttemptReads(schedule, w, slot);
  }

  /** STARTED of an attempt without records is always appended. */
  lemma {:induction false} StartAppends(files: Directory, a: Attempt)
    requires forall status :: Name(a, status) !in files
    ensures Append(files, a, Started, QUIET).0 == files[Name(a, Started) := Record(a, Started, QUIET)]
  {
  }

  lemma {:induction false} AfterRetryStarted(schedule: seq<Slot>, slot: Slot)
    requires slot in schedule
    ensures var files := Run(schedule, START, OneFailure(slot, Some("error"))).files;
      var name := Name(Attempt(slot, 1), Started);
      Run(schedule, START, RetryStarted(slot)).files == files[name := Record(Attempt(slot, 1), Started, QUIET)]
  {
    var w, b := Run(schedule, START, OneFailure(slot, Some("error"))), Attempt(slot, 1);
    var tail := [Select(slot), Write(b, Started, QUIET)];
    AfterOneFailure(schedule, slot, Some("error"));
    RetryIsGranted(schedule, slot);
    var v := After(schedule, w, tail[0]);
    assert v == w.(held := w.held + {b});
    StartAppends(v.files, b);
    RunOfTwo(schedule, w, tail[0], tail[1]);
    RunsInParts(schedule, START, OneFailure(slot, Some("error")), tail);
  }

  lemma {:induction false} RetryIsOpen(schedule: seq<Slot>, slot: Slot)
    requires slot in schedule
    ensures var files := Run(schedule, START, RetryStarted(slot)).files;
      FailuresExplained(files) && OpenRetry(files, slot)
  {
    AfterOneFailure(schedule, slot, Some("error"));
    AfterRetryStarted(schedule, slot);
  }

  lemma {:induction false} RetryIsDisciplined(slot: Slot)
    ensures Disciplined(RetryStarted(slot))
  {
  }

  /** The last record of an open retry is STARTED, the last terminal one FAILED. */
  lemma {:induction false} ReadingsDisagree(schedule: seq<Slot>, w: World, slot: Slot, mode: Mode)
    requires Lawful(schedule, w) && OpenRetry(w.files, slot)
    ensures var h := SlotHistory(w.files, slot);
      h != [] && DispositionOf(h, mode).finalStatus == Started && LastTerminal(LinesOf(h)) == Failed
  {
    var h := SlotHistory(w.files, slot);
    HistoryByFiles(schedule, w, slot);
    assert Lifecycle(h) == RETRY[..3];
    assert Lifecycle(h)[1] == (0, Failed) && Lifecycle(h)[2] == (1, Started);
    var lines := LinesOf(h);
    assert lines[2].status == Started && lines[..2][1].status == Failed;
    assert LastTerminal(lines) == LastTerminal(lines[..2]);
  }

  /** While a retry is open the two readings of the slot's status disagree, and the snapshot is
      rejected although every failure is explained. */
  lemma {:induction false} OpenRetryIsRejected(schedule: seq<Slot>, slot: Slot, mode: Mode)
    requires DistinctIds(schedule) && slot in schedule
    ensures Disciplined(RetryStarted(slot))
    ensures var files := Run(schedule, START, RetryStarted(slot)).files; var h := SlotHistory(files, slot);
      h != [] && DispositionOf(h, mode).finalStatus == Started && LastTerminal(LinesOf(h)) == Failed
    ensures var files := Run(schedule, START, RetryStarted(slot)).files;
      var s := SnapshotOf(files, schedule, mode, None);
      s.Ok? && FailuresExplained(files) && !Validates(s.value, files, schedule, mode)
  {
    RetryIsDisciplined(slot);
    RetryIsOpen(schedule, slot);
    RunIsLawful(schedule, START, RetryStarted(slot));
    ReadingsDisagree(schedule, Run(schedule, START, RetryStarted(slot)), slot, mode);
    ReachableSnapshotValidatesExactly(schedule, RetryStarted(slot), mode);
  }

  lemma {:induction false} RunsInParts(schedule: seq<Slot>, w: World, a: seq<Event>, b: seq<Event>)
    ensures Run(schedule, w, a + b) == Run(schedule, Run(schedule, w, a), b)
    decreases |a|
  {
    if a == [] {
      assert a + b == b;
    } else {
      assert (a + b)[1..] == a[1..] + b;
      RunsInParts(schedule, After(schedule, w, a[0]), a[1..], b);
    }
  }
}
