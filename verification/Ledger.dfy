/** The development ledger: what its validator accepts, and why an accepted ledger never changes. */
module Ledger {
  import opened Ascending
  import opened Journal
  import opened Attempts
  import JournalStore

  /** `_development_journal_records`, on an already authenticated journal. */
  function Development(records: seq<Record>): (r: seq<Record>) {
    if records == [] then []
    else
      (if records[0].attempt.slot.stage != TerminalFormerHoldout then [records[0]] else []) + Development(records[1..])
  }

  predicate Expected(record: Record, expected: seq<Slot>, config: int, foundation: int) {
    && record.attempt.slot in expected
    && (record.status == Started ==> record.payload.config == config && record.payload.foundation == foundation)
  }

  /** "started, succeeded", directly or after one failure. */
  predicate Closed(history: seq<Record>)
    ensures Closed(history) ==> history != []
  {
    Lifecycle(history) == DIRECT || Lifecycle(history) == RETRY
  }

  /** A closed history whose last record belongs to the attempt. */
  predicate Ends(history: seq<Record>, attempt: Attempt) {
    Closed(history) && attempt == history[|history| - 1].attempt
  }

  /** What `_validate_development_attempt_ledger` requires of the development records. */
  predicate Accepts(records: seq<Record>, expected: seq<Slot>, config: int, foundation: int) {
    && records != []
    && (forall i :: 0 <= i < |records| ==> Expected(records[i], expected, config, foundation))
    && (forall s :: s in expected ==> Closed(OfSlot(records, s)))
  }

  ghost predicate Groups(bySlot: map<Slot, seq<Record>>, records: seq<Record>, expected: seq<Slot>) {
    && (forall s :: s in bySlot <==> s in expected)
    && (forall s :: s in bySlot ==> bySlot[s] == OfSlot(records, s))
  }

  lemma {:induction false} GroupsGrow(bySlot: map<Slot, seq<Record>>, records: seq<Record>, expected: seq<Slot>,
                                      r: Record)
    requires Groups(bySlot, records, expected) && r.attempt.slot in bySlot
    ensures Groups(bySlot[r.attempt.slot := bySlot[r.attempt.slot] + [r]], records + [r], expected)
  {
    forall s | s in bySlot
      ensures OfSlot(records + [r], s) == if r.attempt.slot == s then OfSlot(records, s) + [r] else OfSlot(records, s)
    {
      OfSlotConcat(records, [r], s);
    }
  }

  method AddToGroup(bySlot: map<Slot, seq<Record>>, ghost records: seq<Record>, expected: seq<Slot>, r: Record)
    returns (next: map<Slot, seq<Record>>)
    requires Groups(bySlot, records, expected) && r.attempt.slot in expected
    ensures Groups(next, records + [r], expected)
  {
    GroupsGrow(bySlot, records, expected, r);
    next := bySlot[r.attempt.slot := bySlot[r.attempt.slot] + [r]];
  }

  method GroupBySlot(records: seq<Record>, expected: seq<Slot>, config: int, foundation: int)
    returns (r: Result<map<Slot, seq<Record>>>)
    ensures r.Ok? <==> forall i :: 0 <= i < |records| ==> Expected(records[i], expected, config, foundation)
    ensures r.Ok? ==> Groups(r.value, records, expected)
  {
    var bySlot: map<Slot, seq<Record>> := map s | s in expected :: [];
    var i := 0;
    while i < |records|
      invariant i <= |records| && Groups(bySlot, records[..i], expected)
      invariant forall k :: 0 <= k < i ==> Expected(records[k], expected, config, foundation)
    {
      var record := records[i];
      if record.attempt.slot !in expected {
        return Err("development journal contains an unexpected slot");
      }
      if record.status == Started && (record.payload.config != config || record.payload.foundation != foundation) {
        return Err("development STARTED record semantic identity drifted");
      }
      assert records[..i + 1] == records[..i] + [record];
      bySlot := AddToGroup(bySlot, records[..i], expected, record);
      i := i + 1;
    }
    assert records[..i] == records;
    return Ok(bySlot);
  }

  method ValidateDevelopmentAttemptLedger(records: seq<Record>, expected: seq<Slot>, config: int, foundation: int)
    returns (r: Result<map<Slot, Attempt>>)
    ensures r.Ok? <==> Accepts(records, expected, config, foundation)
    ensures r.Ok? ==> forall s :: s in r.value <==> s in expected
    ensures r.Ok? ==> forall s :: s in expected ==> Ends(OfSlot(records, s), r.value[s])
  {
    if records == [] {
      return Err("development attempt journal is empty");
    }
    var bySlot := GroupBySlot(records, expected, config, foundation);
    if bySlot.Err? {
      return Err(bySlot.reason);
    }
    r := AcceptClosed(bySlot.value, expected);
  }

  /** The last attempt of every expected slot, if all their histories are closed. */
  method AcceptClosed(bySlot: map<Slot, seq<Record>>, expected: seq<Slot>) returns (r: Result<map<Slot, Attempt>>)
    requires forall s :: s in bySlot <==> s in expected
    ensures r.Ok? <==> forall s :: s in expected ==> Closed(bySlot[s])
    ensures r.Ok? ==> forall s :: s in r.value <==> s in expected
    ensures r.Ok? ==> forall s :: s in expected ==> Ends(bySlot[s], r.value[s])
  {
    var accepted: map<Slot, Attempt> := map[];
    var i := 0;
    while i < |expected|
      invariant i <= |expected|
      invariant forall s :: s in accepted ==> s in expected
      invariant forall k :: 0 <= k < i ==> expected[k] in accepted && Ends(bySlot[expected[k]], accepted[expected[k]])
    {
      var slot := expected[i];
      var history := bySlot[slot];
      if !Closed(history) {
        return Err("development attempt lifecycle is not canonical");
      }
      accepted := accepted[slot := history[|history| - 1].attempt];
      i := i + 1;
    }
    return Ok(accepted);
  }

  // ---- acceptance on reachable journals

  predicate SlotSucceeded(files: Directory, slot: Slot) {
    Has(files, slot, 0, Succeeded) || Has(files, slot, 1, Succeeded)
  }

  lemma {:induction false} DevelopmentOfSlot(records: seq<Record>, slot: Slot)
    requires slot.stage != TerminalFormerHoldout
    ensures OfSlot(Development(records), slot) == OfSlot(records, slot)
  {
    if records != [] {
      var head := if records[0].attempt.slot.stage != TerminalFormerHoldout then [records[0]] else [];
      OfSlotConcat(head, Development(records[1..]), slot);
      DevelopmentOfSlot(records[1..], slot);
    }
  }

  function DevelopmentRecords(files: Directory, schedule: seq<Slot>): (r: seq<Record>) {
    Development(InOrder(files, Slots(schedule)))
  }

  /** On every reachable journal the ledger closes exactly when its records are the expected ones and
      every expected slot has a SUCCEEDED record; an open, failed or exhausted slot keeps it open. */
  lemma {:induction false} LedgerClosesExactlyOnSuccess(schedule: seq<Slot>, w: World, expected: seq<Slot>,
                                                        config: int, foundation: int)
    requires Lawful(schedule, w)
    requires forall s :: s in expected ==> s in schedule && s.stage != TerminalFormerHoldout
    ensures var records := DevelopmentRecords(w.files, schedule);
      Accepts(records, expected, config, foundation) <==>
        && records != []
        && (forall i :: 0 <= i < |records| ==> Expected(records[i], expected, config, foundation))
        && (forall s :: s in expected ==> SlotSucceeded(w.files, s))
  {
    forall s | s in expected
      ensures Closed(OfSlot(DevelopmentRecords(w.files, schedule), s)) <==> SlotSucceeded(w.files, s)
    {
      ClosedWhenSucceeded(schedule, w, s);
    }
  }

  lemma {:induction false} HistoryClosesOnSuccess(schedule: seq<Slot>, w: World, s: Slot)
    requires Lawful(schedule, w)
    ensures Closed(SlotHistory(w.files, s)) <==> SlotSucceeded(w.files, s)
  {
    HistoryByFiles(schedule, w, s);
    assert Coherent(w.files, Attempt(s, 0)) && Coherent(w.files, Attempt(s, 1));
    assert Has(w.files, s, 1, Succeeded) ==> Attempt(s, 1) in w.held;
    assert EXHAUSTED[3] != RETRY[3] && DIRECT[1] != RETRY[..2][1];
  }

  lemma {:induction false} ClosedWhenSucceeded(schedule: seq<Slot>, w: World, s: Slot)
    requires Lawful(schedule, w) && s in schedule && s.stage != TerminalFormerHoldout
    ensures Closed(OfSlot(DevelopmentRecords(w.files, schedule), s)) <==> SlotSucceeded(w.files, s)
  {
    DevelopmentOfSlot(InOrder(w.files, Slots(schedule)), s);
    JournalReads(schedule, w, s);
    HistoryClosesOnSuccess(schedule, w, s);
  }

  // ---- the freeze

  ghost predicate SameSlot(a: Directory, b: Directory, slot: Slot) {
    forall name: Name :: name.attempt.slot == slot ==>
      (name in a <==> name in b) && (name in a ==> a[name] == b[name])
  }

  /** No event changes a record of a slot that has succeeded. */
  lemma {:induction false} SucceededSlotIsFrozen(schedule: seq<Slot>, w: World, e: Event, slot: Slot)
    requires Lawful(schedule, w) && SlotSucceeded(w.files, slot)
    ensures SameSlot(w.files, After(schedule, w, e).files, slot)
  {
    if e.Write? && e.attempt in w.held && e.attempt.slot == slot {
      var a := e.attempt;
      assert Coherent(w.files, Attempt(slot, 0)) && Coherent(w.files, Attempt(slot, 1));
      assert forall s :: Name(Attempt(slot, 1), s) in w.files ==> Attempt(slot, 1) in w.held;
      assert a.number == 1 ==> Has(w.files, slot, 0, Failed);
      assert a.number == 0 || a.number == 1;
      var r := Append(w.files, a, e.status, e.payload);
      if r.1.Ok? {
        assert Name(a, e.status) in w.files;
      }
    }
  }

  lemma {:induction false} SameDevelopment(a: Directory, b: Directory, slots: seq<Slot>)
    requires Intact(a) && Intact(b)
    requires forall s :: s in slots && s.stage != TerminalFormerHoldout ==> SameSlot(a, b, s)
    ensures Development(InOrder(a, slots)) == Development(InOrder(b, slots))
  {
    if slots != [] {
      var s := slots[0];
      DevelopmentConcat(SlotHistory(a, s), InOrder(a, slots[1..]));
      DevelopmentConcat(SlotHistory(b, s), InOrder(b, slots[1..]));
      SameDevelopment(a, b, slots[1..]);
      if s.stage != TerminalFormerHoldout {
        SameHistory(a, b, s);
      } else {
        DevelopmentOfTerminal(a, s);
        DevelopmentOfTerminal(b, s);
      }
    }
  }

  lemma {:induction false} DevelopmentConcat(a: seq<Record>, b: seq<Record>)
    ensures Development(a + b) == Development(a) + Development(b)
  {
    if a == [] {
      assert a + b == b;
    } else {
      assert (a + b)[1..] == a[1..] + b;
      DevelopmentConcat(a[1..], b);
    }
  }

  lemma {:induction false} SameHistory(a: Directory, b: Directory, slot: Slot)
    requires SameSlot(a, b, slot)
    ensures SlotHistory(a, slot) == SlotHistory(b, slot)
  {
    forall n: AttemptNumber, s: Status
      ensures Entry(a, Attempt(slot, n), s) == Entry(b, Attempt(slot, n), s)
    {
      assert Name(Attempt(slot, n), s).attempt.slot == slot;
    }
  }

  lemma {:induction false} DropsTerminal(records: seq<Record>)
    requires forall r :: r in records ==> r.attempt.slot.stage == TerminalFormerHoldout
    ensures Development(records) == []
  {
    if records != [] {
      assert records[0] in records;
      DropsTerminal(records[1..]);
    }
  }

  lemma {:induction false} DevelopmentOfTerminal(files: Directory, slot: Slot)
    requires Intact(files) && slot.stage == TerminalFormerHoldout
    ensures Development(SlotHistory(files, slot)) == []
  {
    JournalStore.SlotHistoryAscends(files, slot);
    DropsTerminal(SlotHistory(files, slot));
  }

  /** Once every development slot has succeeded, no continuation of the run starts a development
      attempt, and the development projection keeps the value the register bound. */
  lemma {:induction false} ClosedLedgerIsFrozen(schedule: seq<Slot>, w: World, events: seq<Event>)
    requires Lawful(schedule, w)
    requires forall s :: s in schedule && s.stage != TerminalFormerHoldout ==> SlotSucceeded(w.files, s)
    ensures var later := Run(schedule, w, events);
      && DevelopmentRecords(later.files, schedule) == DevelopmentRecords(w.files, schedule)
      && forall s :: s in schedule && s.stage != TerminalFormerHoldout ==> NextAttempt(later.files, schedule, s).Err?
    decreases |events|
  {
    if events == [] {
      forall s | s in schedule && s.stage != TerminalFormerHoldout ensures NextAttempt(w.files, schedule, s).Err? {
        NextAttemptReads(schedule, w, s);
        HistoryByFiles(schedule, w, s);
        assert Coherent(w.files, Attempt(s, 0)) && Coherent(w.files, Attempt(s, 1));
        assert Has(w.files, s, 1, Succeeded) ==> Attempt(s, 1) in w.held;
      }
    } else {
      var next := After(schedule, w, events[0]);
      StepIsLawful(schedule, w, events[0]);
      forall s | s in schedule && s.stage != TerminalFormerHoldout
        ensures SlotSucceeded(next.files, s) && SameSlot(w.files, next.files, s)
      {
        SucceededSlotIsFrozen(schedule, w, events[0], s);
      }
      SlotsOfTail(schedule);
      SameDevelopment(w.files, next.files, Slots(schedule));
      ClosedLedgerIsFrozen(schedule, next, events[1..]);
    }
  }
}
