/** The attempt protocol over the journal: at most one retry per slot, the development ledger that
    closes only when every expected slot succeeded, and the freeze of a closed ledger. */
module Attempts {
  import opened Ascending
  import opened Journal
  import opened Sequences
  import JournalStore

  // ---- choosing an attempt number

  function OfSlot(records: seq<Record>, slot: Slot): (r: seq<Record>) {
    if records == [] then []
    else (if records[0].attempt.slot == slot then [records[0]] else []) + OfSlot(records[1..], slot)
  }

  /** The status the table of `_next_attempt` holds for an attempt number: the last one listed. */
  function LastStatus(records: seq<Record>, number: AttemptNumber): (r: Option<Status>) {
    if records == [] then None
    else
      var last := records[|records| - 1];
      if last.attempt.number == number then Some(last.status)
      else LastStatus(records[..|records| - 1], number)
  }

  function NextAttempt(files: Directory, schedule: seq<Slot>, slot: Slot): (r: Result<AttemptNumber>) {
    var journal := OrderedRecords(files, schedule);
    if journal.Err? then Err(journal.reason)
    else
      var records := OfSlot(journal.value, slot);
      if records == [] then Ok(0)
      else if LastStatus(records, 0) != Some(Failed) then Err("attempt slot already has a non-failed attempt")
      else if LastStatus(records, 1) != None then Err("attempt slot already used its retry")
      else Ok(1)
  }

  // ---- runs

  /** The directory, and the attempts that some runner has selected and may write records for. */
  datatype World = World(files: Directory, held: set<Attempt>)

  /** Selecting and each append are separate steps, so several runners may interleave; a run that
      stops anywhere is a shorter list of events. */
  datatype Event =
    | Select(slot: Slot)
    | Write(attempt: Attempt, status: Status, payload: Payload)

  function After(schedule: seq<Slot>, w: World, e: Event): (r: World) {
    match e
    case Select(slot) =>
      var next := NextAttempt(w.files, schedule, slot);
      if slot in schedule && next.Ok? then w.(held := w.held + {Attempt(slot, next.value)}) else w
    case Write(attempt, status, payload) =>
      if attempt in w.held then w.(files := Append(w.files, attempt, status, payload).0) else w
  }

  function Run(schedule: seq<Slot>, w: World, events: seq<Event>): (r: World)
    decreases |events|
  {
    if events == [] then w else Run(schedule, After(schedule, w, events[0]), events[1..])
  }

  const START := World(map[], {})

  /** What every step keeps. */
  ghost predicate Lawful(schedule: seq<Slot>, w: World) {
    && (forall a :: a in w.held ==> a.slot in schedule)
    && (forall name :: name in w.files ==> name.attempt in w.held && Readable(name, w.files[name]))
    && (forall a :: Coherent(w.files, a))
    && (forall a :: a in w.held && a.number == 1 ==> Name(Attempt(a.slot, 0), Failed) in w.files)
  }

  /** One more event keeps the invariant, loses no record and changes none. */
  lemma {:induction false} StepIsLawful(schedule: seq<Slot>, w: World, e: Event)
    requires Lawful(schedule, w)
    ensures Lawful(schedule, After(schedule, w, e))
    ensures forall name :: name in w.files ==>
      name in After(schedule, w, e).files && After(schedule, w, e).files[name] == w.files[name]
  {
    match e
    case Select(slot) =>
      if slot in schedule && NextAttempt(w.files, schedule, slot) == Ok(1) {
        NextAttemptReads(schedule, w, slot);
      }
    case Write(attempt, status, payload) =>
      var r := Append(w.files, attempt, status, payload);
      if attempt in w.held && r.1.Ok? {
        var name := Name(attempt, status);
        assert r.0 == w.files[name := Record(attempt, status, payload)];
        forall a ensures Coherent(r.0, a) {
          if a != attempt {
            assert Coherent(w.files, a);
          }
        }
      }
  }

  lemma {:induction false} RunIsLawful(schedule: seq<Slot>, w: World, events: seq<Event>)
    requires Lawful(schedule, w)
    ensures Lawful(schedule, Run(schedule, w, events))
    ensures forall name :: name in w.files ==>
      name in Run(schedule, w, events).files && Run(schedule, w, events).files[name] == w.files[name]
    decreases |events|
  {
    if events != [] {
      StepIsLawful(schedule, w, events[0]);
      RunIsLawful(schedule, After(schedule, w, events[0]), events[1..]);
    }
  }

  // ---- one slot's history

  function Lifecycle(records: seq<Record>): (r: seq<(AttemptNumber, Status)>) {
    seq(|records|, i requires 0 <= i < |records| => (records[i].attempt.number, records[i].status))
  }

  const DIRECT: seq<(AttemptNumber, Status)> := [(0, Started), (0, Succeeded)]
  const RETRY: seq<(AttemptNumber, Status)> := [(0, Started), (0, Failed), (1, Started), (1, Succeeded)]
  const EXHAUSTED: seq<(AttemptNumber, Status)> := [(0, Started), (0, Failed), (1, Started), (1, Failed)]

  predicate Canonical(history: seq<Record>) {
    Lifecycle(history) <= DIRECT || Lifecycle(history) <= RETRY || Lifecycle(history) <= EXHAUSTED
  }

  predicate Has(files: Directory, slot: Slot, number: AttemptNumber, status: Status) {
    Name(Attempt(slot, number), status) in files
  }

  /** The history spelled out by which of the six files exist. */
  lemma {:induction false} HistoryByFiles(schedule: seq<Slot>, w: World, slot: Slot)
    requires Lawful(schedule, w)
    ensures Lifecycle(SlotHistory(w.files, slot)) ==
      if !Has(w.files, slot, 0, Started) then []
      else if Has(w.files, slot, 0, Succeeded) then DIRECT
      else if !Has(w.files, slot, 0, Failed) then DIRECT[..1]
      else if !Has(w.files, slot, 1, Started) then RETRY[..2]
      else if Has(w.files, slot, 1, Succeeded) then RETRY
      else if Has(w.files, slot, 1, Failed) then EXHAUSTED
      else RETRY[..3]
  {
    var f, a, b := w.files, Attempt(slot, 0), Attempt(slot, 1);
    assert Coherent(f, a) && Coherent(f, b);
    assert forall s :: Name(b, s) in f ==> b in w.held;
    forall c, s | Name(c, s) in f ensures f[Name(c, s)].attempt == c && f[Name(c, s)].status == s {
      assert Readable(Name(c, s), f[Name(c, s)]);
    }
  }

  /** In every run, stopped anywhere, every slot's history is canonical. */
  lemma {:induction false} EveryHistoryIsCanonical(schedule: seq<Slot>, events: seq<Event>, slot: Slot)
    ensures Canonical(SlotHistory(Run(schedule, START, events).files, slot))
  {
    RunIsLawful(schedule, START, events);
    HistoryByFiles(schedule, Run(schedule, START, events), slot);
  }

  // ---- the ordered read, slot by slot

  lemma {:induction false} OfSlotConcat(a: seq<Record>, b: seq<Record>, slot: Slot)
    ensures OfSlot(a + b, slot) == OfSlot(a, slot) + OfSlot(b, slot)
  {
    if a == [] {
      assert a + b == b;
    } else {
      assert (a + b)[1..] == a[1..] + b;
      OfSlotConcat(a[1..], b, slot);
    }
  }

  lemma {:induction false} OfSlotUniform(records: seq<Record>, slot: Slot, of: Slot)
    requires forall r :: r in records ==> r.attempt.slot == of
    ensures OfSlot(records, slot) == if of == slot then records else []
  {
    if records != [] {
      assert records[0] in records;
      OfSlotUniform(records[1..], slot, of);
      assert records == [records[0]] + records[1..];
    }
  }

  lemma {:induction false} SlotsOfTail(schedule: seq<Slot>)
    ensures forall s :: s in Slots(schedule) <==> s in schedule
    ensures NoRepeat(Slots(schedule))
  {
    if schedule != [] {
      SlotsOfTail(schedule[1..]);
      var rest := Slots(schedule[1..]);
      assert forall i :: 0 <= i < |rest| ==> rest[i] in rest;
    }
  }

  lemma {:induction false} OfSlotJoins(first: seq<Record>, rest: seq<Record>, slot: Slot, of: Slot)
    requires forall r :: r in first ==> r.attempt.slot == of
    ensures slot == of && OfSlot(rest, slot) == [] ==> OfSlot(first + rest, slot) == first
    ensures slot != of ==> OfSlot(first + rest, slot) == OfSlot(rest, slot)
  {
    OfSlotUniform(first, slot, of);
    OfSlotConcat(first, rest, slot);
  }

  lemma {:induction false} OfSlotInOrder(files: Directory, slots: seq<Slot>, slot: Slot)
    requires Intact(files)
    requires NoRepeat(slots)
    ensures OfSlot(InOrder(files, slots), slot) == if slot in slots then SlotHistory(files, slot) else []
  {
    if slots != [] {
      JournalStore.SlotHistoryAscends(files, slots[0]);
      OfSlotInOrder(files, slots[1..], slot);
      OfSlotJoins(SlotHistory(files, slots[0]), InOrder(files, slots[1..]), slot, slots[0]);
    }
  }

  /** The journal of a lawful world always reads, and a slot's part of it is its history. */
  lemma {:induction false} JournalReads(schedule: seq<Slot>, w: World, slot: Slot)
    requires Lawful(schedule, w)
    ensures OrderedRecords(w.files, schedule) == Ok(InOrder(w.files, Slots(schedule)))
    ensures slot in schedule ==> OfSlot(InOrder(w.files, Slots(schedule)), slot) == SlotHistory(w.files, slot)
  {
    assert Intact(w.files);
    SlotsOfTail(schedule);
    OfSlotInOrder(w.files, Slots(schedule), slot);
  }

  /** The table holds the status at the last position `i` with that attempt number, if there is one. */
  lemma {:induction false} LastStatusAt(records: seq<Record>, number: AttemptNumber, i: int)
    requires -1 <= i < |records|
    requires i >= 0 ==> records[i].attempt.number == number
    requires forall k :: i < k < |records| ==> records[k].attempt.number != number
    ensures LastStatus(records, number) == if i < 0 then None else Some(records[i].status)
  {
    if records != [] && i < |records| - 1 {
      LastStatusAt(records[..|records| - 1], number, i);
    }
  }

  lemma {:induction false} LastStatusByFiles(schedule: seq<Slot>, w: World, slot: Slot)
    requires Lawful(schedule, w)
    ensures var h := SlotHistory(w.files, slot);
      && (LastStatus(h, 0) == Some(Failed) <==> Has(w.files, slot, 0, Failed))
      && (LastStatus(h, 1) == None <==> !Has(w.files, slot, 1, Started))
  {
    HistoryByFiles(schedule, w, slot);
    LastStatusOfLifecycle(SlotHistory(w.files, slot));
    assert Coherent(w.files, Attempt(slot, 0)) && Coherent(w.files, Attempt(slot, 1));
    assert forall s :: Name(Attempt(slot, 1), s) in w.files ==> Attempt(slot, 1) in w.held;
  }

  lemma {:induction false} LastStatusOfLifecycle(h: seq<Record>)
    requires Canonical(h)
    ensures LastStatus(h, 0) == Some(Failed) <==> |h| >= 2 && Lifecycle(h)[1] == (0, Failed)
    ensures LastStatus(h, 1) == None <==> |h| < 3
  {
    var l := Lifecycle(h);
    assert forall i :: 0 <= i < |h| ==> l[i] == (h[i].attempt.number, h[i].status);
    LastStatusAt(h, 0, if |h| < 2 then |h| - 1 else 1);
    LastStatusAt(h, 1, if |h| < 3 then -1 else |h| - 1);
  }

  /** `_next_attempt` grants attempt 0 exactly on an empty history, attempt 1 exactly after
      "started, failed", and raises in every other reachable state. */
  lemma {:induction false} NextAttemptReads(schedule: seq<Slot>, w: World, slot: Slot)
    requires Lawful(schedule, w) && slot in schedule
    ensures NextAttempt(w.files, schedule, slot) == Ok(0) <==> SlotHistory(w.files, slot) == []
    ensures NextAttempt(w.files, schedule, slot) == Ok(1) <==> Lifecycle(SlotHistory(w.files, slot)) == RETRY[..2]
    ensures NextAttempt(w.files, schedule, slot) == Ok(1) ==> Has(w.files, slot, 0, Failed)
  {
    JournalReads(schedule, w, slot);
    HistoryByFiles(schedule, w, slot);
    LastStatusByFiles(schedule, w, slot);
    assert Coherent(w.files, Attempt(slot, 0));
  }
}
