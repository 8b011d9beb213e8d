/** Exactly which journals yield a snapshot that its own validator accepts. */
module ClosureLaws {
  import opened Ascending
  import opened Journal
  import opened Attempts
  import opened Closure
  import JournalStore

  /** A slot id spells out its stage, so scheduled slots with one id are one slot. */
  ghost predicate DistinctIds(schedule: seq<Slot>) {
    forall s, t :: s in schedule && t in schedule && s.id == t.id ==> s == t
  }

  // ---- one slot

  lemma {:induction false} ByIdIsOfSlot(records: seq<Record>, schedule: seq<Slot>, slot: Slot)
    requires DistinctIds(schedule) && slot in schedule
    requires forall r :: r in records ==> r.attempt.slot in schedule
    ensures ById(records, slot.id) == OfSlot(records, slot)
  {
    if records != [] {
      assert records[0] in records;
      ByIdIsOfSlot(records[1..], schedule, slot);
    }
  }

  lemma {:induction false} NumberedSplits(a: seq<Record>, b: seq<Record>, number: AttemptNumber)
    requires forall r :: r in a ==> r.attempt.number == 0
    requires forall r :: r in b ==> r.attempt.number == 1
    ensures Numbered(a + b, number) == if number == 0 then a else b
  {
    if a != [] {
      assert a[0] in a && a == [a[0]] + a[1..];
      assert (a + b)[1..] == a[1..] + b;
      NumberedSplits(a[1..], b, number);
    } else {
      assert a + b == b;
      if b != [] {
        assert b[0] in b && b == [b[0]] + b[1..];
        assert [] + b[1..] == b[1..];
        NumberedSplits([], b[1..], number);
      }
    }
  }

  lemma {:induction false} LinesSplit(a: seq<Line>, b: seq<Line>, number: AttemptNumber)
    requires forall l :: l in a ==> l.number == 0
    requires forall l :: l in b ==> l.number == 1
    ensures Lines(a + b, number) == if number == 0 then a else b
  {
    if a != [] {
      assert a[0] in a && a == [a[0]] + a[1..];
      assert (a + b)[1..] == a[1..] + b;
      LinesSplit(a[1..], b, number);
    } else {
      assert a + b == b;
      if b != [] {
        assert b[0] in b && b == [b[0]] + b[1..];
        assert [] + b[1..] == b[1..];
        LinesSplit([], b[1..], number);
      }
    }
  }

  predicate OpenRetry(files: Directory, slot: Slot) {
    Has(files, slot, 1, Started) && !Has(files, slot, 1, Succeeded) && !Has(files, slot, 1, Failed)
  }

  predicate ErrorsFit(history: seq<Record>) {
    forall r :: r in history ==> ErrorFits(r.status, r.payload.error)
  }

  /** A canonical history, element by element. */
  predicate Shaped(h: seq<Record>) {
    && |h| <= 4
    && (forall i :: 0 <= i < |h| ==> h[i].attempt.number == if i < 2 then 0 else 1)
    && (|h| > 0 ==> h[0].status == Started)
    && (|h| > 1 ==> Terminal(h[1].status))
    && (|h| > 2 ==> h[1].status == Failed && h[2].status == Started)
    && (|h| > 3 ==> Terminal(h[3].status))
  }

  lemma {:induction false} CanonicalIsShaped(h: seq<Record>)
    requires Canonical(h)
    ensures Shaped(h)
  {
    var l := Lifecycle(h);
    assert forall i :: 0 <= i < |h| ==> l[i] == (h[i].attempt.number, h[i].status);
    var full := if l <= DIRECT then DIRECT else if l <= RETRY then RETRY else EXHAUSTED;
    assert forall i :: 0 <= i < |l| ==> l[i] == full[i];
  }

  function First(h: seq<Record>): (r: seq<Record>) {
    if |h| < 2 then h else h[..2]
  }

  function Second(h: seq<Record>): (r: seq<Record>) {
    if |h| < 2 then [] else h[2..]
  }

  lemma {:induction false} HistoryHalves(h: seq<Record>)
    requires Shaped(h)
    ensures h == First(h) + Second(h)
    ensures forall i :: 0 <= i < |First(h)| ==> First(h)[i].attempt.number == 0
    ensures forall i :: 0 <= i < |Second(h)| ==> Second(h)[i].attempt.number == 1
  {
  }

  lemma {:induction false} LinesJoin(a: seq<Record>, b: seq<Record>)
    ensures LinesOf(a + b) == LinesOf(a) + LinesOf(b)
  {
  }

  /** A shaped history splits into its two attempts. */
  lemma {:induction false} HistorySplits(h: seq<Record>)
    requires Shaped(h)
    ensures Numbered(h, 0) == First(h) && Numbered(h, 1) == Second(h) && h == First(h) + Second(h)
    ensures LinesOf(h) == LinesOf(First(h)) + LinesOf(Second(h))
    ensures Lines(LinesOf(h), 0) == LinesOf(First(h)) && Lines(LinesOf(h), 1) == LinesOf(Second(h))
  {
    var a, b := First(h), Second(h);
    HistoryHalves(h);
    LinesJoin(a, b);
    NumberedSplits(a, b, 0);
    NumberedSplits(a, b, 1);
    LinesSplit(LinesOf(a), LinesOf(b), 0);
    LinesSplit(LinesOf(a), LinesOf(b), 1);
  }

  lemma {:induction false} GroupsAreCanonical(h: seq<Record>)
    requires Shaped(h) && h != []
    ensures CanonicalStatuses(Statuses(First(h))) && First(h) != []
    ensures Second(h) != [] ==> CanonicalStatuses(Statuses(Second(h))) && Statuses(First(h)) == [Started, Failed]
    ensures LineStatuses(LinesOf(First(h))) == Statuses(First(h))
    ensures LineStatuses(LinesOf(Second(h))) == Statuses(Second(h))
  {
  }

  lemma {:induction false} LinesCarryErrors(h: seq<Record>)
    ensures (forall l :: l in LinesOf(h) ==> ErrorFits(l.status, l.error)) <==> ErrorsFit(h)
  {
    var lines := LinesOf(h);
    if forall l :: l in lines ==> ErrorFits(l.status, l.error) {
      forall r | r in h ensures ErrorFits(r.status, r.payload.error) {
        var i :| 0 <= i < |h| && h[i] == r;
        assert lines[i] in lines;
      }
    }
    if ErrorsFit(h) {
      forall l | l in lines ensures ErrorFits(l.status, l.error) {
        var i :| 0 <= i < |lines| && lines[i] == l;
        assert h[i] in h;
      }
    }
  }

  lemma {:induction false} LinesAreLive(h: seq<Record>)
    requires Shaped(h)
    ensures forall l :: l in LinesOf(h) ==> l.status != Invalidated
  {
    forall l | l in LinesOf(h) ensures l.status != Invalidated {
      var i :| 0 <= i < |h| && LinesOf(h)[i] == l;
    }
  }

  /** Of the checks on a shaped history's disposition only the one on error entries can fail. */
  lemma {:induction false} OnlyErrorsCount(h: seq<Record>, mode: Mode)
    requires Shaped(h) && h != []
    ensures var d := DispositionOf(h, mode);
      WellFormed(d) <==> forall l :: l in d.attempts ==> ErrorFits(l.status, l.error)
  {
    LinesAreLive(h);
    HistorySplits(h);
    GroupsAreCanonical(h);
    var d := DispositionOf(h, mode);
    assert |d.attempts| == |h| && |LinesOf(First(h))| == |First(h)| && |LinesOf(Second(h))| == |Second(h)|;
    assert d.finalStatus != Invalidated by {
      assert d.attempts[|h| - 1] in d.attempts;
    }
  }

  lemma {:induction false} LastTerminalOf(h: seq<Record>)
    requires Shaped(h) && h != []
    ensures h[|h| - 1].status == LastTerminal(LinesOf(h)) <==> |h| != 3
  {
    var lines := LinesOf(h);
    assert |lines| == |h|;
  }

  lemma {:induction false} WellFormedHistory(h: seq<Record>, mode: Mode)
    requires Shaped(h) && h != []
    ensures WellFormed(DispositionOf(h, mode)) <==> ErrorsFit(h)
    ensures DispositionOf(h, mode).finalStatus == LastTerminal(LinesOf(h)) <==> |h| != 3
  {
    LinesCarryErrors(h);
    OnlyErrorsCount(h, mode);
    LastTerminalOf(h);
  }

  /** One slot's disposition passes the validator exactly when its error entries fit and it is not an
      open retry: there the builder reports STARTED and the validator the earlier FAILED. */
  lemma {:induction false} OneSlot(schedule: seq<Slot>, w: World, slot: Slot, mode: Mode)
    requires Lawful(schedule, w)
    requires SlotHistory(w.files, slot) != []
    ensures var h := SlotHistory(w.files, slot); var d := DispositionOf(h, mode);
      && ByAttempt(h) == h
      && CanonicalGroups(Numbered(h, 0), Numbered(h, 1))
      && d.slotId == slot.id && d.stage == slot.stage
      && (WellFormed(d) <==> ErrorsFit(h))
      && (d.finalStatus == LastTerminal(d.attempts) <==> !OpenRetry(w.files, slot))
  {
    var h := SlotHistory(w.files, slot);
    HistoryByFiles(schedule, w, slot);
    CanonicalIsShaped(h);
    HistorySplits(h);
    GroupsAreCanonical(h);
    WellFormedHistory(h, mode);
    assert Coherent(w.files, Attempt(slot, 0)) && Coherent(w.files, Attempt(slot, 1));
    assert forall s :: Name(Attempt(slot, 1), s) in w.files ==> Attempt(slot, 1) in w.held;
    assert OpenRetry(w.files, slot) <==> |Lifecycle(h)| == 3;
    JournalStore.SlotHistoryAscends(w.files, slot);
    assert h[|h| - 1] in h;
  }

  // ---- the whole journal

  function Journaled(files: Directory, schedule: seq<Slot>): (r: seq<Record>) {
    InOrder(files, Slots(schedule))
  }

  predicate Touched(files: Directory, schedule: seq<Slot>, slot: Slot) {
    slot in schedule && SlotHistory(files, slot) != []
  }

  lemma {:induction false} GroupIsHistory(schedule: seq<Slot>, w: World, slot: Slot)
    requires Lawful(schedule, w) && DistinctIds(schedule) && slot in schedule
    ensures ById(Journaled(w.files, schedule), slot.id) == SlotHistory(w.files, slot)
    ensures slot.id in Ids(Journaled(w.files, schedule)) <==> SlotHistory(w.files, slot) != []
  {
    assert Intact(w.files);
    JournalStore.InOrderMembers(w.files, schedule);
    ByIdIsOfSlot(Journaled(w.files, schedule), schedule, slot);
    JournalReads(schedule, w, slot);
    ByIdNonempty(Journaled(w.files, schedule), slot.id);
    if SlotHistory(w.files, slot) != [] {
      OneSlot(schedule, w, slot, Primary);
    }
  }

  lemma {:induction false} EveryIdIsATouchedSlot(schedule: seq<Slot>, w: World, id: int)
    requires Lawful(schedule, w) && DistinctIds(schedule)
    requires id in Ids(Journaled(w.files, schedule))
    ensures exists slot :: Touched(w.files, schedule, slot) && slot.id == id
  {
    var records := Journaled(w.files, schedule);
    assert Intact(w.files);
    JournalStore.InOrderMembers(w.files, schedule);
    var i :| 0 <= i < |records| && records[i].attempt.slot.id == id;
    GroupIsHistory(schedule, w, records[i].attempt.slot);
    assert Touched(w.files, schedule, records[i].attempt.slot);
  }

  ghost predicate FromSlot(files: Directory, schedule: seq<Slot>, mode: Mode, d: Disposition) {
    exists slot :: Touched(files, schedule, slot) && d == DispositionOf(SlotHistory(files, slot), mode)
  }

  lemma {:induction false} OneId(schedule: seq<Slot>, w: World, mode: Mode, id: int)
    requires Lawful(schedule, w) && DistinctIds(schedule)
    requires id in Ids(Journaled(w.files, schedule))
    ensures var group := ById(Journaled(w.files, schedule), id);
      && CanonicalGroups(Numbered(group, 0), Numbered(group, 1))
      && ByAttempt(group) != []
      && DispositionOf(ByAttempt(group), mode).slotId == id
      && FromSlot(w.files, schedule, mode, DispositionOf(ByAttempt(group), mode))
  {
    EveryIdIsATouchedSlot(schedule, w, id);
    var slot :| Touched(w.files, schedule, slot) && slot.id == id;
    GroupIsHistory(schedule, w, slot);
    OneSlot(schedule, w, slot, mode);
  }

  /** What the builder returns, entry by entry. */
  lemma {:induction false} BuilderEntries(records: seq<Record>, mode: Mode)
    requires !Raises(records)
    ensures var ids := Sorted(Ids(records)); var value := LedgerDispositions(records, mode).value;
      |value| == |ids| && forall i :: 0 <= i < |ids| ==>
        ByAttempt(ById(records, ids[i])) != [] && value[i] == DispositionOf(ByAttempt(ById(records, ids[i])), mode)
  {
    var ids := Sorted(Ids(records));
    forall i | 0 <= i < |ids| ensures ByAttempt(ById(records, ids[i])) != [] {
      assert ids[i] in ids;
      ByIdNonempty(records, ids[i]);
    }
  }

  lemma {:induction false} BuilderEntry(records: seq<Record>, mode: Mode, id: int)
    requires !Raises(records) && id in Ids(records)
    ensures ByAttempt(ById(records, id)) != []
    ensures DispositionOf(ByAttempt(ById(records, id)), mode) in LedgerDispositions(records, mode).value
  {
    BuilderEntries(records, mode);
    var ids := Sorted(Ids(records));
    assert id in ids;
    var i :| 0 <= i < |ids| && ids[i] == id;
    assert LedgerDispositions(records, mode).value[i] == DispositionOf(ByAttempt(ById(records, id)), mode);
  }

  /** The disposition builder never raises on a reachable journal; it lists, by slot id, exactly the
      dispositions of the slots that have records. */
  lemma {:induction false} BuilderNeverRaises(schedule: seq<Slot>, w: World, mode: Mode)
    requires Lawful(schedule, w) && DistinctIds(schedule)
    ensures var r := LedgerDispositions(Journaled(w.files, schedule), mode);
      && r.Ok? && SlotIdsAscend(r.value)
      && (forall d :: d in r.value ==> FromSlot(w.files, schedule, mode, d))
      && (forall slot :: Touched(w.files, schedule, slot) ==>
            DispositionOf(SlotHistory(w.files, slot), mode) in r.value)
  {
    var records := Journaled(w.files, schedule);
    var ids := Sorted(Ids(records));
    assert !Raises(records) by {
      forall id | id in Ids(records)
        ensures CanonicalGroups(Numbered(ById(records, id), 0), Numbered(ById(records, id), 1))
      {
        OneId(schedule, w, mode, id);
      }
    }
    BuilderEntries(records, mode);
    var value := LedgerDispositions(records, mode).value;
    forall i | 0 <= i < |ids| ensures value[i].slotId == ids[i] && FromSlot(w.files, schedule, mode, value[i]) {
      assert ids[i] in ids;
      OneId(schedule, w, mode, ids[i]);
    }
    forall slot | Touched(w.files, schedule, slot)
      ensures DispositionOf(SlotHistory(w.files, slot), mode) in value
    {
      GroupIsHistory(schedule, w, slot);
      OneSlot(schedule, w, slot, mode);
      BuilderEntry(records, mode, slot.id);
    }
  }

  /** What the builder's result says of each entry, and that it is empty only for an empty journal. */
  lemma {:induction false} BuiltEntries(schedule: seq<Slot>, w: World, mode: Mode, d: seq<Disposition>)
    requires Lawful(schedule, w) && DistinctIds(schedule)
    requires LedgerDispositions(Journaled(w.files, schedule), mode) == Ok(d)
    ensures d == [] <==> Journaled(w.files, schedule) == []
    ensures forall x :: x in d ==> x.mode == mode && x.finalStatus != Invalidated && x.outcome == LabelOf(x.finalStatus)
  {
    BuilderNeverRaises(schedule, w, mode);
    BuilderEmpty(Journaled(w.files, schedule), mode, d);
    forall x | x in d ensures x.mode == mode && x.finalStatus != Invalidated && x.outcome == LabelOf(x.finalStatus) {
      var slot :| Touched(w.files, schedule, slot) && x == DispositionOf(SlotHistory(w.files, slot), mode);
      FinalIsLive(schedule, w, mode, slot);
    }
  }

  lemma {:induction false} FinalIsLive(schedule: seq<Slot>, w: World, mode: Mode, slot: Slot)
    requires Lawful(schedule, w) && SlotHistory(w.files, slot) != []
    ensures DispositionOf(SlotHistory(w.files, slot), mode).finalStatus != Invalidated
  {
    HistoryByFiles(schedule, w, slot);
    CanonicalIsShaped(SlotHistory(w.files, slot));
  }

  lemma {:induction false} BuilderEmpty(records: seq<Record>, mode: Mode, d: seq<Disposition>)
    requires LedgerDispositions(records, mode) == Ok(d)
    ensures d == [] <==> records == []
  {
    assert |d| == |Ids(records)|;
    assert records != [] ==> records[0].attempt.slot.id in Ids(records);
    assert records == [] ==> Ids(records) == {};
  }

  /** The two lifecycle summaries agree on every reachable journal. */
  lemma {:induction false} LifecyclesAgree(schedule: seq<Slot>, w: World, mode: Mode, d: seq<Disposition>)
    requires Lawful(schedule, w) && DistinctIds(schedule)
    requires LedgerDispositions(Journaled(w.files, schedule), mode) == Ok(d)
    ensures LifecycleStatus(schedule, Journaled(w.files, schedule), mode, d,
                            exists x :: x in d && x.outcome == OpenLabel)
      == LifecycleFromDispositions(schedule, d)
  {
    BuiltEntries(schedule, w, mode, d);
    JournalStore.InOrderMembers(w.files, schedule);
  }

  lemma {:induction false} KeepsAll(records: seq<Record>, keys: set<Key>)
    requires forall r :: r in records ==> KeyOf(r) in keys
    ensures Keep(records, keys) == records
  {
    if records != [] {
      assert records[0] in records;
      KeepsAll(records[1..], keys);
      assert records == [records[0]] + records[1..];
    }
  }

  lemma {:induction false} LineIsObserved(h: seq<Record>, mode: Mode, d: seq<Disposition>, r: Record)
    requires r in h && DispositionOf(h, mode) in d && DispositionOf(h, mode).slotId == r.attempt.slot.id
    ensures KeyOf(r) in Observed(d)
  {
    var i :| 0 <= i < |h| && h[i] == r;
    assert LinesOf(h)[i] in DispositionOf(h, mode).attempts;
  }

  /** The dispositions of a snapshot remember every record it was made from. */
  lemma {:induction false} EveryRecordIsObserved(schedule: seq<Slot>, w: World, mode: Mode, d: seq<Disposition>)
    requires Lawful(schedule, w) && DistinctIds(schedule)
    requires LedgerDispositions(Journaled(w.files, schedule), mode) == Ok(d)
    ensures forall r :: r in Journaled(w.files, schedule) ==> KeyOf(r) in Observed(d)
  {
    var records := Journaled(w.files, schedule);
    BuilderNeverRaises(schedule, w, mode);
    JournalStore.InOrderMembers(w.files, schedule);
    forall r | r in records ensures KeyOf(r) in Observed(d) {
      var slot := r.attempt.slot;
      JournalStore.SlotHistoryAscends(w.files, slot);
      assert r in SlotHistory(w.files, slot);
      OneSlot(schedule, w, slot, mode);
      assert Touched(w.files, schedule, slot);
      LineIsObserved(SlotHistory(w.files, slot), mode, d, r);
    }
  }

  ghost predicate ErrorsRecorded(files: Directory) {
    forall name :: name in files ==> ErrorFits(name.status, files[name].payload.error)
  }

  ghost predicate NoOpenRetry(files: Directory, schedule: seq<Slot>) {
    forall slot :: slot in schedule ==> !OpenRetry(files, slot)
  }

  lemma {:induction false} ErrorsSlotBySlot(schedule: seq<Slot>, w: World)
    requires Lawful(schedule, w)
    ensures ErrorsRecorded(w.files) <==>
      forall slot :: Touched(w.files, schedule, slot) ==> ErrorsFit(SlotHistory(w.files, slot))
  {
    assert Intact(w.files);
    if ErrorsRecorded(w.files) {
      forall slot | Touched(w.files, schedule, slot) ensures ErrorsFit(SlotHistory(w.files, slot)) {
        JournalStore.SlotHistoryAscends(w.files, slot);
        forall r | r in SlotHistory(w.files, slot) ensures ErrorFits(r.status, r.payload.error) {
          assert ErrorFits(NameOf(r).status, w.files[NameOf(r)].payload.error);
        }
      }
    }
    if forall slot :: Touched(w.files, schedule, slot) ==> ErrorsFit(SlotHistory(w.files, slot)) {
      forall name | name in w.files ensures ErrorFits(name.status, w.files[name].payload.error) {
        assert name == NameOf(w.files[name]);
        JournalStore.SlotHistoryAscends(w.files, name.attempt.slot);
        assert w.files[name] in SlotHistory(w.files, name.attempt.slot);
        assert Touched(w.files, schedule, name.attempt.slot);
      }
    }
  }

  /** A snapshot of a reachable journal can always be taken, and its own validator accepts it exactly
      when the error entries fit their records and no slot has an open retry. */
  lemma {:induction false} SnapshotValidatesExactly(schedule: seq<Slot>, w: World, mode: Mode)
    requires Lawful(schedule, w) && DistinctIds(schedule)
    ensures var s := SnapshotOf(w.files, schedule, mode, None);
      s.Ok? && (Validates(s.value, w.files, schedule, mode) <==>
                ErrorsRecorded(w.files) && NoOpenRetry(w.files, schedule))
  {
    JournalReads(schedule, w, Slot(0, Dev2));
    BuilderNeverRaises(schedule, w, mode);
    var s := SnapshotOf(w.files, schedule, mode, None).value;
    SnapshotStaysCurrent(schedule, w, mode, s);
    LifecyclesAgree(schedule, w, mode, s.dispositions);
    ErrorsSlotBySlot(schedule, w);
    SelfValidExactly(schedule, w, mode, s);
  }

  /** A fresh snapshot is the one recomputed from the records it observed. */
  lemma {:induction false} SnapshotStaysCurrent(schedule: seq<Slot>, w: World, mode: Mode, s: Snapshot)
    requires Lawful(schedule, w) && DistinctIds(schedule)
    requires SnapshotOf(w.files, schedule, mode, None) == Ok(s)
    ensures Keep(Journaled(w.files, schedule), Observed(s.dispositions)) == Journaled(w.files, schedule)
    ensures SnapshotOf(w.files, schedule, mode, Some(Observed(s.dispositions))) == Ok(s)
  {
    JournalReads(schedule, w, Slot(0, Dev2));
    EveryRecordIsObserved(schedule, w, mode, s.dispositions);
    KeepsAll(Journaled(w.files, schedule), Observed(s.dispositions));
  }

  /** What validation asks of each disposition on its own. */
  ghost predicate EntriesFit(d: seq<Disposition>) {
    forall x :: x in d ==> WellFormed(x) && x.finalStatus == LastTerminal(x.attempts)
  }

  lemma {:induction false} EntriesFitExactly(schedule: seq<Slot>, w: World, mode: Mode, d: seq<Disposition>)
    requires Lawful(schedule, w) && DistinctIds(schedule)
    requires LedgerDispositions(Journaled(w.files, schedule), mode) == Ok(d)
    ensures EntriesFit(d) <==>
      (forall slot :: Touched(w.files, schedule, slot) ==> ErrorsFit(SlotHistory(w.files, slot))) &&
      NoOpenRetry(w.files, schedule)
  {
    BuilderNeverRaises(schedule, w, mode);
    if EntriesFit(d) {
      forall slot | Touched(w.files, schedule, slot)
        ensures ErrorsFit(SlotHistory(w.files, slot)) && !OpenRetry(w.files, slot)
      {
        OneSlot(schedule, w, slot, mode);
        assert DispositionOf(SlotHistory(w.files, slot), mode) in d;
      }
      assert forall slot :: slot in schedule && OpenRetry(w.files, slot) ==> Touched(w.files, schedule, slot);
    }
    if (forall slot :: Touched(w.files, schedule, slot) ==> ErrorsFit(SlotHistory(w.files, slot))) &&
       NoOpenRetry(w.files, schedule) {
      forall x | x in d
        ensures WellFormed(x) && x.finalStatus == LastTerminal(x.attempts)
      {
        var slot :| Touched(w.files, schedule, slot) && x == DispositionOf(SlotHistory(w.files, slot), mode);
        OneSlot(schedule, w, slot, mode);
      }
    }
  }

  lemma {:induction false} SelfValidExactly(schedule: seq<Slot>, w: World, mode: Mode, s: Snapshot)
    requires Lawful(schedule, w) && DistinctIds(schedule)
    requires LedgerDispositions(Journaled(w.files, schedule), mode) == Ok(s.dispositions)
    requires s.lifecycle == LifecycleFromDispositions(schedule, s.dispositions)
    requires s.rowsDigest == RowsOf(Journaled(w.files, schedule), mode)
    ensures SelfValid(s, schedule) <==>
      (forall slot :: Touched(w.files, schedule, slot) ==> ErrorsFit(SlotHistory(w.files, slot))) &&
      NoOpenRetry(w.files, schedule)
  {
    BuilderNeverRaises(schedule, w, mode);
    BuiltEntries(schedule, w, mode, s.dispositions);
    EntriesFitExactly(schedule, w, mode, s.dispositions);
    SelfValidIsEntriesFit(schedule, Journaled(w.files, schedule), mode, s);
  }

  /** A built snapshot can only fail validation by one of its dispositions. */
  lemma {:induction false} SelfValidIsEntriesFit(schedule: seq<Slot>, records: seq<Record>, mode: Mode, s: Snapshot)
    requires s.lifecycle == LifecycleFromDispositions(schedule, s.dispositions)
    requires s.rowsDigest == RowsOf(records, mode) && (s.dispositions == [] <==> records == [])
    requires SlotIdsAscend(s.dispositions)
    ensures SelfValid(s, schedule) <==> EntriesFit(s.dispositions)
  {
  }
}
