/** The create-only attempt journal: a directory of write-once record files.

    A record file is named by its attempt identity and status. Attempt identities are digests of the
    attempt itself, taken to be injective, so a file name is modelled as the pair it encodes. One
    release, G0 identity, output root and mode hold per directory; the mode is a parameter where a
    closure snapshot reads it. */
module Journal {
  import opened Ascending

  datatype Stage = Dev2 | Dev3 | TerminalFormerHoldout

  datatype Slot = Slot(id: int, stage: Stage)

  type AttemptNumber = n: nat | n < 2

  datatype Attempt = Attempt(slot: Slot, number: AttemptNumber)

  datatype Status = Started | Succeeded | Failed | Invalidated

  /** What the program reads back from a record's payload, and the size of the encoded record. */
  datatype Payload = Payload(config: int, foundation: int, error: Option<string>, encodedSize: nat)

  datatype Record = Record(attempt: Attempt, status: Status, payload: Payload)

  datatype Name = Name(attempt: Attempt, status: Status)

  type Directory = map<Name, Record>

  function NameOf(record: Record): (r: Name) {
    Name(record.attempt, record.status)
  }

  // ---- reading one attempt

  /** `_read_record` accepts the file. */
  predicate Readable(name: Name, record: Record) {
    record.status != Invalidated && name == NameOf(record)
  }

  predicate Terminal(status: Status) {
    status == Succeeded || status == Failed
  }

  function Opposite(status: Status): (r: Status) {
    if status == Succeeded then Failed else Succeeded
  }

  /** `records` returns for this attempt instead of raising. */
  predicate Coherent(files: Directory, attempt: Attempt) {
    && (forall status :: Name(attempt, status) in files ==>
          Readable(Name(attempt, status), files[Name(attempt, status)]))
    && !(Name(attempt, Succeeded) in files && Name(attempt, Failed) in files)
    && (Name(attempt, Succeeded) in files || Name(attempt, Failed) in files ==>
          Name(attempt, Started) in files)
  }

  function RecordsOf(files: Directory, attempt: Attempt): (r: Result<map<Status, Record>>) {
    if Coherent(files, attempt) then
      Ok(map status | status in {Started, Succeeded, Failed, Invalidated} && Name(attempt, status) in files
           :: files[Name(attempt, status)])
    else Err("attempt records are malformed or conflicting")
  }

  // ---- appending

  /** The checks `append` makes before it creates the file. */
  predicate Appendable(files: Directory, attempt: Attempt, status: Status) {
    && status != Invalidated
    && Coherent(files, attempt)
    && (Terminal(status) ==> Name(attempt, Started) in files && Name(attempt, Opposite(status)) !in files)
  }

  /** The new directory and the outcome of one uninterrupted `append`. */
  function Append(files: Directory, attempt: Attempt, status: Status, payload: Payload): (r: (Directory,
                  Result<Record>))
    ensures r.1.Ok? <==>
      && Appendable(files, attempt, status)
      && (Name(attempt, status) in files ==> files[Name(attempt, status)] == Record(attempt, status, payload))
    ensures r.1.Ok? ==>
      r.0 == files[Name(attempt, status) := Record(attempt, status, payload)] && Coherent(r.0, attempt)
    ensures r.1.Err? ==> r.0 == files
  {
    var complete := Record(attempt, status, payload);
    var name := Name(attempt, status);
    if !Appendable(files, attempt, status) then (files, Err("append refused"))
    else if name in files && files[name] != complete then (files, Err("conflicting create-only artifact"))
    else
      var created := files[name := complete];
      if !Coherent(created, attempt) || created[name] != complete
      then (created, Err("journal record read-back differs"))
      else (created, Ok(complete))
  }

  // ---- the ordered read

  /** The slots of a schedule, each once, in the order of its last occurrence: the schedule lists the
      terminal slots twice, and the position table keeps the later index. */
  function Slots(schedule: seq<Slot>): (r: seq<Slot>) {
    if schedule == [] then []
    else if schedule[0] in schedule[1..] then Slots(schedule[1..])
    else [schedule[0]] + Slots(schedule[1..])
  }

  function Entry(files: Directory, attempt: Attempt, status: Status): (r: seq<Record>) {
    if Name(attempt, status) in files then [files[Name(attempt, status)]] else []
  }

  function AttemptHistory(files: Directory, attempt: Attempt): (r: seq<Record>) {
    Entry(files, attempt, Started) + Entry(files, attempt, Succeeded) + Entry(files, attempt, Failed)
  }

  function SlotHistory(files: Directory, slot: Slot): (r: seq<Record>) {
    AttemptHistory(files, Attempt(slot, 0)) + AttemptHistory(files, Attempt(slot, 1))
  }

  function InOrder(files: Directory, slots: seq<Slot>): (r: seq<Record>) {
    if slots == [] then [] else SlotHistory(files, slots[0]) + InOrder(files, slots[1..])
  }

  predicate Intact(files: Directory) {
    forall name :: name in files ==> Readable(name, files[name]) && Coherent(files, name.attempt)
  }

  /** `ordered_records`: independent of the order in which the directory lists its files. */
  function OrderedRecords(files: Directory, schedule: seq<Slot>): (r: Result<seq<Record>>) {
    if Intact(files) && (forall name :: name in files ==> name.attempt.slot in schedule)
    then Ok(InOrder(files, Slots(schedule)))
    else Err("journal directory is not readable")
  }

  /** What a closure report remembers of a record: slot id, attempt number, status. */
  datatype Key = Key(slotId: int, number: AttemptNumber, status: Status)

  function KeyOf(record: Record): (r: Key) {
    Key(record.attempt.slot.id, record.attempt.number, record.status)
  }

  /** The records whose keys were observed. */
  function Keep(records: seq<Record>, keys: set<Key>): (r: seq<Record>) {
    if records == [] then []
    else (if KeyOf(records[0]) in keys then [records[0]] else []) + Keep(records[1..], keys)
  }

  lemma {:induction false} KeepConcat(a: seq<Record>, b: seq<Record>, keys: set<Key>)
    ensures Keep(a + b, keys) == Keep(a, keys) + Keep(b, keys)
  {
    if a == [] {
      assert a + b == b;
    } else {
      var first := if KeyOf(a[0]) in keys then [a[0]] else [];
      assert (a + b)[0] == a[0] && (a + b)[1..] == a[1..] + b;
      KeepConcat(a[1..], b, keys);
      assert Keep(a + b, keys) == first + (Keep(a[1..], keys) + Keep(b, keys));
    }
  }

  function Restrict(files: Directory, keys: set<Key>): (r: Directory) {
    map name | name in files && KeyOf(files[name]) in keys :: files[name]
  }

  lemma {:induction false} KeepEntry(files: Directory, attempt: Attempt, status: Status, keys: set<Key>)
    requires Intact(files)
    ensures Keep(Entry(files, attempt, status), keys) == Entry(Restrict(files, keys), attempt, status)
  {
    var e := Entry(files, attempt, status);
    if e != [] { assert e[1..] == []; }
  }

  lemma {:induction false} KeepSlot(files: Directory, slot: Slot, keys: set<Key>)
    requires Intact(files)
    ensures Keep(SlotHistory(files, slot), keys) == SlotHistory(Restrict(files, keys), slot)
  {
    forall n: AttemptNumber
      ensures Keep(AttemptHistory(files, Attempt(slot, n)), keys)
           == AttemptHistory(Restrict(files, keys), Attempt(slot, n))
    {
      var a := Attempt(slot, n);
      var s, u, f := Entry(files, a, Started), Entry(files, a, Succeeded), Entry(files, a, Failed);
      KeepEntry(files, a, Started, keys);
      KeepEntry(files, a, Succeeded, keys);
      KeepEntry(files, a, Failed, keys);
      KeepConcat(s + u, f, keys);
      KeepConcat(s, u, keys);
    }
    KeepConcat(AttemptHistory(files, Attempt(slot, 0)), AttemptHistory(files, Attempt(slot, 1)), keys);
  }

  /** Filtering the ordered read is the ordered read of the filtered directory. */
  lemma {:induction false} FilteringCommutesWithOrderedRead(files: Directory, slots: seq<Slot>, keys: set<Key>)
    requires Intact(files)
    ensures Keep(InOrder(files, slots), keys) == InOrder(Restrict(files, keys), slots)
  {
    if slots != [] {
      KeepSlot(files, slots[0], keys);
      KeepConcat(SlotHistory(files, slots[0]), InOrder(files, slots[1..]), keys);
      FilteringCommutesWithOrderedRead(files, slots[1..], keys);
    }
  }
}
