/** The journal object: its directory changes only through `Append`, and its ordered read does not
    depend on the order in which the directory lists its files. */
module JournalStore {
  import opened Ascending
  import opened Journal

  /** The value the position table of `ordered_records` holds for a slot. */
  function LastIndex(schedule: seq<Slot>, slot: Slot): (i: nat)
    requires slot in schedule
    ensures i < |schedule| && schedule[i] == slot && slot !in schedule[i + 1..]
  {
    if slot in schedule[1..] then LastIndex(schedule[1..], slot) + 1 else 0
  }

  /** The sort key (position, attempt number, lifecycle), packed in order. */
  function SortKey(schedule: seq<Slot>, record: Record): (r: nat)
    requires record.attempt.slot in schedule
  {
    4 * LastIndex(schedule, record.attempt.slot) + 2 * record.attempt.number + if record.status == Started then 0 else 1
  }

  predicate Scheduled(schedule: seq<Slot>, records: seq<Record>) {
    forall i :: 0 <= i < |records| ==> records[i].attempt.slot in schedule
  }

  predicate KeyAscending(schedule: seq<Slot>, records: seq<Record>)
    requires Scheduled(schedule, records)
  {
    forall i, j :: 0 <= i < j < |records| ==> SortKey(schedule, records[i]) < SortKey(schedule, records[j])
  }

  /** The records are those of the files named, each once. */
  ghost predicate Lists(files: Directory, names: set<Name>, records: seq<Record>) {
    && names <= files.Keys
    && (forall i :: 0 <= i < |records| ==> NameOf(records[i]) in names && files[NameOf(records[i])] == records[i])
    && (forall name :: name in names ==> files[name] in records)
    && (forall i, j :: 0 <= i < j < |records| ==> NameOf(records[i]) != NameOf(records[j]))
  }

  lemma {:induction false} AttemptHistoryHas(files: Directory, a: Attempt)
    requires Intact(files)
    ensures forall r :: r in AttemptHistory(files, a) <==>
      NameOf(r) in files && files[NameOf(r)] == r && r.attempt == a
  {
    assert forall s :: Name(a, s) in files ==> Coherent(files, Name(a, s).attempt);
    forall r | NameOf(r) in files && files[NameOf(r)] == r && r.attempt == a
      ensures r in AttemptHistory(files, a)
    {
      assert Readable(NameOf(r), r);
    }
  }

  lemma {:induction false} SlotHistoryHas(files: Directory, slot: Slot)
    requires Intact(files)
    ensures forall r :: r in SlotHistory(files, slot) <==>
      NameOf(r) in files && files[NameOf(r)] == r && r.attempt.slot == slot
  {
    AttemptHistoryHas(files, Attempt(slot, 0));
    AttemptHistoryHas(files, Attempt(slot, 1));
    assert forall r: Record :: r.attempt.number == 0 || r.attempt.number == 1;
  }

  /** A record's place within its slot's history. */
  function Rung(r: Record): (result: nat) {
    2 * r.attempt.number + if r.status == Started then 0 else 1
  }

  lemma {:induction false} AttemptHistoryAscends(files: Directory, a: Attempt)
    requires Intact(files)
    ensures var h := AttemptHistory(files, a);
      (forall i, j :: 0 <= i < j < |h| ==> Rung(h[i]) < Rung(h[j])) &&
      (forall i :: 0 <= i < |h| ==> 2 * a.number <= Rung(h[i]) <= 2 * a.number + 1)
  {
    assert forall s :: Name(a, s) in files ==> Coherent(files, Name(a, s).attempt);
  }

  lemma {:induction false} SlotHistoryAscends(files: Directory, slot: Slot)
    requires Intact(files)
    ensures var h := SlotHistory(files, slot); forall i, j :: 0 <= i < j < |h| ==> Rung(h[i]) < Rung(h[j])
    ensures forall r :: r in SlotHistory(files, slot) <==>
      NameOf(r) in files && files[NameOf(r)] == r && r.attempt.slot == slot
  {
    SlotHistoryHas(files, slot);
    AttemptHistoryAscends(files, Attempt(slot, 0));
    AttemptHistoryAscends(files, Attempt(slot, 1));
  }

  lemma {:induction false} InOrderMembers(files: Directory, schedule: seq<Slot>)
    requires Intact(files)
    ensures forall r :: r in InOrder(files, Slots(schedule)) <==>
      NameOf(r) in files && files[NameOf(r)] == r && r.attempt.slot in schedule
    ensures Scheduled(schedule, InOrder(files, Slots(schedule)))
  {
    if schedule != [] {
      InOrderMembers(files, schedule[1..]);
      SlotHistoryAscends(files, schedule[0]);
      var all := InOrder(files, Slots(schedule));
      if schedule[0] !in schedule[1..] {
        assert all == SlotHistory(files, schedule[0]) + InOrder(files, Slots(schedule[1..]));
      }
      assert forall i :: 0 <= i < |all| ==> all[i] in all;
    }
  }

  lemma {:induction false} HistoryThenRest(schedule: seq<Slot>, h: seq<Record>, rest: seq<Record>)
    requires schedule != [] && schedule[0] !in schedule[1..]
    requires forall i :: 0 <= i < |h| ==> h[i].attempt.slot == schedule[0]
    requires forall i, j :: 0 <= i < j < |h| ==> Rung(h[i]) < Rung(h[j])
    requires Scheduled(schedule[1..], rest) && KeyAscending(schedule[1..], rest)
    requires Scheduled(schedule, h + rest)
    ensures KeyAscending(schedule, h + rest)
  {
    var all := h + rest;
    forall i | 0 <= i < |h|
      ensures SortKey(schedule, all[i]) == Rung(h[i]) < 4
    {
      assert all[i] == h[i];
    }
    forall i | |h| <= i < |all|
      ensures SortKey(schedule, all[i]) == 4 + SortKey(schedule[1..], rest[i - |h|])
    {
      assert all[i] == rest[i - |h|];
    }
  }

  lemma {:induction false} InOrderPrepends(files: Directory, schedule: seq<Slot>)
    requires Intact(files) && schedule != [] && schedule[0] !in schedule[1..]
    requires Scheduled(schedule[1..], InOrder(files, Slots(schedule[1..])))
    requires KeyAscending(schedule[1..], InOrder(files, Slots(schedule[1..])))
    requires Scheduled(schedule, InOrder(files, Slots(schedule)))
    ensures KeyAscending(schedule, InOrder(files, Slots(schedule)))
  {
    var h, rest := SlotHistory(files, schedule[0]), InOrder(files, Slots(schedule[1..]));
    assert InOrder(files, Slots(schedule)) == h + rest;
    SlotHistoryAscends(files, schedule[0]);
    assert forall i :: 0 <= i < |h| ==> h[i] in h;
    HistoryThenRest(schedule, h, rest);
  }

  lemma {:induction false} InOrderAscends(files: Directory, schedule: seq<Slot>)
    requires Intact(files)
    ensures Scheduled(schedule, InOrder(files, Slots(schedule)))
    ensures KeyAscending(schedule, InOrder(files, Slots(schedule)))
  {
    InOrderMembers(files, schedule);
    if schedule != [] {
      InOrderAscends(files, schedule[1..]);
      if schedule[0] !in schedule[1..] {
        InOrderPrepends(files, schedule);
      } else {
        var rest := InOrder(files, Slots(schedule[1..]));
        assert forall i :: 0 <= i < |rest| ==> SortKey(schedule, rest[i]) == 4 + SortKey(schedule[1..], rest[i]);
      }
    }
  }

  /** A key-ascending list is determined by its elements. */
  lemma {:induction false} AscendingListIsUnique(schedule: seq<Slot>, a: seq<Record>, b: seq<Record>)
    requires Scheduled(schedule, a) && Scheduled(schedule, b)
    requires KeyAscending(schedule, a) && KeyAscending(schedule, b)
    requires forall r :: r in a <==> r in b
    ensures a == b
  {
    assert a != [] ==> a[0] in a;
    assert b != [] ==> b[0] in b;
    if a != [] && b != [] {
      FirstsAgree(schedule, a, b);
      forall r ensures r in a[1..] <==> r in b[1..] {
        TailMembers(schedule, a, r);
        TailMembers(schedule, b, r);
      }
      AscendingListIsUnique(schedule, a[1..], b[1..]);
      assert a == [a[0]] + a[1..] && b == [b[0]] + b[1..];
    }
  }

  lemma {:induction false} FirstsAgree(schedule: seq<Slot>, a: seq<Record>, b: seq<Record>)
    requires Scheduled(schedule, a) && Scheduled(schedule, b)
    requires KeyAscending(schedule, a) && KeyAscending(schedule, b)
    requires a != [] && b != [] && a[0] in b && b[0] in a
    ensures a[0] == b[0]
  {
    var i :| 0 <= i < |a| && a[i] == b[0];
    var j :| 0 <= j < |b| && b[j] == a[0];
  }

  lemma {:induction false} TailMembers(schedule: seq<Slot>, a: seq<Record>, r: Record)
    requires Scheduled(schedule, a) && KeyAscending(schedule, a) && a != []
    ensures r in a[1..] <==> r in a && r != a[0]
  {
    if r in a && r != a[0] {
      var i :| 0 <= i < |a| && a[i] == r;
      assert a[1..][i - 1] == r;
    }
  }

  lemma {:induction false} KeysDiffer(files: Directory, schedule: seq<Slot>, x: Record, y: Record)
    requires Intact(files) && NameOf(x) in files && NameOf(y) in files
    requires files[NameOf(x)] == x && files[NameOf(y)] == y && NameOf(x) != NameOf(y)
    requires x.attempt.slot in schedule && y.attempt.slot in schedule
    ensures SortKey(schedule, x) != SortKey(schedule, y)
  {
    assert Readable(NameOf(x), x) && Readable(NameOf(y), y);
    assert Coherent(files, NameOf(x).attempt);
    KeyParts(LastIndex(schedule, x.attempt.slot), x.attempt.number, if x.status == Started then 0 else 1,
             LastIndex(schedule, y.attempt.slot), y.attempt.number, if y.status == Started then 0 else 1);
    assert schedule[LastIndex(schedule, x.attempt.slot)] == x.attempt.slot;
    assert schedule[LastIndex(schedule, y.attempt.slot)] == y.attempt.slot;
  }

  lemma {:induction false} KeyParts(i: nat, n: nat, s: nat, j: nat, m: nat, t: nat)
    requires n < 2 && s < 2 && m < 2 && t < 2
    ensures 4 * i + 2 * n + s == 4 * j + 2 * m + t <==> i == j && n == m && s == t
  {
  }

  lemma {:induction false} PrependAscends(schedule: seq<Slot>, head: Record, rest: seq<Record>)
    requires head.attempt.slot in schedule && Scheduled(schedule, rest) && KeyAscending(schedule, rest)
    requires forall x :: x in rest ==> x.attempt.slot in schedule && SortKey(schedule, head) < SortKey(schedule, x)
    ensures Scheduled(schedule, [head] + rest) && KeyAscending(schedule, [head] + rest)
  {
    assert forall i :: 0 <= i < |rest| ==> rest[i] in rest;
  }

  /** The first of an ascending list is below the rest, and the rest ascends. */
  lemma {:induction false} TailAscends(schedule: seq<Slot>, sorted: seq<Record>)
    requires Scheduled(schedule, sorted) && KeyAscending(schedule, sorted) && sorted != []
    ensures Scheduled(schedule, sorted[1..]) && KeyAscending(schedule, sorted[1..])
    ensures forall x :: x in sorted[1..] ==>
      x.attempt.slot in schedule && SortKey(schedule, sorted[0]) < SortKey(schedule, x)
    ensures forall x :: x in sorted <==> x == sorted[0] || x in sorted[1..]
  {
    assert sorted == [sorted[0]] + sorted[1..];
    forall x | x in sorted[1..]
      ensures x.attempt.slot in schedule && SortKey(schedule, sorted[0]) < SortKey(schedule, x)
    {
      var i :| 0 <= i < |sorted[1..]| && sorted[1..][i] == x;
      assert x == sorted[i + 1];
    }
  }

  /** One step of a sort by key. */
  function Insert(schedule: seq<Slot>, record: Record, sorted: seq<Record>): (r: seq<Record>)
    requires record.attempt.slot in schedule && Scheduled(schedule, sorted)
    requires KeyAscending(schedule, sorted)
    requires forall i :: 0 <= i < |sorted| ==> SortKey(schedule, sorted[i]) != SortKey(schedule, record)
    ensures Scheduled(schedule, r) && KeyAscending(schedule, r)
    ensures forall x :: x in r <==> x == record || x in sorted
  {
    if sorted == [] then [record]
    else
      TailAscends(schedule, sorted);
      if SortKey(schedule, record) < SortKey(schedule, sorted[0]) then
        PrependAscends(schedule, record, sorted);
        [record] + sorted
      else
        var rest := Insert(schedule, record, sorted[1..]);
        PrependAscends(schedule, sorted[0], rest);
        [sorted[0]] + rest
  }

  class CreateOnlyAttemptJournal {
    var files: Directory

    constructor ()
      ensures files == map[]
    {
      files := map[];
    }

    method Records(attempt: Attempt) returns (r: Result<map<Status, Record>>)
      ensures r.Ok? == RecordsOf(files, attempt).Ok?
      ensures r.Ok? ==> r == RecordsOf(files, attempt)
    {
      var result: map<Status, Record> := map[];
      var statuses := [Started, Succeeded, Failed, Invalidated];
      var i := 0;
      while i < |statuses|
        invariant i <= |statuses|
        invariant forall s :: s in result <==> s in statuses[..i] && Name(attempt, s) in files
        invariant forall s :: s in result ==>
          Readable(Name(attempt, s), files[Name(attempt, s)]) && result[s] == files[Name(attempt, s)]
      {
        var name := Name(attempt, statuses[i]);
        if name in files {
          if !Readable(name, files[name]) {
            return Err("malformed journal record");
          }
          result := result[statuses[i] := files[name]];
        }
        i := i + 1;
      }
      assert statuses[..i] == statuses;
      forall s: Status ensures s in statuses {
        match s
        case Started => assert statuses[0] == s;
        case Succeeded => assert statuses[1] == s;
        case Failed => assert statuses[2] == s;
        case Invalidated => assert statuses[3] == s;
      }
      assert forall s: Status :: s in result <==> Name(attempt, s) in files;
      if Succeeded in result && Failed in result {
        return Err("attempt has conflicting terminal journal records");
      }
      if (Succeeded in result || Failed in result) && Started !in result {
        return Err("terminal journal record has no STARTED record");
      }
      ghost var spec := RecordsOf(files, attempt).value;
      assert forall s: Status :: s in {Started, Succeeded, Failed, Invalidated} <==> s in statuses;
      assert result.Keys == spec.Keys;
      assert result == spec;
      return Ok(result);
    }

    /** `append` run without interruption has exactly the effect and outcome of `Journal.Append`. */
    method Append(attempt: Attempt, status: Status, payload: Payload) returns (r: Result<Record>)
      modifies this
      ensures files == Journal.Append(old(files), attempt, status, payload).0
      ensures r.Ok? == Journal.Append(old(files), attempt, status, payload).1.Ok?
      ensures r.Ok? ==> r == Journal.Append(old(files), attempt, status, payload).1
    {
      if status == Invalidated {
        return Err("attempt journal cannot append release invalidation");
      }
      var existing := Records(attempt);
      if existing.Err? {
        return Err(existing.reason);
      }
      if Terminal(status) {
        if Started !in existing.value {
          return Err("terminal journal record requires STARTED");
        }
        if Opposite(status) in existing.value {
          return Err("attempt already has the opposite terminal status");
        }
      }
      var complete := Record(attempt, status, payload);
      var name := Name(attempt, status);
      if name in files && files[name] != complete {
        return Err("conflicting create-only artifact");
      }
      files := files[name := complete];
      var loaded := Records(attempt);
      if loaded.Err? || loaded.value[status] != complete {
        return Err("journal record read-back differs");
      }
      return Ok(complete);
    }

    method ReadAll() returns (r: Result<seq<Record>>)
      ensures r.Ok? <==> forall name :: name in files ==> Readable(name, files[name])
      ensures r.Ok? ==> Lists(files, files.Keys, r.value)
    {
      var records: seq<Record> := [];
      var unread := files.Keys;
      while unread != {}
        invariant unread <= files.Keys
        invariant Lists(files, files.Keys - unread, records)
        invariant forall name :: name in files.Keys - unread ==> Readable(name, files[name])
        decreases |unread|
      {
        var name :| name in unread;
        if !Readable(name, files[name]) {
          return Err("malformed journal record");
        }
        assert forall k :: 0 <= k < |records| ==> NameOf(records[k]) != name;
        records := records + [files[name]];
        unread := unread - {name};
      }
      assert files.Keys - unread == files.Keys;
      return Ok(records);
    }

    method CheckAttempts(records: seq<Record>) returns (r: Result<()>)
      requires Lists(files, files.Keys, records)
      requires forall name :: name in files ==> Readable(name, files[name])
      ensures r.Ok? <==> Intact(files)
    {
      var i := 0;
      while i < |records|
        invariant i <= |records|
        invariant forall k :: 0 <= k < i ==> Coherent(files, records[k].attempt)
      {
        var one := Records(records[i].attempt);
        if one.Err? {
          assert !Coherent(files, NameOf(records[i]).attempt);
          return Err(one.reason);
        }
        i := i + 1;
      }
      forall name | name in files ensures Coherent(files, name.attempt) {
        var k :| 0 <= k < |records| && records[k] == files[name];
      }
      return Ok(());
    }

    method SortRecords(schedule: seq<Slot>, records: seq<Record>) returns (r: Result<seq<Record>>)
      requires Lists(files, files.Keys, records) && Intact(files)
      ensures r.Ok? <==> Scheduled(schedule, records)
      ensures r.Ok? ==> Scheduled(schedule, r.value) && KeyAscending(schedule, r.value)
      ensures r.Ok? ==> forall x :: x in r.value <==> x in records
    {
      var sorted: seq<Record> := [];
      var i := 0;
      while i < |records|
        invariant i <= |records|
        invariant Scheduled(schedule, records[..i])
        invariant Scheduled(schedule, sorted) && KeyAscending(schedule, sorted)
        invariant forall x :: x in sorted <==> x in records[..i]
      {
        if records[i].attempt.slot !in schedule {
          return Err("slot is not scheduled");
        }
        forall k | 0 <= k < |sorted| ensures SortKey(schedule, sorted[k]) != SortKey(schedule, records[i]) {
          assert sorted[k] in sorted;
          var j :| 0 <= j < i && records[j] == sorted[k];
          KeysDiffer(files, schedule, records[j], records[i]);
        }
        sorted := Insert(schedule, records[i], sorted);
        assert records[..i + 1] == records[..i] + [records[i]];
        i := i + 1;
      }
      assert records[..i] == records;
      return Ok(sorted);
    }

    /** Whatever order the directory lists its files in, the result is `Journal.OrderedRecords`. */
    method OrderedRecords(schedule: seq<Slot>) returns (r: Result<seq<Record>>)
      ensures r.Ok? == Journal.OrderedRecords(files, schedule).Ok?
      ensures r.Ok? ==> r == Journal.OrderedRecords(files, schedule)
    {
      var read := ReadAll();
      if read.Err? { return read; }
      var checked := CheckAttempts(read.value);
      if checked.Err? { return Err(checked.reason); }
      r := SortRecords(schedule, read.value);
      ScheduledNames(files, schedule, read.value);
      if r.Ok? {
        InOrderMembers(files, schedule);
        InOrderAscends(files, schedule);
        AscendingListIsUnique(schedule, r.value, InOrder(files, Slots(schedule)));
      }
    }
  }

  lemma {:induction false} ScheduledNames(files: Directory, schedule: seq<Slot>, records: seq<Record>)
    requires Lists(files, files.Keys, records) && Intact(files)
    ensures Scheduled(schedule, records) <==> forall name :: name in files ==> name.attempt.slot in schedule
    ensures Scheduled(schedule, records) ==>
      forall x :: x in records <==> NameOf(x) in files && files[NameOf(x)] == x && x.attempt.slot in schedule
  {
    if Scheduled(schedule, records) {
      forall name | name in files ensures name.attempt.slot in schedule {
        var k :| 0 <= k < |records| && records[k] == files[name];
      }
      forall x | NameOf(x) in files && files[NameOf(x)] == x ensures x in records {
        assert files[NameOf(x)] in records;
      }
    }
  }
}
