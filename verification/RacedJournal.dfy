/** The journal when appends race. Any number of processes select attempts and append to them, and each
    append is taken apart into its looks at the status files, its exclusive creation and its read-back,
    as in `Racing`. The journal reads back exactly as long as no attempt has both terminal files. */
module RacedJournal {
  import opened Ascending
  import opened Journal
  import opened Attempts
  import opened Racing

  /** The journal, and the appends that have been called so far. One that crashed takes no more steps. */
  datatype Raced = Raced(world: World, appenders: seq<Appender>)

  datatype Move = Choose(slot: Slot) | Call(attempt: Attempt, status: Status, payload: Payload) | Proceed(who: nat)

  function Moved(schedule: seq<Slot>, r: Raced, m: Move): (next: Raced) {
    match m
    case Choose(slot) => r.(world := After(schedule, r.world, Select(slot)))
    case Call(attempt, status, payload) =>
      if attempt in r.world.held
      then r.(appenders := r.appenders + [Appender(attempt, status, payload, Checking(0, map[]))])
      else r
    case Proceed(i) =>
      if i < |r.appenders| then
        var (files, p) := Racing.Step(r.world.files, r.appenders[i]);
        Raced(r.world.(files := files), r.appenders[i := p])
      else r
  }

  function Race(schedule: seq<Slot>, r: Raced, moves: seq<Move>): (last: Raced)
    decreases |moves|
  {
    if moves == [] then r else Race(schedule, Moved(schedule, r, moves[0]), moves[1..])
  }

  const QUIET: Raced := Raced(START, [])

  ghost predicate NoConflict(files: Directory) {
    forall a :: !BothTerminals(files, a)
  }

  // ---- what every move keeps

  /** What an append saw is there; one about to create a terminal record saw STARTED. */
  predicate SawRight(files: Directory, p: Appender) {
    match p.phase
    case Checking(_, seen) => forall status :: status in seen ==> Name(p.attempt, status) in files
    case Creating => p.status != Invalidated && (Terminal(p.status) ==> Name(p.attempt, Started) in files)
    case _ => true
  }

  ghost predicate Sane(schedule: seq<Slot>, r: Raced) {
    && (forall a :: a in r.world.held ==> a.slot in schedule)
    && (forall name :: name in r.world.files ==>
          name.attempt in r.world.held && Readable(name, r.world.files[name]))
    && (forall name :: name in r.world.files && Terminal(name.status) ==>
          Name(name.attempt, Started) in r.world.files)
    && (forall a :: a in r.world.held && a.number == 1 ==> Name(Attempt(a.slot, 0), Failed) in r.world.files)
    && (forall i :: 0 <= i < |r.appenders| ==>
          r.appenders[i].attempt in r.world.held && SawRight(r.world.files, r.appenders[i]))
  }

  /** A sane journal is lawful, and so can be read, exactly when no attempt has both terminal files. */
  lemma {:induction false} LawfulExactly(schedule: seq<Slot>, r: Raced)
    requires Sane(schedule, r)
    ensures Lawful(schedule, r.world) <==> NoConflict(r.world.files)
  {
    if NoConflict(r.world.files) {
      forall a ensures Coherent(r.world.files, a) {
        assert !BothTerminals(r.world.files, a);
      }
    } else {
      var a :| BothTerminals(r.world.files, a);
      assert !Coherent(r.world.files, a);
    }
  }

  lemma {:induction false} ReadsExactly(schedule: seq<Slot>, r: Raced)
    requires Sane(schedule, r)
    ensures OrderedRecords(r.world.files, schedule).Ok? <==> NoConflict(r.world.files)
  {
    LawfulExactly(schedule, r);
    if NoConflict(r.world.files) {
      JournalReads(schedule, r.world, Slot(0, Dev2));
    } else {
      var a :| BothTerminals(r.world.files, a);
      assert Name(a, Succeeded) in r.world.files && !Coherent(r.world.files, a);
    }
  }

  /** One step of one append: files are only added, and the append keeps seeing right. */
  lemma {:induction false} StepSees(files: Directory, p: Appender)
    requires SawRight(files, p)
    requires forall name :: name in files && Terminal(name.status) ==> Name(name.attempt, Started) in files
    ensures var (after, q) := Racing.Step(files, p);
      && q.attempt == p.attempt && SawRight(after, q)
      && (after == files ||
          (p.phase.Creating? && Name(p.attempt, p.status) !in files &&
           after == files[Name(p.attempt, p.status) := p.Complete()]))
  {
  }

  lemma {:induction false} ProceedIsSane(schedule: seq<Slot>, r: Raced, i: nat)
    requires Sane(schedule, r) && i < |r.appenders|
    ensures Sane(schedule, Moved(schedule, r, Proceed(i)))
  {
    var p := r.appenders[i];
    StepSees(r.world.files, p);
    var t := Moved(schedule, r, Proceed(i));
    assert t.world.files == r.world.files ||
      t.world.files == r.world.files[Name(p.attempt, p.status) := p.Complete()];
    forall k | 0 <= k < |t.appenders|
      ensures t.appenders[k].attempt in t.world.held && SawRight(t.world.files, t.appenders[k])
    {
      assert k != i ==> t.appenders[k] == r.appenders[k];
    }
  }

  lemma {:induction false} ChooseIsSane(schedule: seq<Slot>, r: Raced, slot: Slot)
    requires Sane(schedule, r)
    ensures Sane(schedule, Moved(schedule, r, Choose(slot)))
  {
    if slot in schedule && NextAttempt(r.world.files, schedule, slot).Ok? {
      ReadsExactly(schedule, r);
      LawfulExactly(schedule, r);
      StepIsLawful(schedule, r.world, Select(slot));
    }
  }

  /** Every move keeps the journal sane, loses no record and changes none. */
  lemma {:induction false} MoveIsSane(schedule: seq<Slot>, r: Raced, m: Move)
    requires Sane(schedule, r)
    ensures var t := Moved(schedule, r, m); Sane(schedule, t) && Kept(r.world.files, t.world.files)
  {
    match m
    case Choose(slot) => ChooseIsSane(schedule, r, slot);
    case Call(attempt, status, payload) =>
    case Proceed(i) =>
      if i < |r.appenders| {
        ProceedIsSane(schedule, r, i);
        StepSees(r.world.files, r.appenders[i]);
      }
  }

  ghost predicate Kept(a: Directory, b: Directory) {
    forall name :: name in a ==> name in b && b[name] == a[name]
  }

  lemma {:induction false} RaceIsSane(schedule: seq<Slot>, r: Raced, moves: seq<Move>)
    requires Sane(schedule, r)
    ensures var t := Race(schedule, r, moves); Sane(schedule, t) && Kept(r.world.files, t.world.files)
    decreases |moves|
  {
    if moves != [] {
      MoveIsSane(schedule, r, moves[0]);
      RaceIsSane(schedule, Moved(schedule, r, moves[0]), moves[1..]);
    }
  }

  lemma {:induction false} ConflictStays(a: Directory, b: Directory)
    requires Kept(a, b) && NoConflict(b)
    ensures NoConflict(a)
  {
    forall x ensures !BothTerminals(a, x) {
      assert !BothTerminals(b, x);
    }
  }

  // ---- exactly when a conflict arises

  /** The append is about to create a terminal record although its opposite was created since it looked. */
  predicate Clashes(files: Directory, p: Appender) {
    && p.phase.Creating? && Terminal(p.status)
    && Name(p.attempt, p.status) !in files && Name(p.attempt, Opposite(p.status)) in files
  }

  /** A move makes a conflict exactly when it lets such an append create its file. */
  lemma {:induction false} MoveConflictsExactly(schedule: seq<Slot>, r: Raced, m: Move)
    requires Sane(schedule, r) && NoConflict(r.world.files)
    ensures !NoConflict(Moved(schedule, r, m).world.files) <==>
      m.Proceed? && m.who < |r.appenders| && Clashes(r.world.files, r.appenders[m.who])
  {
    var t := Moved(schedule, r, m);
    if m.Proceed? && m.who < |r.appenders| {
      var p := r.appenders[m.who];
      StepSees(r.world.files, p);
      if Clashes(r.world.files, p) {
        assert BothTerminals(t.world.files, p.attempt);
      } else {
        forall a ensures !BothTerminals(t.world.files, a) {
          assert !BothTerminals(r.world.files, a);
        }
      }
    }
  }

  /** No append of the run creates a terminal record after its opposite was created. */
  predicate Clashless(schedule: seq<Slot>, r: Raced, moves: seq<Move>)
    decreases |moves|
  {
    moves == [] ||
    (&& !(moves[0].Proceed? && moves[0].who < |r.appenders| && Clashes(r.world.files, r.appenders[moves[0].who]))
     && Clashless(schedule, Moved(schedule, r, moves[0]), moves[1..]))
  }

  /** The journal can be read after a run of racing appends exactly when none of them clashed. */
  lemma {:induction false} RaceReadsExactly(schedule: seq<Slot>, r: Raced, moves: seq<Move>)
    requires Sane(schedule, r) && NoConflict(r.world.files)
    ensures NoConflict(Race(schedule, r, moves).world.files) <==> Clashless(schedule, r, moves)
    decreases |moves|
  {
    if moves != [] {
      var t := Moved(schedule, r, moves[0]);
      MoveIsSane(schedule, r, moves[0]);
      MoveConflictsExactly(schedule, r, moves[0]);
      if NoConflict(t.world.files) {
        RaceReadsExactly(schedule, t, moves[1..]);
      } else {
        RaceIsSane(schedule, t, moves[1..]);
        if NoConflict(Race(schedule, t, moves[1..]).world.files) {
          ConflictStays(t.world.files, Race(schedule, t, moves[1..]).world.files);
        }
      }
    }
  }

  // ---- what a clash needs

  /** The append looked for its opposite, saw nothing, and has not created its file yet. */
  predicate Passed(p: Appender) {
    && Terminal(p.status)
    && (p.phase.Creating? ||
        (p.phase.Checking? && p.phase.next > Position(Opposite(p.status)) && Opposite(p.status) !in p.phase.seen))
  }

  /** Two opposite appends of one attempt have both passed, and neither file is there. */
  predicate Overlapping(r: Raced, i: nat, j: nat) {
    && i < |r.appenders| && j < |r.appenders|
    && Passed(r.appenders[i]) && Passed(r.appenders[j])
    && r.appenders[i].attempt == r.appenders[j].attempt
    && r.appenders[j].status == Opposite(r.appenders[i].status)
    && Name(r.appenders[i].attempt, Succeeded) !in r.world.files
    && Name(r.appenders[i].attempt, Failed) !in r.world.files
  }

  /** Whoever passed, the opposite file is still missing. */
  ghost predicate Clear(r: Raced) {
    forall i :: 0 <= i < |r.appenders| && Passed(r.appenders[i]) ==>
      Name(r.appenders[i].attempt, Opposite(r.appenders[i].status)) !in r.world.files
  }

  /** A move that ends this, or that makes a conflict, finds two overlapping appends. */
  lemma {:induction false} ClearEnds(schedule: seq<Slot>, r: Raced, m: Move) returns (i: nat, j: nat)
    requires Sane(schedule, r) && NoConflict(r.world.files) && Clear(r)
    ensures var t := Moved(schedule, r, m);
      Overlapping(r, i, j) || (Clear(t) && NoConflict(t.world.files))
  {
    i, j := 0, 0;
    var t := Moved(schedule, r, m);
    MoveConflictsExactly(schedule, r, m);
    if m.Proceed? && m.who < |r.appenders| {
      assert NoConflict(t.world.files);
      StepSees(r.world.files, r.appenders[m.who]);
      if !Clear(t) {
        i :| 0 <= i < |t.appenders| && Passed(t.appenders[i]) &&
          Name(t.appenders[i].attempt, Opposite(t.appenders[i].status)) in t.world.files;
        j := m.who;
        if t.world.files == r.world.files {
          OwnLook(r.world.files, r.appenders[j]);
          assert false;
        }
        assert i != j && t.appenders[i] == r.appenders[i];
      }
    }
  }

  /** An append that passes by its own step saw no opposite file. */
  lemma {:induction false} OwnLook(files: Directory, p: Appender)
    requires Passed(p) ==> Name(p.attempt, Opposite(p.status)) !in files
    requires SawRight(files, p)
    ensures var (after, q) := Racing.Step(files, p);
      Passed(q) ==> after == files && Name(q.attempt, Opposite(q.status)) !in files
  {
  }

  /** A conflict comes only of an overlap: at some moment before it two opposite appends of one attempt had
      both passed their looks and neither had created its file. */
  lemma {:induction false} ConflictNeedsOverlap(schedule: seq<Slot>, r: Raced, moves: seq<Move>)
      returns (k: nat, i: nat, j: nat)
    requires Sane(schedule, r) && NoConflict(r.world.files) && Clear(r)
    requires !NoConflict(Race(schedule, r, moves).world.files)
    ensures k <= |moves| && Overlapping(Race(schedule, r, moves[..k]), i, j)
    decreases |moves|
  {
    i, j := ClearEnds(schedule, r, moves[0]);
    k := 0;
    if !Overlapping(r, i, j) {
      var t := Moved(schedule, r, moves[0]);
      MoveIsSane(schedule, r, moves[0]);
      k, i, j := ConflictNeedsOverlap(schedule, t, moves[1..]);
      assert moves[..k + 1][0] == moves[0] && moves[..k + 1][1..] == moves[1..][..k];
      k := k + 1;
    }
  }

  // ---- a conflict is reached

  function Proceeds(order: seq<nat>): (moves: seq<Move>) {
    seq(|order|, k requires 0 <= k < |order| => Proceed(order[k]))
  }

  /** Proceeding in that order is `Racing.Interleave`. */
  lemma {:induction false} ProceedingIsInterleaving(schedule: seq<Slot>, r: Raced, order: seq<nat>)
    ensures var t := Interleave(State(r.world.files, r.appenders), order);
      Race(schedule, r, Proceeds(order)) == Raced(r.world.(files := t.files), t.appenders)
    decreases |order|
  {
    if order != [] {
      assert Proceeds(order)[0] == Proceed(order[0]) && Proceeds(order)[1..] == Proceeds(order[1..]);
      ProceedingIsInterleaving(schedule, Moved(schedule, r, Proceed(order[0])), order[1..]);
    }
  }

  lemma {:induction false} RaceInParts(schedule: seq<Slot>, r: Raced, a: seq<Move>, b: seq<Move>)
    ensures Race(schedule, r, a + b) == Race(schedule, Race(schedule, r, a), b)
    decreases |a|
  {
    if a == [] {
      assert a + b == b;
    } else {
      assert (a + b)[1..] == a[1..] + b;
      RaceInParts(schedule, Moved(schedule, r, a[0]), a[1..], b);
    }
  }

  /** Two opposite terminal appends are called on an attempt, check, and then create. */
  function Clash(r: Raced, a: Attempt, p: Payload, q: Payload): (moves: seq<Move>) {
    [Call(a, Succeeded, p), Call(a, Failed, q)] + Proceeds(Collision(|r.appenders|, |r.appenders| + 1))
  }

  /** Wherever an attempt is STARTED and nothing else, racing appends can end the journal. */
  lemma {:induction false} ClashConflicts(schedule: seq<Slot>, r: Raced, a: Attempt, p: Payload, q: Payload)
    requires Sane(schedule, r) && a in r.world.held && Name(a, Started) in r.world.files
    requires Name(a, Succeeded) !in r.world.files && Name(a, Failed) !in r.world.files
    ensures !NoConflict(Race(schedule, r, Clash(r, a, p, q)).world.files)
  {
    var n := |r.appenders|;
    var calls := [Call(a, Succeeded, p), Call(a, Failed, q)];
    var called := Race(schedule, r, calls);
    assert called == Raced(r.world, r.appenders + [Appender(a, Succeeded, p, Checking(0, map[])),
                                                   Appender(a, Failed, q, Checking(0, map[]))]) by {
      assert calls[1..] == [calls[1]] && calls[1..][1..] == [];
      var one := Moved(schedule, r, calls[0]);
      assert Race(schedule, r, calls) == Race(schedule, one, calls[1..]);
      assert Race(schedule, one, calls[1..]) == Race(schedule, Moved(schedule, one, calls[1]), []);
    }
    RaceInParts(schedule, r, calls, Proceeds(Collision(n, n + 1)));
    ProceedingIsInterleaving(schedule, called, Collision(n, n + 1));
    OppositeAppendsCollide(State(r.world.files, called.appenders), n, n + 1);
    assert BothTerminals(Race(schedule, r, Clash(r, a, p, q)).world.files, a);
  }

  /** The first attempt of a slot, selected and STARTED with nothing in between: four looks and the end of
      the check, then the creation. */
  function Opening(slot: Slot, payload: Payload): (moves: seq<Move>) {
    [Choose(slot), Call(Attempt(slot, 0), Started, payload)] + Proceeds(Turns(0, 6))
  }

  lemma {:induction false} FirstStart(a: Attempt, payload: Payload)
    ensures var p := Appender(a, Started, payload, Checking(0, map[])); var none: Directory := map[];
      Repeated(none, p, 6) == (none[Name(a, Started) := p.Complete()], p.(phase := ReadingBack(0, map[])))
  {
  }

  /** A STARTED attempt is reached from the empty journal. */
  lemma {:induction false} OpeningStarts(schedule: seq<Slot>, slot: Slot, payload: Payload)
    requires slot in schedule
    ensures var a := Attempt(slot, 0); var t := Race(schedule, QUIET, Opening(slot, payload));
      t.world == World(map[Name(a, Started) := Record(a, Started, payload)], {a})
  {
    var a := Attempt(slot, 0);
    var calls := [Choose(slot), Call(a, Started, payload)];
    var p := Appender(a, Started, payload, Checking(0, map[]));
    NextAttemptReads(schedule, START, slot);
    assert SlotHistory(START.files, slot) == [];
    var one := Moved(schedule, QUIET, calls[0]);
    assert one.world == World(map[], {a});
    var called := Raced(one.world, [p]);
    assert Race(schedule, QUIET, calls) == called by {
      assert calls[1..] == [calls[1]] && calls[1..][1..] == [];
      assert Race(schedule, QUIET, calls) == Race(schedule, one, calls[1..]);
      assert Race(schedule, one, calls[1..]) == Race(schedule, Moved(schedule, one, calls[1]), []);
    }
    RaceInParts(schedule, QUIET, calls, Proceeds(Turns(0, 6)));
    ProceedingIsInterleaving(schedule, called, Turns(0, 6));
    InterleaveTurns(State(called.world.files, called.appenders), 0, 6);
    FirstStart(a, payload);
  }
}
