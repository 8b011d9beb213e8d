/** Racing appenders. `append` is taken apart: every look at one status file, in the check and in the
    read-back, and the exclusive creation are separate steps of any number of processes. */
module Racing {
  import opened Ascending
  import opened Journal

  /** The order in which `records` looks for status files. */
  const LOOKS: seq<Status> := [Started, Succeeded, Failed, Invalidated]

  function Position(status: Status): (r: nat) {
    match status
    case Started => 0
    case Succeeded => 1
    case Failed => 2
    case Invalidated => 3
  }

  /** Where an append stands: `next` files have been looked at, `seen` of them existed. */
  datatype Phase =
    | Checking(next: nat, seen: map<Status, Record>)
    | Creating
    | ReadingBack(next: nat, seen: map<Status, Record>)
    | Returned
    | Raised

  datatype Appender = Appender(attempt: Attempt, status: Status, payload: Payload, phase: Phase) {
    function Complete(): (r: Record) { Record(attempt, status, payload) }
  }

  datatype State = State(files: Directory, appenders: seq<Appender>)

  /** `records` raises on what it saw. */
  predicate Conflicting(seen: map<Status, Record>) {
    || (Succeeded in seen && Failed in seen)
    || ((Succeeded in seen || Failed in seen) && Started !in seen)
  }

  function Look(files: Directory, p: Appender, next: nat, seen: map<Status, Record>): (r: Option<map<Status, Record>>)
    requires next < |LOOKS|
  {
    var name := Name(p.attempt, LOOKS[next]);
    if name !in files then Some(seen)
    else if !Readable(name, files[name]) then None
    else Some(seen[LOOKS[next] := files[name]])
  }

  /** One step of one appender. */
  function Step(files: Directory, p: Appender): (r: (Directory, Appender)) {
    match p.phase
    case Checking(next, seen) =>
      if p.status == Invalidated then (files, p.(phase := Raised))
      else if next < |LOOKS| then
        var looked := Look(files, p, next, seen);
        (files, p.(phase := if looked.None? then Raised else Checking(next + 1, looked.value)))
      else if Conflicting(seen) then (files, p.(phase := Raised))
      else if Terminal(p.status) && (Started !in seen || Opposite(p.status) in seen) then (files, p.(phase := Raised))
      else (files, p.(phase := Creating))
    case Creating =>
      var name := Name(p.attempt, p.status);
      if name !in files then (files[name := p.Complete()], p.(phase := ReadingBack(0, map[])))
      else if files[name] != p.Complete() then (files, p.(phase := Raised))
      else (files, p.(phase := ReadingBack(0, map[])))
    case ReadingBack(next, seen) =>
      if next < |LOOKS| then
        var looked := Look(files, p, next, seen);
        (files, p.(phase := if looked.None? then Raised else ReadingBack(next + 1, looked.value)))
      else if Conflicting(seen) || p.status !in seen || seen[p.status] != p.Complete() then (files, p.(phase := Raised))
      else (files, p.(phase := Returned))
    case Returned => (files, p)
    case Raised => (files, p)
  }

  function Next(s: State, i: nat): (r: State) {
    if i < |s.appenders| then
      var (files, p) := Step(s.files, s.appenders[i]);
      State(files, s.appenders[i := p])
    else s
  }

  function Interleave(s: State, order: seq<nat>): (r: State)
    decreases |order|
  {
    if order == [] then s else Interleave(Next(s, order[0]), order[1..])
  }

  /** Every appender is about to begin; the directory holds anything. */
  predicate Initial(s: State) {
    forall p :: p in s.appenders ==> p.phase == Checking(0, map[])
  }

  // ---- mutual exclusion of the two terminal statuses

  predicate Created(p: Appender) {
    p.phase.ReadingBack? || p.phase.Returned?
  }

  /** The read-back has looked for the opposite status and found none. */
  predicate Cleared(p: Appender) {
    || p.phase.Returned?
    || (p.phase.ReadingBack? && p.phase.next > Position(Opposite(p.status)) && Opposite(p.status) !in p.phase.seen)
  }

  ghost predicate Exclusive(s: State) {
    && (forall p :: p in s.appenders && Created(p) ==>
          Name(p.attempt, p.status) in s.files && s.files[Name(p.attempt, p.status)] == p.Complete())
    && (forall p :: p in s.appenders && p.phase.ReadingBack? ==> p.phase.next <= |LOOKS|)
    && (forall p, q :: p in s.appenders && q in s.appenders && BothCleared(p, q) ==> p.status == q.status)
  }

  /** Both are terminal appends for one attempt that have found no opposite record. */
  predicate BothCleared(p: Appender, q: Appender) {
    Cleared(p) && Cleared(q) && p.attempt == q.attempt && Terminal(p.status) && Terminal(q.status)
  }

  /** What one appender's own step says: files stay, and clearing means the opposite file is absent. */
  lemma {:induction false} OwnStep(files: Directory, p: Appender)
    requires Created(p) ==> Name(p.attempt, p.status) in files && files[Name(p.attempt, p.status)] == p.Complete()
    requires p.phase.ReadingBack? ==> p.phase.next <= |LOOKS|
    ensures var (after, q) := Step(files, p);
      && q.attempt == p.attempt && q.status == p.status && q.payload == p.payload
      && (forall name :: name in files ==> name in after && after[name] == files[name])
      && (Created(q) ==> Name(q.attempt, q.status) in after && after[Name(q.attempt, q.status)] == q.Complete())
      && (q.phase.ReadingBack? ==> q.phase.next <= |LOOKS|)
      && (Terminal(p.status) && Cleared(q) && !Cleared(p) ==> Name(p.attempt, Opposite(p.status)) !in after)
  {
  }

  lemma {:induction false} StepIsExclusive(s: State, i: nat)
    requires Exclusive(s)
    ensures Exclusive(Next(s, i))
  {
    if i < |s.appenders| {
      var p := s.appenders[i];
      assert p in s.appenders;
      OwnStep(s.files, p);
      var t := Next(s, i);
      var q := t.appenders[i];
      forall x | x in t.appenders ensures x == q || x in s.appenders {
      }
      forall x | x in t.appenders && BothCleared(x, q)
        ensures x.status == q.status
      {
        if Cleared(p) && x != q { assert BothCleared(x, p); }
        assert x.status == q.status || x.status == Opposite(p.status);
      }
    }
  }

  lemma {:induction false} RunIsExclusive(s: State, order: seq<nat>)
    requires Exclusive(s)
    ensures Exclusive(Interleave(s, order))
    decreases |order|
  {
    if order != [] {
      StepIsExclusive(s, order[0]);
      RunIsExclusive(Next(s, order[0]), order[1..]);
    }
  }

  /** However the steps interleave, terminal appends for one attempt that return carry one status and
      one payload, and that record is the one on disk. */
  lemma {:induction false} TerminalAppendsAgree(s: State, order: seq<nat>, p: Appender, q: Appender)
    requires Initial(s)
    requires p in Interleave(s, order).appenders && q in Interleave(s, order).appenders
    requires p.phase.Returned? && q.phase.Returned? && p.attempt == q.attempt
    requires Terminal(p.status) && Terminal(q.status)
    ensures p.status == q.status && p.payload == q.payload
    ensures var files := Interleave(s, order).files;
      Name(p.attempt, p.status) in files && files[Name(p.attempt, p.status)] == Record(p.attempt, p.status, p.payload)
  {
    RunIsExclusive(s, order);
  }

  // ---- after a conflict

  predicate BothTerminals(files: Directory, attempt: Attempt) {
    Name(attempt, Succeeded) in files && Name(attempt, Failed) in files
  }

  /** A read that had not passed the terminal files when both existed can only raise. */
  predicate Doomed(p: Appender) {
    || p.phase.Raised?
    || ((p.phase.Checking? || p.phase.ReadingBack?)
        && (p.phase.next > Position(Succeeded) ==> Succeeded in p.phase.seen)
        && (p.phase.next > Position(Failed) ==> Failed in p.phase.seen))
  }

  lemma {:induction false} ConflictIsFinal(s: State, order: seq<nat>, i: nat)
    requires i < |s.appenders| && Doomed(s.appenders[i])
    requires BothTerminals(s.files, s.appenders[i].attempt)
    ensures var t := Interleave(s, order);
      && |t.appenders| == |s.appenders| && Doomed(t.appenders[i])
      && (s.appenders[i].phase.Raised? ==> t.appenders[i].phase.Raised?)
      && (s.appenders[i].phase.Checking? ==> t.appenders[i].phase.Checking? || t.appenders[i].phase.Raised?)
    ensures Interleave(s, order).files.Keys >= s.files.Keys
    decreases |order|
  {
    if order != [] {
      var t := Next(s, order[0]);
      if order[0] < |s.appenders| {
        assert t.files.Keys >= s.files.Keys;
      }
      ConflictIsFinal(t, order[1..], i);
    }
  }

  /** Once both terminal files of an attempt exist, a read of it that starts later never completes:
      an append that begins then creates nothing and never returns, in any interleaving. */
  lemma {:induction false} LaterAppendsRaise(s: State, order: seq<nat>, i: nat)
    requires i < |s.appenders| && BothTerminals(s.files, s.appenders[i].attempt)
    requires s.appenders[i].phase == Checking(0, map[])
    ensures var t := Interleave(s, order).appenders;
      |t| == |s.appenders| && (t[i].phase.Checking? || t[i].phase.Raised?)
  {
    ConflictIsFinal(s, order, i);
  }

  // ---- how a conflict comes about

  /** So many steps of one append with no other in between. */
  function Repeated(files: Directory, p: Appender, n: nat): (r: (Directory, Appender))
    decreases n
  {
    if n == 0 then (files, p)
    else
      var (after, q) := Step(files, p);
      Repeated(after, q, n - 1)
  }

  /** An uninterrupted check of a terminal append that nothing stands against: five steps. */
  lemma {:induction false} CheckPasses(files: Directory, p: Appender)
    requires p.phase == Checking(0, map[]) && Terminal(p.status)
    requires Coherent(files, p.attempt) && Name(p.attempt, Started) in files
    requires Name(p.attempt, Opposite(p.status)) !in files
    ensures Repeated(files, p, 5) == (files, p.(phase := Creating))
  {
  }

  function Turns(i: nat, n: nat): (order: seq<nat>) {
    seq(n, _ => i)
  }

  lemma {:induction false} InterleaveTurns(s: State, i: nat, n: nat)
    requires i < |s.appenders|
    ensures var (files, p) := Repeated(s.files, s.appenders[i], n);
      Interleave(s, Turns(i, n)) == State(files, s.appenders[i := p])
    decreases n
  {
    if n == 0 {
      assert s.appenders[i := s.appenders[i]] == s.appenders;
    } else {
      var t := Next(s, i);
      assert Turns(i, n)[0] == i && Turns(i, n)[1..] == Turns(i, n - 1);
      InterleaveTurns(t, i, n - 1);
      var (files, p) := Repeated(s.files, s.appenders[i], n);
      assert t.appenders[i := p] == s.appenders[i := p];
    }
  }

  lemma {:induction false} InterleaveParts(s: State, a: seq<nat>, b: seq<nat>)
    ensures Interleave(s, a + b) == Interleave(Interleave(s, a), b)
    decreases |a|
  {
    if a == [] {
      assert a + b == b;
    } else {
      assert (a + b)[1..] == a[1..] + b;
      InterleaveParts(Next(s, a[0]), a[1..], b);
    }
  }

  /** Two opposite terminal appends of one attempt, both about to create. */
  predicate BothCreating(s: State, i: nat, j: nat) {
    && i < |s.appenders| && j < |s.appenders|
    && s.appenders[i].phase.Creating? && s.appenders[j].phase.Creating?
    && s.appenders[i].attempt == s.appenders[j].attempt
    && Terminal(s.appenders[i].status) && s.appenders[j].status == Opposite(s.appenders[i].status)
    && Name(s.appenders[i].attempt, Succeeded) !in s.files && Name(s.appenders[i].attempt, Failed) !in s.files
  }

  /** Once both have passed their checks nothing stops either from creating its file; then neither returns. */
  lemma {:induction false} BothCreate(s: State, i: nat, j: nat)
    requires BothCreating(s, i, j)
    ensures var t := Interleave(s, [i, j]);
      && BothTerminals(t.files, s.appenders[i].attempt)
      && |t.appenders| == |s.appenders| && Doomed(t.appenders[i]) && Doomed(t.appenders[j])
  {
    var t := Next(s, i);
    assert i != j && t.appenders[j] == s.appenders[j];
    assert [i, j][1..] == [j] && [j][1..] == [];
    assert Interleave(s, [i, j]) == Interleave(t, [j]) == Interleave(Next(t, j), []);
  }

  /** Five steps of one, five of the other, then one of each. */
  function Collision(i: nat, j: nat): (order: seq<nat>) {
    Turns(i, 5) + Turns(j, 5) + [i, j]
  }

  /** Wherever an attempt is STARTED and nothing else, two opposite terminal appends that check before
      either creates leave it with both terminal files, and no read of it returns again. */
  lemma {:induction false} OppositeAppendsCollide(s: State, i: nat, j: nat)
    requires i < |s.appenders| && j < |s.appenders| && i != j
    requires s.appenders[i].phase == s.appenders[j].phase == Checking(0, map[])
    requires s.appenders[i].attempt == s.appenders[j].attempt
    requires Terminal(s.appenders[i].status) && s.appenders[j].status == Opposite(s.appenders[i].status)
    requires Coherent(s.files, s.appenders[i].attempt) && Name(s.appenders[i].attempt, Started) in s.files
    requires Name(s.appenders[i].attempt, Succeeded) !in s.files && Name(s.appenders[i].attempt, Failed) !in s.files
    ensures var t := Interleave(s, Collision(i, j));
      && BothTerminals(t.files, s.appenders[i].attempt)
      && |t.appenders| == |s.appenders| && Doomed(t.appenders[i]) && Doomed(t.appenders[j])
  {
    CheckPasses(s.files, s.appenders[i]);
    InterleaveTurns(s, i, 5);
    var t := Interleave(s, Turns(i, 5));
    CheckPasses(t.files, t.appenders[j]);
    InterleaveTurns(t, j, 5);
    var u := Interleave(t, Turns(j, 5));
    InterleaveParts(s, Turns(i, 5), Turns(j, 5));
    InterleaveParts(s, Turns(i, 5) + Turns(j, 5), [i, j]);
    BothCreate(u, i, j);
  }
}
