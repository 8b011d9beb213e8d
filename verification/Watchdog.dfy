/** The supervisor of a GPU worker: sampling with pause, one sampler restart and resume, the worker's
    record stream, and clean-up in reverse order. The card, the kernel and the worker are the
    nondeterministic choices `*`. */
module Watchdog {
  import opened Ascending
  import opened SupervisedRun
  import Framing
  import Sampler

  type Bytes = seq<Framing.Byte>
  type Receipt = int

  /** What a worker record says; Unreadable covers every record whose handling raises. */
  datatype Message = Phase | Ready(receipt: Receipt) | Unreadable

  datatype Reason = TelemetryUnavailable | TelemetryMalformed | TotalChanged | FloorBreached | RuntimeExceeded

  datatype Action = StopSampler | WaitChild | CloseStream | Communicate | TerminateChild | CloseSelector

  datatype Sent = Delivered | ChildGone | Refused

  datatype Heard = Got(sample: Sample) | Lost | Broken

  datatype Sampled = Raised | Nothing | Taken(sample: Sample)

  datatype WatchdogResult = WatchdogResult(reason: Option<Reason>, minimum: int, total: int,
                                           returncode: int, ready: Option<Receipt>, cleanupEnforced: bool)

  function Reversed<T>(s: seq<T>): (r: seq<T>) {
    if s == [] then [] else Reversed(s[1..]) + [s[0]]
  }

  lemma {:induction false} ReversedHas<T>(s: seq<T>, x: T)
    ensures x in Reversed(s) <==> x in s
  {
    if s != [] {
      ReversedHas(s[1..], x);
      assert s == [s[0]] + s[1..];
    }
  }

  predicate Blank(s: Bytes) {
    forall b :: b in s ==> b == 32 || 9 <= b <= 13
  }

  ghost predicate Steady(floor: int, total: int, minimum: int, samples: seq<Sample>) {
    samples != [] && OneTotal(samples, total) && AllAbove(samples, floor) && minimum == Least(samples)
  }

  /** How the samples of a run stand when its polling loop was left for that reason. */
  ghost predicate Concluded(reason: Option<Reason>, floor: int, total: int, minimum: int, samples: seq<Sample>) {
    match reason
    case Some(TotalChanged) =>
      && |samples| > 1
      && samples[|samples| - 1].total != total
      && Steady(floor, total, minimum, samples[..|samples| - 1])
    case Some(FloorBreached) =>
      && |samples| > 1
      && OneTotal(samples, total)
      && minimum == Least(samples)
      && samples[|samples| - 1].free < floor
      && AllAbove(samples[..|samples| - 1], floor)
    case _ => Steady(floor, total, minimum, samples)
  }

  /** The result says of the recorded samples exactly what they are. */
  ghost predicate Explains(r: WatchdogResult, floor: int, samples: seq<Sample>) {
    && (exists s :: s in samples && s.total == r.total && s.free == r.minimum)
    && (forall s :: s in samples && s.total == r.total ==> r.minimum <= s.free)
    && (r.reason == Some(TotalChanged) <==> exists s :: s in samples && s.total != r.total)
    && (r.reason == Some(FloorBreached) <==> exists s :: s in samples && s.total == r.total && s.free < floor)
  }

  lemma {:induction false} ConclusionExplains(r: WatchdogResult, floor: int, samples: seq<Sample>)
    requires Concluded(r.reason, floor, r.total, r.minimum, samples)
    ensures Explains(r, floor, samples)
  {
    var n := |samples| - 1;
    assert samples == samples[..n] + [samples[n]];
    assert samples[n] in samples;
    TotalsAndFloors(samples, r.total, floor);
    LeastIsLeast(samples);
    if n > 0 {
      TotalsAndFloors(samples[..n], r.total, floor);
      LeastIsLeast(samples[..n]);
    }
  }

  /** What the supervisor records of a sampler's readings. */
  function AsSamples(readings: seq<Sampler.Reading>): (samples: seq<Sample>) {
    seq(|readings|, i requires 0 <= i < |readings| => Sample(readings[i].total, readings[i].free))
  }

  /** What one more sample makes of steady ones. */
  lemma {:induction false} SampleConcludes(floor: int, total: int, minimum: int, before: seq<Sample>, s: Sample)
    requires Steady(floor, total, minimum, before)
    ensures var now := before + [s]; var least := if s.free < minimum then s.free else minimum;
      if s.total != total then Concluded(Some(TotalChanged), floor, total, minimum, now)
      else if s.free < floor then Concluded(Some(FloorBreached), floor, total, least, now)
      else Steady(floor, total, least, now)
  {
    assert (before + [s])[..|before|] == before;
  }

  lemma {:induction false} FirstIsSteady(floor: int, s: Sample)
    requires floor <= s.free
    ensures Steady(floor, s.total, s.free, [s])
  {
    assert [s][..0] == [];
  }

  /** Nothing was sampled, polled or answered, and no sampler was started. */
  predicate Still(before: Tally, after: Tally) {
    && after == before.(signals := after.signals, stopped := after.stopped, gone := after.gone,
                        sampled := after.sampled)
    && (before.gone ==> after.gone)
  }

  /** Nothing was sampled, polled or answered. */
  predicate Quiet(before: Tally, after: Tally) {
    after.samples == before.samples && after.polls == before.polls && after.replies == before.replies
  }

  class Supervisor {
    const terms: Terms
    const expected: Option<int>
    const decode: Bytes -> Message
    const accepts: Receipt -> bool

    ghost var log: seq<Event>           // what happened
    ghost var trail: seq<Tally>         // what it amounted to before each event and now
    ghost var tally: Tally              // and what it amounts to now
    ghost var attempted: seq<Action>    // clean-up actions, in the order they were attempted
    ghost var stream: Bytes             // everything read from the worker while it was polled
    ghost var handled: seq<Bytes>       // the worker's records, in the order they were handled
    ghost var spawned: bool

    var feed: seq<Sample>               // all that the sampler in use ever reports
    var taken: nat                      // how many of these were taken from it
    var actions: seq<Action>
    var buffer: Bytes
    var identified: bool
    var returncode: Option<int>         // known once the child is reaped
    var paused: bool
    var restartUsed: bool
    var reason: Option<Reason>
    var total: Option<int>
    var minimum: Option<int>
    var ready: Option<Receipt>
    var cleanupEnforced: bool

    /** The rows are those that the first and the second sampler process are going to write. */
    constructor (floor: int, expected: Option<int>, parse: Sampler.Parser, firstRows: seq<Bytes>,
                 secondRows: seq<Bytes>, decode: Bytes -> Message, accepts: Receipt -> bool)
      ensures this.terms.floor == floor && this.expected == expected
      ensures this.terms.first == AsSamples(Sampler.Readings(parse, firstRows))
      ensures this.terms.second == AsSamples(Sampler.Readings(parse, secondRows))
      ensures this.decode == decode && this.accepts == accepts
      ensures Unused()
    {
      this.terms := Terms(floor, AsSamples(Sampler.Readings(parse, firstRows)),
                          AsSamples(Sampler.Readings(parse, secondRows)));
      this.expected, this.decode, this.accepts := expected, decode, accepts;
      log, trail, tally, attempted, stream, handled := [], [EMPTY], EMPTY, [], [], [];
      actions, buffer := [], [];
      spawned, identified, paused, restartUsed, cleanupEnforced := false, false, false, false, false;
      feed, taken := [], 0;
      returncode, reason, total, minimum, ready := None, None, None, None, None;
    }

    ghost predicate Unused()
      reads this
    {
      && log == [] && trail == [EMPTY] && tally == EMPTY && attempted == [] && stream == []
      && handled == [] && actions == [] && buffer == [] && taken == 0
      && !spawned && !identified && !paused && !restartUsed && !cleanupEnforced
      && returncode == None && reason == None && total == None && minimum == None && ready == None
    }

    /** The receipt of the last READY record. */
    ghost function LastReady(records: seq<Bytes>): (r: Option<Receipt>) {
      if records == [] then None
      else
        match decode(records[|records| - 1])
        case Ready(receipt) => Some(receipt)
        case _ => LastReady(records[..|records| - 1])
    }

    /** How many of the records are READY receipts. */
    ghost function Receipts(records: seq<Bytes>): (r: nat) {
      if records == [] then 0
      else Receipts(records[..|records| - 1]) + if decode(records[|records| - 1]).Ready? then 1 else 0
    }

    ghost predicate Acceptable(record: Bytes) {
      Framing.NEWLINE !in record &&
      match decode(record)
      case Phase => true
      case Ready(receipt) => accepts(receipt)
      case Unreadable => false
    }

    ghost predicate AllAcceptable(records: seq<Bytes>) {
      records == [] || (Acceptable(records[|records| - 1]) && AllAcceptable(records[..|records| - 1]))
    }

    lemma {:induction false} EachAcceptable(records: seq<Bytes>)
      requires AllAcceptable(records)
      ensures forall r :: r in records ==> Acceptable(r)
    {
      if records != [] {
        var n := |records| - 1;
        EachAcceptable(records[..n]);
        assert records == records[..n] + [records[n]];
      }
    }

    lemma {:induction false} HandledGrows(records: seq<Bytes>, r: Bytes)
      ensures AllAcceptable(records + [r]) == (AllAcceptable(records) && Acceptable(r))
      ensures LastReady(records + [r]) == if decode(r).Ready? then Some(decode(r).receipt) else LastReady(records)
      ensures Receipts(records + [r]) == Receipts(records) + if decode(r).Ready? then 1 else 0
    {
      assert (records + [r])[..|records|] == records;
    }

    /** What is remembered of the records handled so far; each READY among them was answered. */
    ghost predicate Answered()
      reads this`handled, this`ready, this`tally
    {
      ready == LastReady(handled) && tally.replies == Receipts(handled)
    }

    /** The worker's output so far is the handled records, a newline after each, then the buffer. */
    ghost predicate RecordsHandled()
      reads this`stream, this`handled, this`buffer, this`ready, this`tally
    {
      && stream == Framing.Lines(handled) + buffer
      && AllAcceptable(handled)
      && Answered()
    }

    ghost predicate Logged()
      reads this`log, this`trail, this`tally
    {
      Trails(terms, log, trail) && tally == trail[|log|]
    }

    /** Kept by every step, including those that raise. */
    ghost predicate Core()
      reads this`log, this`trail, this`tally, this`restartUsed, this`returncode, this`identified, this`spawned,
            this`actions, this`feed
    {
      && Logged()
      && tally.starts <= 2 && (!restartUsed ==> tally.starts <= 1)
      && (tally.samples != [] ==> tally.starts > 0)
      && (tally.starts > 0 ==> feed == Feed(terms, tally))
      && (returncode.Some? <==> tally.gone)
      && (identified ==> tally.identified)
      && (spawned ==> WaitChild in actions && TerminateChild in actions)
    }

    /** A living child is paused exactly when the last stop or continue signal stopped it. */
    ghost predicate PauseFits()
      reads this`tally, this`paused
    {
      tally.gone || (paused <==> tally.stopped)
    }

    /** Kept between steps: moreover every sample taken from the sampler in use was recorded. */
    ghost predicate Kept()
      reads this`log, this`trail, this`tally, this`restartUsed, this`returncode, this`identified, this`spawned,
            this`actions, this`feed, this`taken, this`paused
    {
      Core() && PauseFits() && taken == tally.since
    }

    /** None of these samples ended the run, and the minimum is theirs. */
    ghost predicate SteadyOn(samples: seq<Sample>)
      reads this`total, this`minimum
    {
      && total.Some? && minimum.Some? && (expected.Some? ==> total == expected)
      && Steady(terms.floor, total.value, minimum.value, samples)
    }

    /** No sample so far ended the run, and the minimum is that of all samples. */
    ghost predicate Measured()
      reads this`tally, this`total, this`minimum
    {
      SteadyOn(tally.samples)
    }

    /** The last poll still waits for its sample. */
    ghost predicate Due()
      reads this`tally
    {
      |tally.samples| == tally.polls
    }

    /** Every poll was followed by its sample. */
    ghost predicate Watched()
      reads this`tally
    {
      |tally.samples| == tally.polls + 1
    }

    /** The polling loop was left for that reason. */
    ghost predicate Over()
      reads this`tally, this`total, this`minimum, this`reason
    {
      && total.Some? && minimum.Some?
      && (expected.Some? ==> total == expected)
      && Concluded(reason, terms.floor, total.value, minimum.value, tally.samples)
      && if reason in [Some(TelemetryUnavailable), Some(TelemetryMalformed)] then Due() else Watched()
    }

    /** Every complete record was handled. */
    ghost predicate Drained()
      reads this`stream, this`handled, this`buffer, this`ready, this`tally
    {
      RecordsHandled() && Framing.NEWLINE !in buffer
    }

    ghost method Note(e: Event)
      requires Logged() && MayFollow(terms, tally, e)
      modifies this`log, this`trail, this`tally
      ensures Logged() && log == old(log) + [e] && tally == Counted(old(tally), e)
    {
      log, trail, tally := log + [e], trail + [Counted(tally, e)], Counted(tally, e);
    }

    /** `Popen.poll`: may find that the child has exited, and then reaps it. */
    method Poll()
      requires Core()
      modifies this`returncode, this`log, this`trail, this`tally
      ensures Core()
      ensures old(returncode).Some? ==> returncode == old(returncode)
      ensures old(returncode).Some? || returncode == None ==> log == old(log) && tally == old(tally)
      ensures tally == old(tally) || tally == Counted(old(tally), Exited)
    {
      if returncode == None {
        returncode := *;
        if returncode.Some? {
          Note(Exited);
        }
      }
    }

    /** `Popen.wait` with a time-out: reaps the child or raises. */
    method Wait() returns (ok: bool)
      requires Core()
      modifies this`returncode, this`log, this`trail, this`tally
      ensures Core()
      ensures old(returncode).Some? ==> returncode == old(returncode)
      ensures ok == returncode.Some?
      ensures tally == old(tally) || tally == Counted(old(tally), Exited)
    {
      Poll();
      ok := returncode.Some?;
    }

    method SendSignal(signal: Signal) returns (sent: Sent)
      requires Core()
      requires identified && !tally.gone ==> MayFollow(terms, tally, Signalled(signal))
      modifies this`returncode, this`log, this`trail, this`tally
      ensures Core()
      ensures old(returncode).Some? ==> returncode == old(returncode)
      ensures sent == Delivered ==> identified && old(returncode) == returncode == None
      ensures sent == Delivered ==>
        log == old(log) + [Signalled(signal)] && tally == Counted(old(tally), Signalled(signal))
      ensures sent == ChildGone ==> returncode.Some? && (tally == old(tally) || tally == Counted(old(tally), Exited))
      ensures sent == Refused ==> returncode == None && log == old(log) && tally == old(tally)
    {
      Poll();
      if returncode.Some? {
        return ChildGone;
      }
      var authenticated: bool := *;
      if identified && authenticated {
        Note(Signalled(signal));
        return Delivered;
      }
      Poll();
      sent := if returncode.Some? then ChildGone else Refused;
    }

    /** A signal that ends the child, and a bounded wait for its exit. */
    method SignalAndWait(signal: Signal) returns (sent: Sent, reaped: bool)
      requires Kept() && identified && (signal == Kill || (signal == Terminate && !paused))
      modifies this`returncode, this`log, this`trail, this`tally
      ensures old(returncode).Some? ==> returncode == old(returncode)
      ensures reaped ==> returncode.Some?
      ensures (sent == Refused ==> !reaped) && (sent == ChildGone ==> reaped)
      ensures tally.signals == old(tally).signals + if sent == Delivered then [signal] else []
      ensures Kept() && Still(old(tally), tally)
    {
      sent := SendSignal(signal);
      if sent == Refused {
        return sent, false;
      }
      reaped := Wait();
    }

    /** Ends the child, by SIGKILL at once when it is paused. */
    method TerminateOwned() returns (ok: bool, signalled: bool)
      requires Kept()
      modifies this`returncode, this`log, this`trail, this`tally
      ensures old(returncode).Some? ==> returncode == old(returncode)
      ensures ok ==> returncode.Some?
      ensures var began := if paused then Kill else Terminate; var before := old(tally).signals;
        tally.signals == before || tally.signals == before + [began] || tally.signals == before + [began, Kill]
      ensures ok ==> (signalled <==> tally.signals != old(tally).signals)
      ensures Kept() && Still(old(tally), tally)
    {
      if !identified {
        ok := Wait();
        return ok, false;
      }
      ghost var before := tally.signals;
      var began := if paused then Kill else Terminate;
      var sent;
      sent, ok := SignalAndWait(began);
      if sent == Refused {
        return false, false;
      }
      signalled := sent == Delivered;
      if !ok {
        assert before + [began] + [Kill] == before + [began, Kill];
        sent, ok := SignalAndWait(Kill);
        signalled := sent == Delivered || signalled;
      }
    }

    /** One clean-up action; false when it raised. The bytes are what `communicate` still reads. */
    method Attempt(action: Action) returns (ok: bool, tail: Bytes)
      requires Kept()
      modifies this`returncode, this`log, this`trail, this`tally, this`cleanupEnforced, this`attempted
      ensures attempted == old(attempted) + [action]
      ensures old(returncode).Some? ==> returncode == old(returncode)
      ensures ok && action in {WaitChild, Communicate, TerminateChild} ==> returncode.Some?
      ensures Kept() && Still(old(tally), tally)
    {
      attempted := attempted + [action];
      tail := [];
      match action
      case WaitChild =>
        ok := Wait();
      case Communicate =>
        ok := Wait();
        if ok {
          tail := *;
        }
      case TerminateChild =>
        var signalled: bool;
        ok, signalled := TerminateOwned();
        if ok {
          cleanupEnforced := signalled || cleanupEnforced;
        }
      case _ =>
        ok := *;
    }

    /** Every registered action is attempted, last registered first, whatever the others do. */
    method CleanUp() returns (ok: bool, tail: Bytes)
      requires Kept() && attempted == []
      modifies this`returncode, this`log, this`trail, this`tally, this`cleanupEnforced, this`attempted
      ensures attempted == Reversed(actions)
      ensures ok && WaitChild in actions ==> returncode.Some?
      ensures Kept() && Still(old(tally), tally)
    {
      ok, tail := true, [];
      var i := |actions|;
      while i > 0
        invariant 0 <= i <= |actions|
        invariant attempted == Reversed(actions[i..])
        invariant ok && WaitChild in actions[i..] ==> returncode.Some?
        invariant Kept() && Still(old(tally), tally)
      {
        i := i - 1;
        assert actions[i..][1..] == actions[i + 1..];
        var done, more := Attempt(actions[i]);
        ok := ok && done;
        tail := tail + more;
      }
      assert actions[0..] == actions;
    }

    /** Starts a sampler and registers its end. The process can fail to start, and its constructor can
        raise once it runs; then it ends the process itself and owns nothing. */
    method StartSampler() returns (ok: bool)
      requires Kept() && tally.starts == (if restartUsed then 1 else 0)
      requires restartUsed ==> tally.stopped || tally.gone
      modifies this`log, this`trail, this`tally, this`actions, this`feed, this`taken
      ensures Kept() && Quiet(old(tally), tally)
      ensures log == old(log) || log == old(log) + [SamplerStarted]
      ensures ok ==> tally.starts == old(tally).starts + 1 && actions == old(actions) + [StopSampler]
      ensures !ok ==> actions == old(actions)
    {
      var started: bool := *;
      if !started {
        return false;
      }
      Note(SamplerStarted);
      feed, taken := if restartUsed then terms.second else terms.first, 0;
      ok := *;
      if ok {
        actions := actions + [StopSampler];
      }
    }

    /** `sampler.sample()` of the sampler in use: the next sample it reports, which is thereby taken, a
        failure that a restart may mend, or any other exception. */
    method AskSampler() returns (heard: Heard)
      requires Core() && tally.starts > 0 && taken == tally.since
      modifies this`taken
      ensures heard.Got? ==> taken == old(taken) + 1 <= |feed| && heard.sample == feed[old(taken)]
      ensures !heard.Got? ==> taken == old(taken)
    {
      heard := *;
      if heard.Got? {
        if taken < |feed| {
          heard := Got(feed[taken]);
          taken := taken + 1;
        } else {
          heard := Lost;
        }
      }
    }

    /** A sample just taken from the sampler goes on record. */
    method Record(sample: Sample)
      requires Core() && tally.starts > 0 && Due()
      requires taken == tally.since + 1 <= |feed| && sample == feed[tally.since]
      modifies this`log, this`trail, this`tally
      ensures Core() && taken == tally.since
      ensures log == old(log) + [Recorded(sample)] && tally == Counted(old(tally), Recorded(sample))
    {
      Note(Recorded(sample));
    }

    /** SIGSTOP, unless the child is paused already. */
    method StopChild() returns (ok: bool)
      requires Kept()
      modifies this`log, this`trail, this`tally, this`paused, this`returncode
      ensures old(returncode).Some? ==> returncode == old(returncode)
      ensures Kept() && Still(old(tally), tally)
      ensures ok ==> paused && (tally.stopped || tally.gone)
    {
      if !paused {
        var sent := SendSignal(Stop);
        if sent == Refused {
          return false;
        }
        paused := true;
      }
      return true;
    }

    /** A sample was lost: stops the child, then replaces the sampler unless that was done before. */
    method Recover() returns (ok: bool)
      requires Kept() && reason == None && tally.starts > 0
      modifies this`log, this`trail, this`tally, this`actions, this`paused, this`restartUsed, this`reason,
               this`returncode, this`feed, this`taken
      ensures old(returncode).Some? ==> returncode == old(returncode)
      ensures Kept() && Quiet(old(tally), tally) && old(actions) <= actions
      ensures ok ==> paused && (tally.stopped || tally.gone) && tally.starts > 0
      ensures ok && reason == None ==> restartUsed && !old(restartUsed)
      ensures reason == None || reason == Some(TelemetryUnavailable)
    {
      ok := StopChild();
      if !ok {
        return;
      }
      if restartUsed {
        reason := Some(TelemetryUnavailable);
        return;
      }
      ok := *;
      if ok {
        restartUsed := true;
        ok := StartSampler();
      }
    }

    method Resume() returns (ok: bool)
      requires Kept() && tally.sampled && tally.samples != [] && AllAbove(tally.samples, terms.floor)
      requires OneTotal(tally.samples, tally.samples[|tally.samples| - 1].total)
      modifies this`log, this`trail, this`tally, this`paused, this`returncode
      ensures old(returncode).Some? ==> returncode == old(returncode)
      ensures Kept() && Still(old(tally), tally)
      ensures ok ==> !paused
    {
      if paused {
        var sent := SendSignal(Continue);
        if sent == Refused {
          return false;
        }
        paused := false;
      }
      return true;
    }

    /** A recorded sample is compared with the total and the floor, and only then may a paused child
        continue. */
    method Compare(sample: Sample, ghost before: seq<Sample>) returns (r: Sampled)
      requires Kept() && reason == None && total.Some?
      requires tally.sampled && tally.samples == before + [sample]
      requires OneTotal(before, total.value) && AllAbove(before, terms.floor)
      modifies this`log, this`trail, this`tally, this`paused, this`reason, this`total, this`returncode
      ensures old(returncode).Some? ==> returncode == old(returncode)
      ensures Kept() && total == old(total) && Still(old(tally), tally)
      ensures r.Nothing? ==> reason == Some(TotalChanged) && Some(sample.total) != total
      ensures r.Taken? ==> r.sample == sample && Some(sample.total) == total
      ensures r.Taken? ==> ((reason == None && terms.floor <= sample.free && !paused) ||
                            (reason == Some(FloorBreached) && sample.free < terms.floor))
    {
      if Some(sample.total) != total {
        reason := Some(TotalChanged);
        return Nothing;
      }
      total := Some(sample.total);
      if sample.free < terms.floor {
        reason := Some(FloorBreached);
        return Taken(sample);
      }
      assert (before + [sample])[..|before|] == before;
      var ok := Resume();
      return if ok then Taken(sample) else Raised;
    }

    /** A sample was heard: it is recorded and compared. */
    method Judge(sample: Sample) returns (r: Sampled)
      requires Core() && PauseFits() && Measured() && reason == None && Due()
      requires taken == tally.since + 1 <= |feed| && sample == feed[tally.since]
      modifies this`log, this`trail, this`tally, this`paused, this`reason, this`total, this`returncode
      ensures old(returncode).Some? ==> returncode == old(returncode)
      ensures Kept() && total == old(total)
      ensures Still(Counted(old(tally), Recorded(sample)), tally)
      ensures r.Nothing? ==> reason == Some(TotalChanged) && Some(sample.total) != total
      ensures r.Taken? ==> r.sample == sample && Some(sample.total) == total
      ensures r.Taken? ==> ((reason == None && terms.floor <= sample.free && !paused) ||
                            (reason == Some(FloorBreached) && sample.free < terms.floor))
    {
      ghost var before := tally.samples;
      Record(sample);
      r := Compare(sample, before);
    }

    /** Whatever the sample call ends with, this is how the samples then stand. */
    ghost predicate Sampling(before: Tally, r: Sampled)
      reads this`tally, this`reason, this`total, this`paused
    {
      && tally.polls == before.polls && tally.replies == before.replies
      && match r
         case Raised => true
         case Nothing =>
           (reason in [Some(TelemetryUnavailable), Some(TelemetryMalformed)] && tally.samples == before.samples) ||
           (reason == Some(TotalChanged) &&
            exists s :: tally.samples == before.samples + [s] && Some(s.total) != total)
         case Taken(sample) =>
           && tally.samples == before.samples + [sample] && Some(sample.total) == total
           && ((reason == None && terms.floor <= sample.free && !paused) ||
               (reason == Some(FloorBreached) && sample.free < terms.floor))
    }

    /** One sample, with at most one restart of the sampler while the child is stopped. */
    method TakeSample() returns (r: Sampled)
      requires Kept() && Measured() && Due() && !paused && reason == None
      modifies this`log, this`trail, this`tally, this`actions, this`paused, this`restartUsed, this`reason, this`total,
               this`returncode, this`feed, this`taken
      ensures old(returncode).Some? ==> returncode == old(returncode)
      ensures Kept() && total == old(total) && old(actions) <= actions
      ensures Sampling(old(tally), r)
    {
      var attempt := 1;
      while attempt <= 2
        invariant 1 <= attempt <= 2
        invariant Kept() && Measured() && reason == None && total == old(total)
        invariant Quiet(old(tally), tally) && old(actions) <= actions
        invariant attempt == 2 ==> restartUsed
        invariant old(returncode).Some? ==> returncode == old(returncode)
      {
        var heard := AskSampler();
        match heard
        case Lost =>
          var ok := Recover();
          if !ok {
            return Raised;
          }
          if reason != None {
            return Nothing;
          }
          attempt := attempt + 1;
        case Broken =>
          reason := Some(TelemetryMalformed);
          return Nothing;
        case Got(sample) =>
          r := Judge(sample);
          return;
      }
      assert false;
    }

    /** Answers a receipt with the minimum so far; the write may raise. */
    method Reply() returns (ok: bool)
      requires Kept() && Measured()
      modifies this`log, this`trail, this`tally
      ensures Kept()
      ensures ok ==> log == old(log) + [Replied(minimum.value)] && tally == Counted(old(tally), Replied(minimum.value))
      ensures !ok ==> log == old(log) && tally == old(tally)
    {
      ok := *;
      if ok {
        Note(Replied(minimum.value));
      }
    }

    /** Handles one worker record; false when it raised. A READY record is answered. */
    method HandleRecord(record: Bytes) returns (ok: bool)
      requires Kept() && Measured() && Answered() && Framing.NEWLINE !in record
      modifies this`log, this`trail, this`tally, this`ready, this`handled
      ensures Kept() && handled == old(handled) + [record]
      ensures tally.samples == old(tally).samples && tally.polls == old(tally).polls
      ensures ok ==> Acceptable(record) && Answered()
      ensures ok && decode(record).Ready? ==> log == old(log) + [Replied(minimum.value)]
      ensures !decode(record).Ready? ==> log == old(log)
      ensures AllAcceptable(handled) == (AllAcceptable(old(handled)) && Acceptable(record))
    {
      HandledGrows(handled, record);
      match decode(record) {
        case Phase =>
          ok := true;
        case Ready(receipt) =>
          ok := accepts(receipt);
          if ok {
            ready := Some(receipt);
            ok := Reply();
          }
        case Unreadable =>
          ok := false;
      }
      handled := handled + [record];
    }

    /** `partition` at the first newline: the record leaves the front of the buffer. */
    method TakeRecord() returns (record: Bytes)
      requires Framing.NEWLINE in buffer && stream == Framing.Lines(handled) + buffer
      modifies this`buffer
      ensures |buffer| < |old(buffer)| && Framing.NEWLINE !in record
      ensures stream == Framing.Lines(handled + [record]) + buffer
    {
      var i := Framing.FirstNewline(buffer);
      assert buffer[..|buffer|] == buffer;
      record := buffer[..i];
      assert buffer == record + [Framing.NEWLINE] + buffer[i + 1..];
      Framing.LineMoves(handled, record, buffer[i + 1..]);
      buffer := buffer[i + 1..];
    }

    method HandleNext() returns (ok: bool)
      requires Kept() && Measured() && RecordsHandled() && Framing.NEWLINE in buffer
      modifies this`log, this`trail, this`tally, this`ready, this`handled, this`buffer
      ensures Kept() && |buffer| < |old(buffer)|
      ensures tally.samples == old(tally).samples && tally.polls == old(tally).polls
      ensures ok ==> RecordsHandled()
    {
      var record := TakeRecord();
      ghost var before := handled;
      ok := HandleRecord(record);
      assert handled == before + [record] && stream == Framing.Lines(handled) + buffer;
    }

    /** Reads what the worker wrote and handles every complete record; false when one raised. */
    method Pump(chunk: Bytes) returns (ok: bool)
      requires Kept() && Measured() && RecordsHandled()
      modifies this`log, this`trail, this`tally, this`ready, this`handled, this`buffer, this`stream
      ensures Kept() && tally.samples == old(tally).samples && tally.polls == old(tally).polls
      ensures stream == old(stream) + chunk
      ensures ok ==> Drained()
    {
      buffer, stream := buffer + chunk, stream + chunk;
      ok := true;
      while ok && Framing.NEWLINE in buffer
        invariant Kept() && tally.samples == old(tally).samples && tally.polls == old(tally).polls
        invariant stream == old(stream) + chunk
        invariant ok ==> RecordsHandled()
        decreases |buffer|
      {
        ok := HandleNext();
      }
    }

    /** The total and the minimum start from the startup sample, if it is acceptable. */
    method Accept(sample: Sample) returns (ok: bool)
      requires tally.samples == [sample]
      modifies this`total, this`minimum
      ensures ok ==> Measured()
    {
      total, minimum := Some(sample.total), Some(sample.free);
      ok := (expected.Some? ==> sample.total == expected.value) && terms.floor <= sample.free;
      if ok {
        FirstIsSteady(terms.floor, sample);
      }
    }

    /** The startup sample, taken before there is a child. */
    method FirstSample() returns (ok: bool)
      requires Kept() && tally.samples == [] && tally.polls == 0 && tally.starts > 0
      modifies this`log, this`trail, this`tally, this`total, this`minimum, this`taken
      ensures Kept() && tally.replies == old(tally).replies
      ensures ok ==> Measured() && Watched()
    {
      var heard := AskSampler();
      if !heard.Got? {
        return false;
      }
      Record(heard.sample);
      assert tally.samples == [heard.sample];
      ok := Accept(heard.sample);
    }

    /** The child, and with it the actions that end and reap it. */
    method Spawn() returns (ok: bool)
      requires Kept()
      modifies this`actions, this`spawned
      ensures Kept()
      ensures ok ==> spawned
    {
      ok := *;
      if ok {
        spawned := true;
        actions := actions + [WaitChild, CloseStream, CloseStream, CloseStream, Communicate, TerminateChild];
        assert actions[|actions| - 6] == WaitChild && actions[|actions| - 1] == TerminateChild;
      }
    }

    method Identify() returns (ok: bool)
      requires Kept()
      modifies this`log, this`trail, this`tally, this`identified
      ensures Kept() && Quiet(old(tally), tally)
      ensures ok ==> identified
    {
      ok := *;
      if ok {
        Note(Identified);
        identified := true;
      }
    }

    /** The sampler and the startup sample. */
    method BeginTelemetry() returns (ok: bool)
      requires Unused()
      modifies this`log, this`trail, this`tally, this`actions, this`total, this`minimum, this`feed, this`taken
      ensures Kept() && tally.replies == 0
      ensures ok ==> Measured() && Watched()
    {
      ok := StartSampler();
      if ok {
        ok := FirstSample();
      }
    }

    /** The child, its identity and the selector for its output. */
    method BeginChild() returns (ok: bool)
      requires Kept()
      modifies this`log, this`trail, this`tally, this`actions, this`identified, this`spawned
      ensures Kept() && Quiet(old(tally), tally)
      ensures ok ==> spawned && identified
    {
      ok := Spawn();
      if ok {
        ok := Identify();
      }
      if ok {
        ok := *;
        if ok {
          actions := actions + [CloseSelector];
        }
      }
    }

    /** Before the polling loop: the sampler, the startup sample, then the child and its identity. */
    method Begin() returns (ok: bool)
      requires Unused()
      modifies this`log, this`trail, this`tally, this`actions, this`total, this`minimum, this`identified,
               this`spawned, this`feed, this`taken
      ensures Kept() && tally.replies == 0
      ensures ok ==> Measured() && Watched() && spawned && identified
    {
      ok := BeginTelemetry();
      if ok {
        ok := BeginChild();
      }
    }

    /** The loop is left without a sample, or with one of another total. */
    lemma {:induction false} NothingConcludes(before: Tally)
      requires SteadyOn(before.samples) && |before.samples| == before.polls && Sampling(before, Nothing)
      ensures Over()
    {
      if reason == Some(TotalChanged) {
        var s :| tally.samples == before.samples + [s] && Some(s.total) != total;
        SampleConcludes(terms.floor, total.value, minimum.value, before.samples, s);
      }
    }

    /** The sample just taken goes into the minimum. */
    method Fold(sample: Sample, ghost before: Tally)
      requires SteadyOn(before.samples) && |before.samples| == before.polls && Sampling(before, Taken(sample))
      modifies this`minimum
      ensures Over() && Watched() && (reason == None ==> Measured())
    {
      SampleConcludes(terms.floor, total.value, minimum.value, before.samples, sample);
      minimum := Some(if sample.free < minimum.value then sample.free else minimum.value);
    }

    /** Samples once and folds the sample into the minimum; false when it raised. */
    method Observe() returns (ok: bool, done: bool)
      requires Kept() && Measured() && Due() && !paused && reason == None
      modifies this`log, this`trail, this`tally, this`actions, this`paused, this`restartUsed, this`reason, this`total,
               this`minimum, this`returncode, this`feed, this`taken
      ensures Kept() && old(actions) <= actions && tally.replies == old(tally).replies
      ensures ok ==> Over() && (done <==> reason != None)
      ensures ok && !done ==> Measured() && Watched() && !paused
    {
      ghost var before := tally;
      var r := TakeSample();
      match r {
        case Raised =>
          return false, true;
        case Nothing =>
          NothingConcludes(before);
          return true, true;
        case Taken(sample) =>
          Fold(sample, before);
          return true, reason != None;
      }
    }

    /** The loop's own poll of the child. */
    method PollChild() returns (alive: bool)
      requires Kept() && Watched()
      modifies this`returncode, this`log, this`trail, this`tally
      ensures Kept() && tally.samples == old(tally).samples && tally.replies == old(tally).replies
      ensures alive <==> returncode == None
      ensures alive ==> log == old(log) + [Polled] && Due()
      ensures !alive ==> Watched()
    {
      Poll();
      alive := returncode == None;
      if alive {
        Note(Polled);
      }
    }

    /** After a sample: the worker's records, then the two deadlines. */
    method Serve() returns (ok: bool, done: bool)
      requires Kept() && Measured() && Watched() && Drained() && reason == None
      modifies this`log, this`trail, this`tally, this`reason, this`ready, this`handled, this`buffer, this`stream
      ensures Kept() && (ok ==> Over() && Drained())
      ensures ok && !done ==> Measured() && Watched() && reason == None
    {
      var chunk: Bytes := *;
      ok := Pump(chunk);
      done := false;
      if !ok {
        return;
      }
      var late: bool := *;
      if ready == None && late {
        reason := Some(RuntimeExceeded);
        return true, true;
      }
      var graceOver: bool := *;
      done := ready.Some? && graceOver;
    }

    /** One turn of the polling loop after a poll that found the child alive: false when it raised. The
        loop is left when `done` is set. */
    method Turn() returns (ok: bool, done: bool)
      requires Kept() && Measured() && Due() && Drained() && !paused && reason == None
      modifies this`log, this`trail, this`tally, this`actions, this`paused, this`restartUsed, this`reason, this`total,
               this`minimum, this`returncode, this`ready, this`handled, this`buffer, this`stream, this`feed, this`taken
      ensures Kept() && old(actions) <= actions
      ensures ok ==> Over() && Drained()
      ensures ok && !done ==> Measured() && Watched() && reason == None && !paused
    {
      ok, done := Observe();
      if ok && !done {
        ok, done := Serve();
      }
    }

    /** The polling loop. A run polls a child that has not exited any finite number of times; `turns`
        is that number. */
    method Watch(turns: nat) returns (ok: bool)
      requires Kept() && Measured() && Watched() && Drained() && !paused && reason == None
      modifies this`log, this`trail, this`tally, this`actions, this`paused, this`restartUsed, this`reason, this`total,
               this`minimum, this`returncode, this`ready, this`handled, this`buffer, this`stream, this`feed, this`taken
      ensures Kept() && (ok ==> Over() && Drained())
    {
      ok := true;
      var i, done := 0, false;
      while ok && !done && i < turns
        invariant Kept()
        invariant ok ==> Over() && Drained()
        invariant ok && !done ==> Measured() && Watched() && reason == None && !paused
        decreases turns - i
      {
        var alive := PollChild();
        if !alive {
          done := true;
        } else {
          ok, done := Turn();
        }
        i := i + 1;
      }
    }

    lemma {:induction false} NothingHandled()
      requires stream == [] && handled == [] && buffer == [] && ready == None && tally.replies == 0
      ensures Drained()
    {
    }

    /** The `with` block, before its clean-up. */
    method Body(turns: nat) returns (ok: bool)
      requires Unused()
      modifies this
      ensures Kept() && attempted == []
      ensures ok ==> Over() && Drained() && spawned && identified
    {
      ok := Begin();
      if ok {
        NothingHandled();
        ok := Watch(turns);
      }
    }

    /** The `with` block and the clean-up that follows it in every case; false when either raised. */
    method WatchAndCleanUp(turns: nat) returns (ok: bool, tail: Bytes)
      requires Unused()
      modifies this
      ensures Kept() && attempted == Reversed(actions)
      ensures ok ==> Over() && Drained() && spawned && identified && returncode.Some?
    {
      ok := Body(turns);
      var cleaned: bool;
      cleaned, tail := CleanUp();
      ok := ok && cleaned;
    }

    /** A whole supervised run; None when it raised. */
    method Supervise(turns: nat) returns (r: Option<WatchdogResult>)
      requires Unused()
      modifies this
      ensures Lawful(terms, log)
      ensures exists i, j :: 0 <= i <= |terms.first| && 0 <= j <= |terms.second| &&
                             Samples(log) == terms.first[..i] + terms.second[..j]
      ensures attempted == Reversed(actions)
      ensures spawned ==> TerminateChild in attempted && WaitChild in attempted
      ensures r.Some? ==> returncode == Some(r.value.returncode) && spawned
      ensures r.Some? ==> Tallied(log).identified && Tallied(log).gone
      ensures r.Some? ==> Explains(r.value, terms.floor, Samples(log))
      ensures r.Some? && r.value.reason !in [Some(TelemetryUnavailable), Some(TelemetryMalformed)] ==>
                |Samples(log)| == Tallied(log).polls + 1
      ensures r.Some? && expected.Some? ==> r.value.total == expected.value
      ensures r.Some? ==> (forall record :: record in Framing.Records(stream) ==> Acceptable(record))
      ensures r.Some? ==> Blank(Framing.Rest(stream)) && r.value.ready == LastReady(Framing.Records(stream))
      ensures r.Some? ==> Tallied(log).replies == Receipts(Framing.Records(stream))
      ensures r.Some? && r.value.reason == None ==>
                r.value.ready.Some? && (r.value.returncode == 0 || r.value.cleanupEnforced)
    {
      var ok, tail := WatchAndCleanUp(turns);
      TrailIsLawful(terms, log, trail);
      ghost var i, j := SamplesAreReported(terms, log);
      ReversedHas(actions, TerminateChild);
      ReversedHas(actions, WaitChild);
      if !ok {
        return None;
      }
      EachAcceptable(handled);
      Framing.FramingIsUnique(handled, buffer);
      if !Blank(buffer + tail) {
        return None;
      }
      assert Blank(buffer) by {
        assert forall b :: b in buffer ==> b in buffer + tail;
      }
      var complained: bool := *;
      if complained {
        return None;
      }
      if reason == None && (ready == None || (returncode.value != 0 && !cleanupEnforced)) {
        return None;
      }
      var result := WatchdogResult(reason, minimum.value, total.value, returncode.value, ready, cleanupEnforced);
      ConclusionExplains(result, terms.floor, tally.samples);
      return Some(result);
    }
  }
}
