/** What one supervised run of a GPU worker leaves behind, and what every prefix of it must satisfy. */
module SupervisedRun {
  datatype Sample = Sample(total: int, free: int)

  datatype Signal = Stop | Continue | Terminate | Kill

  datatype Event =
    | SamplerStarted
    | Identified                 // the child's initial identity was observed
    | Polled                     // the polling loop found the child alive
    | Recorded(sample: Sample)
    | Signalled(signal: Signal)  // delivered to the authenticated child
    | Replied(minimum: int)      // answered to a READY receipt
    | Exited                     // the child's exit was observed

  /** What a log amounts to: the samples, the samplers started and the samples since the last start, the
      polls, the replies, the signals, whether the last stop or continue signal was a stop, whether the
      child was seen to have exited, whether it was identified, and whether the last event is a sample. */
  datatype Tally = Tally(samples: seq<Sample>, starts: nat, since: nat, polls: nat, replies: nat,
                         signals: seq<Signal>, stopped: bool, gone: bool, identified: bool, sampled: bool)

  const EMPTY: Tally := Tally([], 0, 0, 0, 0, [], false, false, false, false)

  function Counted(tally: Tally, e: Event): (next: Tally) {
    var t := tally.(sampled := e.Recorded?);
    match e
    case SamplerStarted => t.(starts := t.starts + 1, since := 0)
    case Identified => t.(identified := true)
    case Polled => t.(polls := t.polls + 1)
    case Recorded(sample) => t.(samples := t.samples + [sample], since := t.since + 1)
    case Signalled(signal) =>
      t.(signals := t.signals + [signal], stopped := signal == Stop || (t.stopped && signal != Continue))
    case Replied(_) => t.(replies := t.replies + 1)
    case Exited => t.(gone := true)
  }

  function Tallied(log: seq<Event>): (tally: Tally) {
    if log == [] then EMPTY else Counted(Tallied(log[..|log| - 1]), log[|log| - 1])
  }

  function Samples(log: seq<Event>): (samples: seq<Sample>) {
    Tallied(log).samples
  }

  predicate OneTotal(samples: seq<Sample>, total: int) {
    samples == [] || (samples[|samples| - 1].total == total && OneTotal(samples[..|samples| - 1], total))
  }

  predicate AllAbove(samples: seq<Sample>, floor: int) {
    samples == [] || (floor <= samples[|samples| - 1].free && AllAbove(samples[..|samples| - 1], floor))
  }

  function Least(samples: seq<Sample>): (r: int)
    requires samples != []
  {
    var last := samples[|samples| - 1].free;
    if |samples| == 1 then last
    else
      var before := Least(samples[..|samples| - 1]);
      if before <= last then before else last
  }

  lemma {:induction false} TotalsAndFloors(samples: seq<Sample>, total: int, floor: int)
    ensures OneTotal(samples, total) <==> forall s :: s in samples ==> s.total == total
    ensures AllAbove(samples, floor) <==> forall s :: s in samples ==> floor <= s.free
  {
    if samples != [] {
      var n := |samples| - 1;
      TotalsAndFloors(samples[..n], total, floor);
      assert samples == samples[..n] + [samples[n]];
    }
  }

  lemma {:induction false} LeastIsLeast(samples: seq<Sample>)
    requires samples != []
    ensures exists s :: s in samples && s.free == Least(samples)
    ensures forall s :: s in samples ==> Least(samples) <= s.free
  {
    var n := |samples| - 1;
    assert samples == samples[..n] + [samples[n]];
    assert samples[n] in samples;
    if n > 0 {
      LeastIsLeast(samples[..n]);
    }
  }

  /** The memory floor, and all that the first and the second sampler ever report. */
  datatype Terms = Terms(floor: int, first: seq<Sample>, second: seq<Sample>)

  /** What the sampler in use reports. */
  function Feed(terms: Terms, tally: Tally): (feed: seq<Sample>) {
    if tally.starts == 0 then [] else if tally.starts == 1 then terms.first else terms.second
  }

  /** May this event come next? */
  predicate MayFollow(terms: Terms, t: Tally, e: Event) {
    match e
    case SamplerStarted => t.starts == 0 || (t.starts == 1 && (t.stopped || t.gone))
    case Polled => !t.gone && |t.samples| == t.polls + 1
    case Recorded(sample) =>
      && t.since < |Feed(terms, t)| && sample == Feed(terms, t)[t.since]
      && |t.samples| == t.polls
    case Signalled(signal) =>
      && t.identified && !t.gone
      && (signal == Stop ==> !t.stopped)
      && (signal == Terminate ==> !t.stopped)
      && (signal == Continue ==>
            && t.stopped && t.sampled && t.samples != []
            && AllAbove(t.samples, terms.floor)
            && OneTotal(t.samples, t.samples[|t.samples| - 1].total))
    case Replied(m) => t.samples != [] && m == Least(t.samples) && AllAbove(t.samples, terms.floor)
    case Exited => !t.gone
    case Identified => true
  }

  predicate Lawful(terms: Terms, log: seq<Event>) {
    log == [] ||
    (Lawful(terms, log[..|log| - 1]) && MayFollow(terms, Tallied(log[..|log| - 1]), log[|log| - 1]))
  }

  /** The tallies of every prefix of a lawful log. */
  ghost predicate Trails(terms: Terms, log: seq<Event>, trail: seq<Tally>) {
    && |trail| == |log| + 1 && trail[0] == EMPTY
    && (forall i {:trigger log[i]} :: 0 <= i < |log| ==>
          MayFollow(terms, trail[i], log[i]) && trail[i + 1] == Counted(trail[i], log[i]))
  }

  lemma {:induction false} TrailIsLawful(terms: Terms, log: seq<Event>, trail: seq<Tally>)
    requires Trails(terms, log, trail)
    ensures Lawful(terms, log) && Tallied(log) == trail[|log|]
  {
    if log != [] {
      var n := |log| - 1;
      TrailIsLawful(terms, log[..n], trail[..n + 1]);
      assert MayFollow(terms, trail[n], log[n]);
    }
  }

  /** Every event of a lawful log was allowed where it happened. */
  lemma {:induction false} LawfulEverywhere(terms: Terms, log: seq<Event>, i: nat)
    requires Lawful(terms, log) && i < |log|
    ensures MayFollow(terms, Tallied(log[..i]), log[i])
  {
    if i < |log| - 1 {
      assert log[..|log| - 1][..i] == log[..i];
      LawfulEverywhere(terms, log[..|log| - 1], i);
    }
  }

  /** In every lawful log: a sampler is started at most twice. */
  lemma {:induction false} AtMostTwoSamplers(terms: Terms, log: seq<Event>)
    requires Lawful(terms, log)
    ensures Tallied(log).starts <= 2
  {
    if log != [] {
      AtMostTwoSamplers(terms, log[..|log| - 1]);
    }
  }

  /** A sampler is replaced only while the child is stopped or has exited. */
  lemma {:induction false} ReplacedWhileStopped(terms: Terms, log: seq<Event>, i: nat)
    requires Lawful(terms, log) && i < |log| && log[i] == SamplerStarted && Tallied(log[..i]).starts > 0
    ensures Tallied(log[..i]).stopped || Tallied(log[..i]).gone
  {
    LawfulEverywhere(terms, log, i);
  }

  /** Nothing is sent to a child that was seen to have exited, nor to one that was not identified. */
  lemma {:induction false} SignalledAlive(terms: Terms, log: seq<Event>, i: nat)
    requires Lawful(terms, log) && i < |log| && log[i].Signalled?
    ensures Tallied(log[..i]).identified && !Tallied(log[..i]).gone
  {
    LawfulEverywhere(terms, log, i);
  }

  /** The child is continued only when it is stopped, straight after a sample, and when every sample so
      far met the floor and showed that sample's total. */
  lemma {:induction false} ContinuedOnGoodTelemetry(terms: Terms, log: seq<Event>, i: nat)
    requires Lawful(terms, log) && i < |log| && log[i] == Signalled(Continue)
    ensures Tallied(log[..i]).identified && Tallied(log[..i]).stopped
    ensures i > 0 && log[i - 1].Recorded?
    ensures forall s :: s in Samples(log[..i]) ==> terms.floor <= s.free && s.total == log[i - 1].sample.total
  {
    LawfulEverywhere(terms, log, i);
    assert log[..i] != [] && log[..i][i - 1] == log[i - 1];
    TotalsAndFloors(Samples(log[..i]), log[i - 1].sample.total, terms.floor);
  }

  /** A READY receipt is answered with the minimum of every sample so far. */
  lemma {:induction false} RepliesAreExact(terms: Terms, log: seq<Event>, i: nat)
    requires Lawful(terms, log) && i < |log| && log[i].Replied?
    ensures exists s :: s in Samples(log[..i]) && s.free == log[i].minimum
    ensures forall s :: s in Samples(log[..i]) ==> terms.floor <= log[i].minimum <= s.free
  {
    LawfulEverywhere(terms, log, i);
    TotalsAndFloors(Samples(log[..i]), 0, terms.floor);
    LeastIsLeast(Samples(log[..i]));
  }

  lemma {:induction false} CountedFollowsPolls(terms: Terms, t: Tally, e: Event)
    requires MayFollow(terms, t, e) && t.polls <= |t.samples| <= t.polls + 1
    ensures Counted(t, e).polls <= |Counted(t, e).samples| <= Counted(t, e).polls + 1
  {
  }

  /** There is the startup sample, and at most one more sample for each poll. */
  lemma {:induction false} SamplesFollowPolls(terms: Terms, log: seq<Event>)
    requires Lawful(terms, log)
    ensures Tallied(log).polls <= |Samples(log)| <= Tallied(log).polls + 1
  {
    if log != [] {
      var n := |log| - 1;
      SamplesFollowPolls(terms, log[..n]);
      CountedFollowsPolls(terms, Tallied(log[..n]), log[n]);
    }
  }

  lemma {:induction false} NoPollBetween(log: seq<Event>, i: nat, j: nat)
    requires i < j <= |log| && log[i].Polled?
    requires forall k :: i < k < j ==> !log[k].Polled?
    ensures Tallied(log[..j]).polls == Tallied(log[..i]).polls + 1
  {
    assert log[..j][..j - 1] == log[..j - 1] && log[..j][j - 1] == log[j - 1];
    if i < j - 1 {
      NoPollBetween(log, i, j - 1);
    }
  }

  /** Between one poll that finds the child alive and the next, exactly one sample is recorded. */
  lemma {:induction false} OneSampleBetweenPolls(terms: Terms, log: seq<Event>, i: nat, j: nat)
    requires Lawful(terms, log) && i < j < |log| && log[i].Polled? && log[j].Polled?
    requires forall k :: i < k < j ==> !log[k].Polled?
    ensures |Samples(log[..j])| == |Samples(log[..i])| + 1
  {
    LawfulEverywhere(terms, log, i);
    LawfulEverywhere(terms, log, j);
    NoPollBetween(log, i, j);
  }

  /** The samples are the first i that the first sampler reports, then the first j of the second. */
  ghost predicate Reported(terms: Terms, t: Tally, i: nat, j: nat) {
    && i <= |terms.first| && j <= |terms.second| && t.samples == terms.first[..i] + terms.second[..j]
    && t.starts <= 2
    && (t.starts == 0 ==> i == j == 0)
    && (t.starts == 1 ==> j == 0 && i == t.since)
    && (t.starts == 2 ==> j == t.since)
  }

  lemma {:induction false} RecordedIsReported(terms: Terms, t: Tally, i: nat, j: nat, sample: Sample)
    requires Reported(terms, t, i, j) && MayFollow(terms, t, Recorded(sample))
    ensures var next := Counted(t, Recorded(sample));
      if t.starts == 1 then Reported(terms, next, i + 1, j) else Reported(terms, next, i, j + 1)
  {
    if t.starts == 1 {
      assert terms.first[..i + 1] == terms.first[..i] + [sample];
    } else {
      assert terms.second[..j + 1] == terms.second[..j] + [sample];
    }
  }

  lemma {:induction false} OthersAreReported(terms: Terms, t: Tally, i: nat, j: nat, e: Event)
    requires Reported(terms, t, i, j) && MayFollow(terms, t, e) && !e.Recorded?
    ensures Reported(terms, Counted(t, e), i, j)
  {
  }

  /** The samples of a run are a prefix of what its first sampler reports, and then, after a restart, of
      what the second one reports: none is repeated, skipped or reordered. */
  lemma {:induction false} SamplesAreReported(terms: Terms, log: seq<Event>) returns (i: nat, j: nat)
    requires Lawful(terms, log)
    ensures Reported(terms, Tallied(log), i, j)
  {
    i, j := 0, 0;
    if log != [] {
      var n := |log| - 1;
      i, j := SamplesAreReported(terms, log[..n]);
      var t := Tallied(log[..n]);
      if log[n].Recorded? {
        RecordedIsReported(terms, t, i, j, log[n].sample);
        if t.starts == 1 {
          i := i + 1;
        } else {
          j := j + 1;
        }
      } else {
        OthersAreReported(terms, t, i, j, log[n]);
      }
    }
  }
}
