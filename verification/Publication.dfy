/** The publication protocol: stage, seal, rename, verify, record. Every file operation is a separate
    step, a crash may fall between any two, and reconciliation resumes what a crash left. */
module Publication {
  import opened Ascending
  import opened Journal
  import opened Bundles

  /** What the one live process of an attempt does next. */
  datatype Stage =
    | Writing           // payload files go into the staging directory
    | ManifestWritten
    | Sealed
    | StagingVerified
    | Renamed
    | Recording         // the published bundle has been verified
    | Failing           // an exception was raised

  /** What exists on disk for one attempt, and the stage of its live process, if it has one. */
  datatype Local = Local(staging: Option<Tree>, published: Option<Tree>, stage: Option<Stage>)

  datatype World = World(files: Directory, locals: map<Attempt, Local>)

  function At(w: World, a: Attempt): (r: Local) {
    if a in w.locals then w.locals[a] else Local(None, None, None)
  }

  datatype Action =
    | Append(attempt: Attempt, status: Status, payload: Payload)  // any other journal writer
    | Begin(attempt: Attempt)
    | WriteFile(attempt: Attempt, path: Path, file: File)
    | CreateManifest(attempt: Attempt, required: seq<Path>, size: nat)
    | CreateSeal(attempt: Attempt, size: nat)
    | VerifyStaging(attempt: Attempt)
    | Rename(attempt: Attempt)
    | VerifyPublished(attempt: Attempt)
    | RecordSuccess(attempt: Attempt, payload: Payload)
    | PreserveFailed(attempt: Attempt)
    | RecordFailure(attempt: Attempt, payload: Payload)
    | Crash(attempt: Attempt)
    | Reconcile(attempt: Attempt)

  /** The attempt is STARTED and nothing else. */
  predicate OpenAttempt(files: Directory, attempt: Attempt) {
    && Coherent(files, attempt)
    && Name(attempt, Started) in files
    && Name(attempt, Succeeded) !in files
    && Name(attempt, Failed) !in files
  }

  ghost predicate Accepted(tree: Option<Tree>, a: Attempt) {
    tree.Some? && Verify(tree.value, Some(a)).Ok?
  }

  /** One file step of the attempt's process; `open` says the attempt is STARTED and nothing else. An
      action that the process is not at changes nothing; an exception moves it to `Failing`. */
  ghost function FileStep(open: bool, l: Local, action: Action): (r: Local) {
    var a := action.attempt;
    match action
    case Begin(_) =>
      if l.stage.Some? || !open then l
      else if l.staging.Some? then l.(stage := Some(Failing))
      else l.(staging := Some(map[]), stage := Some(Writing))
    case WriteFile(_, path, file) =>
      if l.stage != Some(Writing) || l.staging.None? then l
      else if path in l.staging.value then l.(stage := Some(Failing))
      else l.(staging := Some(l.staging.value[path := file]))
    case CreateManifest(_, required, size) =>
      if l.stage != Some(Writing) || l.staging.None? then l
      else
        var t := WriteManifest(l.staging.value, a, required, size);
        if t.Err? then l.(stage := Some(Failing)) else l.(staging := Some(t.value), stage := Some(ManifestWritten))
    case CreateSeal(_, size) =>
      if l.stage != Some(ManifestWritten) || l.staging.None? then l
      else if MANIFEST !in l.staging.value || !l.staging.value[MANIFEST].ManifestFile? then l.(stage := Some(Failing))
      else
        var t := WriteSeal(l.staging.value, a, size);
        if t.Err? then l.(stage := Some(Failing)) else l.(staging := Some(t.value), stage := Some(Sealed))
    case VerifyStaging(_) =>
      if l.stage != Some(Sealed) then l
      else l.(stage := Some(if Accepted(l.staging, a) then StagingVerified else Failing))
    case Rename(_) =>
      if l.stage != Some(StagingVerified) then l
      else if l.published.Some? then l.(stage := Some(Failing))
      else Local(None, l.staging, Some(Renamed))
    case VerifyPublished(_) =>
      if l.stage != Some(Renamed) then l
      else l.(stage := Some(if Accepted(l.published, a) then Recording else Failing))
    case PreserveFailed(_) =>
      if l.stage != Some(Failing) then l else l.(staging := None)
    case Crash(_) => l.(stage := None)
    case Reconcile(_) =>
      if l.stage.Some? || !open || (l.published.Some? && l.staging.Some?) then l
      else if l.published.Some? then l.(stage := Some(Renamed))
      else if l.staging.Some? && SEAL in l.staging.value then l.(stage := Some(Sealed))
      else l.(staging := None, stage := Some(Failing))
    case _ => l
  }

  /** The steps that append to the journal. */
  function JournalStep(files: Directory, l: Local, action: Action): (r: (Directory, Local)) {
    var a := action.attempt;
    match action
    case Append(_, status, payload) =>
      (if status == Succeeded then files else Journal.Append(files, a, status, payload).0, l)
    case RecordSuccess(_, payload) =>
      if l.stage != Some(Recording) then (files, l)
      else
        var (after, record) := Journal.Append(files, a, Succeeded, payload);
        (after, l.(stage := if record.Ok? then None else Some(Failing)))
    case RecordFailure(_, payload) =>
      if l.stage != Some(Failing) then (files, l)
      else (Journal.Append(files, a, Failed, payload).0, l.(stage := None))
    case _ => (files, l)
  }

  ghost function Act(w: World, action: Action): (r: World) {
    var a := action.attempt;
    var (files, l) := JournalStep(w.files, At(w, a), action);
    World(files, w.locals[a := FileStep(OpenAttempt(w.files, a), l, action)])
  }

  ghost function Run(w: World, actions: seq<Action>): (r: World)
    decreases |actions|
  {
    if actions == [] then w else Run(Act(w, actions[0]), actions[1..])
  }

  const START := World(map[], map[])

  /** A SUCCEEDED record has its bundle, and a published bundle verifies for its attempt. */
  ghost predicate SoundAt(succeeded: bool, l: Local, a: Attempt) {
    && (succeeded ==> l.published.Some?)
    && (l.published.Some? ==> Accepted(l.published, a))
    && (l.stage == Some(StagingVerified) ==> Accepted(l.staging, a))
    && (l.stage == Some(Renamed) || l.stage == Some(Recording) ==> l.published.Some?)
  }

  ghost predicate Sound(w: World) {
    forall a :: SoundAt(Name(a, Succeeded) in w.files, At(w, a), a)
  }

  /** Staging steps leave the bundle alone and do not reach a stage that follows a verification. */
  lemma {:induction false} StagingStepStays(open: bool, l: Local, action: Action)
    requires action.Begin? || action.WriteFile? || action.CreateManifest? || action.CreateSeal?
    ensures var next := FileStep(open, l, action);
      && next.published == l.published
      && (next == l || next.stage in [Some(Writing), Some(ManifestWritten), Some(Sealed), Some(Failing)])
  {
  }

  lemma {:induction false} StagingStepIsSound(open: bool, succeeded: bool, l: Local, action: Action)
    requires SoundAt(succeeded, l, action.attempt)
    requires action.Begin? || action.WriteFile? || action.CreateManifest? || action.CreateSeal?
    ensures var next := FileStep(open, l, action);
      SoundAt(succeeded, next, action.attempt) && next.published == l.published
  {
    StagingStepStays(open, l, action);
  }

  lemma {:induction false} VerifyStepIsSound(open: bool, succeeded: bool, l: Local, action: Action)
    requires SoundAt(succeeded, l, action.attempt)
    requires action.VerifyStaging? || action.Rename? || action.VerifyPublished?
    ensures var next := FileStep(open, l, action);
      SoundAt(succeeded, next, action.attempt) && (l.published.Some? ==> next.published == l.published)
  {
  }

  lemma {:induction false} OtherStepIsSound(open: bool, succeeded: bool, l: Local, action: Action)
    requires SoundAt(succeeded, l, action.attempt)
    requires action.PreserveFailed? || action.Crash? || action.Reconcile?
    ensures var next := FileStep(open, l, action);
      SoundAt(succeeded, next, action.attempt) && next.published == l.published
  {
  }

  lemma {:induction false} FileStepIsSound(open: bool, succeeded: bool, l: Local, action: Action)
    requires SoundAt(succeeded, l, action.attempt)
    ensures SoundAt(succeeded, FileStep(open, l, action), action.attempt)
    ensures l.published.Some? ==> FileStep(open, l, action).published == l.published
  {
    match action
    case Begin(_) | WriteFile(_, _, _) | CreateManifest(_, _, _) | CreateSeal(_, _) =>
      StagingStepIsSound(open, succeeded, l, action);
    case VerifyStaging(_) | Rename(_) | VerifyPublished(_) =>
      VerifyStepIsSound(open, succeeded, l, action);
    case PreserveFailed(_) | Crash(_) | Reconcile(_) =>
      OtherStepIsSound(open, succeeded, l, action);
    case _ =>
  }

  lemma {:induction false} JournalStepIsSound(files: Directory, l: Local, action: Action)
    requires SoundAt(Name(action.attempt, Succeeded) in files, l, action.attempt)
    ensures var t := JournalStep(files, l, action);
      && SoundAt(Name(action.attempt, Succeeded) in t.0, t.1, action.attempt)
      && t.1.published == l.published
      && forall b :: b != action.attempt ==> (Name(b, Succeeded) in t.0 <==> Name(b, Succeeded) in files)
  {
  }

  /** A step touches nothing of the other attempts. */
  lemma {:induction false} OthersUntouched(w: World, action: Action, b: Attempt)
    requires b != action.attempt
    ensures At(Act(w, action), b) == At(w, b)
    ensures Name(b, Succeeded) in Act(w, action).files <==> Name(b, Succeeded) in w.files
  {
  }

  lemma {:induction false} OwnStepIsSound(w: World, action: Action)
    requires Sound(w)
    ensures SoundAt(Name(action.attempt, Succeeded) in Act(w, action).files, At(Act(w, action), action.attempt),
                    action.attempt)
    ensures At(w, action.attempt).published.Some? ==>
              At(Act(w, action), action.attempt).published == At(w, action.attempt).published
  {
    var a := action.attempt;
    var (files, l) := JournalStep(w.files, At(w, a), action);
    JournalStepIsSound(w.files, At(w, a), action);
    FileStepIsSound(OpenAttempt(w.files, a), Name(a, Succeeded) in files, l, action);
  }

  /** Every step keeps soundness, and a bundle, once published, stays as it is. */
  lemma {:induction false} StepIsSound(w: World, action: Action)
    requires Sound(w)
    ensures Sound(Act(w, action))
    ensures forall a :: At(w, a).published.Some? ==> At(Act(w, action), a).published == At(w, a).published
  {
    OwnStepIsSound(w, action);
    var next := Act(w, action);
    forall b
      ensures SoundAt(Name(b, Succeeded) in next.files, At(next, b), b)
      ensures At(w, b).published.Some? ==> At(next, b).published == At(w, b).published
    {
      if b != action.attempt {
        OthersUntouched(w, action, b);
      }
    }
  }

  lemma {:induction false} RunIsSound(w: World, actions: seq<Action>)
    requires Sound(w)
    ensures Sound(Run(w, actions))
    ensures forall a :: At(w, a).published.Some? ==> At(Run(w, actions), a).published == At(w, a).published
    decreases |actions|
  {
    if actions != [] {
      StepIsSound(w, actions[0]);
      RunIsSound(Act(w, actions[0]), actions[1..]);
    }
  }

  /** In every reachable state, crashes included, a SUCCEEDED record means its bundle is published, is
      accepted by verification for that attempt and lists exactly its payload; and whatever happens
      next, the bundle is never replaced. */
  lemma {:induction false} SucceededMeansPublished(before: seq<Action>, later: seq<Action>, a: Attempt)
    requires Name(a, Succeeded) in Run(START, before).files
    ensures var bundle := At(Run(START, before), a).published;
      && Accepted(bundle, a)
      && bundle.value[MANIFEST].manifest.attempt == a
      && ListsContents(bundle.value[MANIFEST].manifest.files, bundle.value)
    ensures At(Run(Run(START, before), later), a).published == At(Run(START, before), a).published
  {
    RunIsSound(START, before);
    RunIsSound(Run(START, before), later);
    var bundle := At(Run(START, before), a).published;
    assert SoundAt(true, At(Run(START, before), a), a);
    ScanLists(bundle.value, bundle.value[MANIFEST].manifest.files);
  }

  lemma {:induction false} CrashIsTakenUp(w: World, a: Attempt)
    requires OpenAttempt(w.files, a) && At(w, a).stage.None? && At(w, a).published.None?
    requires Accepted(At(w, a).staging, a)
    ensures var t := Act(Act(w, Reconcile(a)), VerifyStaging(a));
      At(t, a) == Local(At(w, a).staging, None, Some(StagingVerified)) && t.files == w.files
  {
    var t := Act(w, Reconcile(a));
    assert At(t, a) == Local(At(w, a).staging, None, Some(Sealed)) && t.files == w.files;
  }

  lemma {:induction false} VerifiedIsPublished(w: World, a: Attempt)
    requires At(w, a).stage == Some(StagingVerified) && At(w, a).published.None? && Accepted(At(w, a).staging, a)
    ensures var t := Act(Act(w, Rename(a)), VerifyPublished(a));
      At(t, a) == Local(None, At(w, a).staging, Some(Recording)) && t.files == w.files
  {
    var t := Act(w, Rename(a));
    assert At(t, a) == Local(None, At(w, a).staging, Some(Renamed)) && t.files == w.files;
  }

  lemma {:induction false} PublishedIsRecorded(w: World, a: Attempt, payload: Payload)
    requires OpenAttempt(w.files, a) && At(w, a).stage == Some(Recording)
    ensures var t := Act(w, RecordSuccess(a, payload));
      Name(a, Succeeded) in t.files && At(t, a).published == At(w, a).published && At(t, a).stage.None?
  {
  }

  /** A crash after sealing loses nothing: with no live process and an acceptable sealed directory in
      staging, reconciliation publishes those bytes and records SUCCEEDED. */
  lemma {:induction false} SealedCrashIsRecovered(w: World, a: Attempt, payload: Payload)
    requires OpenAttempt(w.files, a) && At(w, a).stage.None? && At(w, a).published.None?
    requires Accepted(At(w, a).staging, a)
    ensures var renamed := Act(Act(Act(w, Reconcile(a)), VerifyStaging(a)), Rename(a));
      var t := Act(Act(renamed, VerifyPublished(a)), RecordSuccess(a, payload));
      Name(a, Succeeded) in t.files && At(t, a).published == At(w, a).staging && At(t, a).stage.None?
  {
    CrashIsTakenUp(w, a);
    var verified := Act(Act(w, Reconcile(a)), VerifyStaging(a));
    VerifiedIsPublished(verified, a);
    PublishedIsRecorded(Act(Act(verified, Rename(a)), VerifyPublished(a)), a, payload);
  }
}
