/** How one delivery ends: the error `dispatch` fails with, whether it is reported and buried,
    and what the driver makes of it; then a job over all its deliveries. */
module Runtime {
  import opened Errors
  import opened Lease

  /** What the delivery meets at its idempotency key. */
  datatype KeyFact = NoKey | KeyHeld | KeyKept | KeyTaken | KeyStoreFails(error: Error)

  /** What a delivery comes upon, step by step. A step that passes holds `None`; `race` is how the
      handler run ended, `reason` what its signal was aborted with by then, and `settle` what the
      command that settles the key failed with. */
  datatype Facts = Facts(
    readable: bool, known: bool, ahead: bool, migration: Option<Error>, payload: Option<Error>,
    children: Option<Error>, key: KeyFact, race: Outcome, reason: Option<Error>, settle: Option<Error>)

  function UnrecoverableFor(e: Error): Error {
    Error(Unrecoverable, None, Some(e))
  }

  /** A handler run after the substitution. */
  function RunEnds(f: Facts): Outcome {
    match f.race
    case Resolved(v) => Resolved(v)
    case Rejected(e) => Rejected(Substitute(f.reason, e))
  }

  /** The error `runUnderKey` fails with: settling the key is awaited unless a body outlived the
      delivery, and a store that refuses it takes the place of what was thrown. */
  function UnderKey(f: Facts): Option<Error> {
    match RunEnds(f)
    case Resolved(_) => f.settle
    case Rejected(e) => if StillRunning(e).Some? || f.settle.None? then Some(e) else f.settle
  }

  /** The error a readable delivery fails with, `None` for a success. */
  function Dispatch(f: Facts): Option<Error> {
    if !f.known then Some(UnrecoverableFor(AbortOf(Plain)))
    else if f.ahead then Some(AbortOf(VersionAhead))
    else if f.migration.Some? then Some(UnrecoverableFor(f.migration.value))
    else if f.payload.Some? then Some(UnrecoverableFor(f.payload.value))
    else if f.children.Some? then
      Some(if f.children.value.kind in {ChildDead, ChildrenShort, ResultRefused}
           then UnrecoverableFor(f.children.value) else f.children.value)
    else match f.key
      case KeyHeld => Some(AbortOf(LeaseHeld))
      case KeyKept => None
      case KeyStoreFails(e) => Some(e)
      case NoKey => (match RunEnds(f) case Resolved(_) => None case Rejected(e) => Some(e))
      case KeyTaken => UnderKey(f)
  }

  /** The ends of a delivery that are no end of an attempt. */
  predicate Postpones(e: Error) {
    e.kind in {LeaseHeld, ShutdownAbort, ChildrenPending}
  }

  datatype Reason = AttemptsExhausted | Unrecoverably | VersionIsAhead | WasCancelled | ChildIsDead | ChildrenAreShort

  /** What a burial reads through. */
  function Raised(e: Error): Error {
    if IsUnrecoverable(e) && e.cause.Some? then e.cause.value else e
  }

  function BurialFor(attempt: nat, maxAttempts: nat, e: Error): Option<Reason> {
    if e.kind == Cancelled then Some(WasCancelled)
    else if e.kind == VersionAhead then Some(VersionIsAhead)
    else if Raised(e).kind == ChildDead then Some(ChildIsDead)
    else if Raised(e).kind == ChildrenShort then Some(ChildrenAreShort)
    else if IsUnrecoverable(e) then Some(Unrecoverably)
    else if attempt >= maxAttempts then Some(AttemptsExhausted)
    else None
  }

  // ---------------------------------------------------------------- the driver

  /** What came of the move a postponed delivery asks for: it happened, or the last child settled
      under it, or it could not be asked for at all (no worker token). */
  datatype Move = Moved | NothingLeftToWait | CannotMove

  datatype Verdict = Succeeded | Delayed | WaitsAgain | AttemptFails(error: Error)

  function Verdicts(failure: Option<Error>, move: Move): Verdict {
    match failure
    case None => Succeeded
    case Some(e) =>
      if e.kind in {LeaseHeld, ShutdownAbort} then
        if move.CannotMove? then AttemptFails(Error(Plain, None, Some(e))) else Delayed
      else if e.kind == ChildrenPending then
        (match move
         case Moved => WaitsAgain
         case NothingLeftToWait => AttemptFails(e)
         case CannotMove => AttemptFails(Error(Plain, None, Some(e))))
      else AttemptFails(e)
  }

  /** The queue's own rule: a failed attempt is the last one. */
  predicate IsFinal(e: Error, attempt: nat, maxAttempts: nat) {
    IsUnrecoverable(e) || attempt >= maxAttempts
  }

  /** The error the processor fails with: an unreadable envelope fails before `dispatch`. */
  function FailureOf(f: Facts): Option<Error> {
    if !f.readable then Some(UnrecoverableFor(AbortOf(Plain))) else Dispatch(f)
  }

  predicate Reported(f: Facts) {
    f.readable && Dispatch(f).Some? && !Postpones(Dispatch(f).value)
  }

  // ---------------------------------------------------------------- burial and finality

  /** Nothing but `childrenFor` and a handler produces the library's own child refusals. */
  predicate Realistic(f: Facts) {
    && (f.migration.Some? ==> f.migration.value.kind in {Plain, VersionAhead})
    && (f.payload.Some? ==> f.payload.value.kind == Plain)
    && (f.children.Some? ==> f.children.value.kind in {Plain, ChildrenPending, ChildDead, ChildrenShort, ResultRefused})
    && (f.key.KeyStoreFails? ==> f.key.error.kind == Plain)
    && (f.settle.Some? ==> f.settle.value.kind == Plain)
    && (f.reason.Some? ==> f.reason.value.kind in {Cancelled, ShutdownAbort, Timeout})
  }

  /** A handler that throws one of the two internal child refusals, unwrapped. */
  predicate HandlerRefusesAsAChild(f: Facts) {
    f.race.Rejected? && f.race.error.kind in {ChildDead, ChildrenShort}
  }

  /** Why a job is buried, for every error and attempt. Cancellation and a newer version outrank what the error
      carries, a child outranks the error that wraps it, and attempts run out only for the rest. */
  lemma BuriedFor(attempt: nat, maxAttempts: nat, e: Error)
    ensures BurialFor(attempt, maxAttempts, e) == Some(WasCancelled) <==> e.kind == Cancelled
    ensures BurialFor(attempt, maxAttempts, e) == Some(VersionIsAhead) <==> e.kind == VersionAhead
    ensures BurialFor(attempt, maxAttempts, e) == Some(ChildIsDead) <==>
            e.kind == ChildDead || (e.kind == Unrecoverable && e.cause.Some? && e.cause.value.kind == ChildDead)
    ensures BurialFor(attempt, maxAttempts, e) == Some(ChildrenAreShort) <==>
            e.kind == ChildrenShort || (e.kind == Unrecoverable && e.cause.Some? && e.cause.value.kind == ChildrenShort)
    ensures BurialFor(attempt, maxAttempts, e) == Some(Unrecoverably) <==>
            e.kind == Unrecoverable && !(e.cause.Some? && e.cause.value.kind in {ChildDead, ChildrenShort})
    ensures BurialFor(attempt, maxAttempts, e) == Some(AttemptsExhausted) <==>
            attempt >= maxAttempts && e.kind !in {Unrecoverable, Cancelled, VersionAhead, ChildDead, ChildrenShort}
  {
  }

  /** Read against any error at all: a burial is decided exactly when no attempt follows, or when
      the error is a bare child refusal. */
  lemma BuriedIffFinalOrBare(attempt: nat, maxAttempts: nat, e: Error)
    ensures BurialFor(attempt, maxAttempts, e).Some? <==>
            IsFinal(e, attempt, maxAttempts) || e.kind in {ChildDead, ChildrenShort}
  {
  }

  /** Every failure that is reported is buried exactly when the driver makes no further attempt,
      provided no handler throws a bare child refusal; a handler that does, short of its last
      attempt, is buried with attempts left. */
  lemma BuriedIffNoAttemptFollows(f: Facts, move: Move, attempt: nat, maxAttempts: nat)
    requires Realistic(f) && Reported(f)
    ensures Verdicts(FailureOf(f), move) == AttemptFails(Dispatch(f).value)
    ensures var e := Dispatch(f).value;
            (BurialFor(attempt, maxAttempts, e).Some? <==> IsFinal(e, attempt, maxAttempts))
            <==> !(e.kind in {ChildDead, ChildrenShort} && attempt < maxAttempts)
    ensures Dispatch(f).value.kind in {ChildDead, ChildrenShort} ==> HandlerRefusesAsAChild(f)
  {
    BuriedIffFinalOrBare(attempt, maxAttempts, Dispatch(f).value);
  }

  /** A held key, a shutdown and a child still running are never reported; and an attempt is spent
      unreported exactly when the envelope could not be read, or when the move that postpones the
      delivery did not happen. */
  lemma SpentUnreportedIff(f: Facts, move: Move)
    ensures Dispatch(f).Some? && Postpones(Dispatch(f).value) ==> !Reported(f)
    ensures Reported(f) ==> Verdicts(FailureOf(f), move).AttemptFails?
    ensures Verdicts(FailureOf(f), move).AttemptFails? && !Reported(f) <==>
            || !f.readable
            || (&& Dispatch(f).Some? && Postpones(Dispatch(f).value)
                && (move.CannotMove? || (move.NothingLeftToWait? && Dispatch(f).value.kind == ChildrenPending)))
  {
  }

  // ---------------------------------------------------------------- a job over its deliveries

  datatype Status = Waiting | Completed | Failed

  /** `deaths` counts the `onDead` calls since the job was enqueued or last retried, `spoken` the
      `onAttemptFailed` calls, `bare` those of them made for a bare child refusal with attempts left,
      `silent` the attempts spent with no hook called, `quiet` whether the last one spent was such, and
      `buriedFor` is the reason of the last burial. */
  datatype Job = Job(
    status: Status, attemptsMade: nat, maxAttempts: nat, deaths: nat, spoken: nat, bare: nat, silent: nat, quiet: bool,
    buriedFor: Option<Reason>)

  datatype Event = Delivered(facts: Facts, move: Move) | Retried

  function Enqueued(maxAttempts: nat): Job {
    Job(Waiting, 0, maxAttempts, 0, 0, 0, 0, false, None)
  }

  /** A reported child refusal nothing wraps, with attempts left. */
  predicate IsBare(f: Facts, attempt: nat, maxAttempts: nat)
    requires Reported(f)
  {
    Dispatch(f).value.kind in {ChildDead, ChildrenShort} && attempt < maxAttempts
  }

  function Step(j: Job, ev: Event): Job {
    match ev
    case Retried => if j.status.Failed? then Enqueued(j.maxAttempts) else j
    case Delivered(f, move) =>
      if !j.status.Waiting? then j
      else
        var attempt := j.attemptsMade + 1;
        var told :=
          if !Reported(f) then j
          else j.(spoken := j.spoken + 1, bare := j.bare + (if IsBare(f, attempt, j.maxAttempts) then 1 else 0));
        var burial := if Reported(f) then BurialFor(attempt, j.maxAttempts, Dispatch(f).value) else None;
        var buried := if burial.Some? then told.(deaths := told.deaths + 1, buriedFor := burial) else told;
        match Verdicts(FailureOf(f), move)
        case Succeeded => buried.(status := Completed, attemptsMade := attempt)
        case Delayed => buried
        case WaitsAgain => buried
        case AttemptFails(e) =>
          var spent := buried.(attemptsMade := attempt, quiet := !Reported(f),
                               silent := if Reported(f) then buried.silent else buried.silent + 1);
          if IsFinal(e, attempt, j.maxAttempts) then spent.(status := Failed) else spent
  }

  function Life(j: Job, events: seq<Event>): Job
    decreases events
  {
    if events == [] then j else Life(Step(j, events[0]), events[1..])
  }

  predicate Counts(j: Job) {
    && j.attemptsMade == j.spoken + j.silent + (if j.status.Completed? then 1 else 0)
    && j.deaths == j.bare + (if j.status.Failed? && !j.quiet then 1 else 0)
  }

  lemma StepCounts(j: Job, ev: Event)
    requires Counts(j)
    ensures Counts(Step(j, ev))
  {
    if ev.Delivered? && j.status.Waiting? {
      SpentUnreportedIff(ev.facts, ev.move);
      if Reported(ev.facts) {
        BuriedIffFinalOrBare(j.attemptsMade + 1, j.maxAttempts, Dispatch(ev.facts).value);
      }
    }
  }

  lemma {:induction false} LifeCounts(j: Job, events: seq<Event>)
    requires Counts(j)
    ensures Counts(Life(j, events))
    decreases events
  {
    if events != [] {
      StepCounts(j, events[0]);
      LifeCounts(Step(j, events[0]), events[1..]);
    }
  }

  /** No handler throws the library's internal child refusals. */
  predicate Sound(events: seq<Event>) {
    forall ev | ev in events && ev.Delivered? :: Realistic(ev.facts) && !HandlerRefusesAsAChild(ev.facts)
  }

  lemma {:induction false} SoundLivesAreNotBare(j: Job, events: seq<Event>)
    requires Sound(events) && j.bare == 0
    ensures Life(j, events).bare == 0
    decreases events
  {
    if events != [] {
      var ev := events[0];
      if ev.Delivered? && Reported(ev.facts) {
        assert Realistic(ev.facts) && !HandlerRefusesAsAChild(ev.facts);
        BuriedIffNoAttemptFollows(ev.facts, ev.move, j.attemptsMade + 1, j.maxAttempts);
      }
      SoundLivesAreNotBare(Step(j, ev), events[1..]);
    }
  }

  /** Over every life of a job, between two retries: `onDead` fires once for each bare child refusal with
      attempts left, and once more exactly when the job is failed and its last attempt was reported; and
      `onAttemptFailed` fires for every attempt spent but the silent ones. */
  lemma DeathsOfALife(maxAttempts: nat, events: seq<Event>)
    ensures var j := Life(Enqueued(maxAttempts), events);
            && j.deaths == j.bare + (if j.status.Failed? && !j.quiet then 1 else 0)
            && j.attemptsMade == j.spoken + j.silent + (if j.status.Completed? then 1 else 0)
  {
    LifeCounts(Enqueued(maxAttempts), events);
  }

  /** So with no handler throwing such a refusal, `onDead` fires at most once in a life. */
  lemma OneDeathPerLife(maxAttempts: nat, events: seq<Event>)
    requires Sound(events)
    ensures var j := Life(Enqueued(maxAttempts), events);
            j.deaths == (if j.status.Failed? && !j.quiet then 1 else 0)
  {
    DeathsOfALife(maxAttempts, events);
    SoundLivesAreNotBare(Enqueued(maxAttempts), events);
  }

  const PASSES := Facts(true, true, false, None, None, None, NoKey, Rejected(AbortOf(Plain)), None, None)

  /** A failed job that no burial tells of: a parent met a child still running on its only attempt,
      and the child settled under the move back. */
  lemma LastChildSettlingUnderTheMoveKillsInSilence()
    ensures var ev := Delivered(PASSES.(children := Some(AbortOf(ChildrenPending))), NothingLeftToWait);
            var j := Life(Enqueued(1), [ev]);
            j.status.Failed? && j.deaths == 0 && j.spoken == 0
  {
    var ev := Delivered(PASSES.(children := Some(AbortOf(ChildrenPending))), NothingLeftToWait);
    assert Life(Step(Enqueued(1), ev), []) == Step(Enqueued(1), ev);
  }

  /** A handler throwing a bare child refusal is buried at every attempt it makes. */
  lemma BareRefusalBuriesTwice()
    ensures var ev := Delivered(PASSES.(race := Rejected(AbortOf(ChildDead))), Moved);
            Life(Enqueued(2), [ev, ev]).deaths == 2
  {
    var ev := Delivered(PASSES.(race := Rejected(AbortOf(ChildDead))), Moved);
    var once := Step(Enqueued(2), ev);
    assert once.status.Waiting? && once.deaths == 1;
    assert [ev, ev][1..] == [ev] && [ev][1..] == [];
    assert Life(once, [ev]) == Life(Step(once, ev), []);
  }
}
