/** What each thing a delivery can come upon does to its job, told by the facts alone: what is spent, which
    hooks are called, what it is buried for. */
module DeliveryFacts {
  import opened Errors
  import opened Runtime

  // ---------------------------------------------------------------- the ways a delivery leaves its job

  /** The body ran, or was answered for. */
  function Completes(j: Job): Job {
    j.(status := Runtime.Completed, attemptsMade := j.attemptsMade + 1)
  }

  /** An attempt spent and told of, the job over. */
  function Dies(j: Job, why: Reason): Job {
    j.(status := Failed, attemptsMade := j.attemptsMade + 1, spoken := j.spoken + 1, deaths := j.deaths + 1,
       quiet := false, buriedFor := Some(why))
  }

  /** An attempt spent and told of; the last one is the job's death. */
  function Fails(j: Job): Job {
    if j.attemptsMade + 1 >= j.maxAttempts then Dies(j, AttemptsExhausted)
    else j.(attemptsMade := j.attemptsMade + 1, spoken := j.spoken + 1, quiet := false)
  }

  /** An attempt spent with nobody told. */
  function FailsUnheard(j: Job, over: bool): Job {
    j.(status := if over then Failed else j.status, attemptsMade := j.attemptsMade + 1, silent := j.silent + 1,
       quiet := true)
  }

  predicate IsLast(j: Job) { j.attemptsMade + 1 >= j.maxAttempts }

  // ---------------------------------------------------------------- before the key

  predicate ReachesChildren(f: Facts) {
    f.readable && f.known && !f.ahead && f.migration.None? && f.payload.None?
  }

  lemma UnreadableEnvelope(j: Job, f: Facts, move: Move)
    requires j.status.Waiting? && !f.readable
    ensures Step(j, Delivered(f, move)) == FailsUnheard(j, true)
  {
  }

  /** No handler of the name, a payload of a newer build, one that cannot be brought up to date, one the
      schema refuses: each ends the job at once, whatever attempts are left. */
  lemma NothingToRun(j: Job, f: Facts, move: Move)
    requires j.status.Waiting? && f.readable
    ensures !f.known ==> Step(j, Delivered(f, move)) == Dies(j, Unrecoverably)
    ensures f.known && f.ahead ==> Step(j, Delivered(f, move)) == Dies(j, VersionIsAhead)
    ensures f.known && !f.ahead && f.migration.Some? && f.migration.value.kind in {Plain, VersionAhead} ==>
              Step(j, Delivered(f, move)) == Dies(j, Unrecoverably)
    ensures f.known && !f.ahead && f.migration.None? && f.payload.Some? && f.payload.value.kind == Plain ==>
              Step(j, Delivered(f, move)) == Dies(j, Unrecoverably)
  {
  }

  /** A child that is dead, gone or left a value its schema refuses ends the parent at once, each for its own
      reason. One still in flight costs nothing if the job can be put back, and an unheard attempt if not. A
      read that fails is an ordinary failure. */
  lemma ChildrenStopIt(j: Job, f: Facts, move: Move)
    requires j.status.Waiting? && ReachesChildren(f) && f.children.Some?
    ensures var after := Step(j, Delivered(f, move));
            && (f.children.value.kind == ChildDead ==> after == Dies(j, ChildIsDead))
            && (f.children.value.kind == ChildrenShort ==> after == Dies(j, ChildrenAreShort))
            && (f.children.value.kind == ResultRefused ==> after == Dies(j, Unrecoverably))
            && (f.children.value.kind == ChildrenPending ==>
                after == if move.Moved? then j else FailsUnheard(j, IsLast(j)))
            && (f.children.value.kind == Plain ==> after == Fails(j))
  {
  }

  // ---------------------------------------------------------------- at the key

  predicate ReachesKey(f: Facts) {
    ReachesChildren(f) && f.children.None?
  }

  /** A held key leaves the job as it was, unless the delivery cannot be put back; a complete one completes the
      job with nothing run; a store that fails is an ordinary failure. */
  lemma MetAtTheKey(j: Job, f: Facts, move: Move)
    requires j.status.Waiting? && ReachesKey(f)
    ensures f.key.KeyHeld? ==>
              Step(j, Delivered(f, move)) == if move.CannotMove? then FailsUnheard(j, IsLast(j)) else j
    ensures f.key.KeyKept? ==> Step(j, Delivered(f, move)) == Completes(j)
    ensures f.key.KeyStoreFails? && f.key.error.kind == Plain ==> Step(j, Delivered(f, move)) == Fails(j)
  {
  }

  // ---------------------------------------------------------------- in the handler

  predicate RunsTheBody(f: Facts) {
    ReachesKey(f) && (f.key.NoKey? || f.key.KeyTaken?)
  }

  /** A handler that returned completes the job, aborted or not; only a key that could not be completed fails
      the attempt all the same. */
  lemma HandlerReturned(j: Job, f: Facts, move: Move)
    requires j.status.Waiting? && RunsTheBody(f) && f.race.Resolved?
    ensures f.key.NoKey? || f.settle.None? ==> Step(j, Delivered(f, move)) == Completes(j)
    ensures f.key.KeyTaken? && f.settle.Some? && f.settle.value.kind == Plain ==>
              Step(j, Delivered(f, move)) == Fails(j)
  {
  }

  /** What was thrown is what the delivery fails with: no key was taken, or it was released, or the body goes
      on and the key with it. */
  predicate FailsWithWhatWasThrown(f: Facts) {
    RunsTheBody(f) && f.race.Rejected? && (f.key.NoKey? || f.settle.None? || StillRunning(f.race.error).Some?)
  }

  predicate WrapsAChild(e: Error) {
    e.cause.Some? && e.cause.value.kind in {ChildDead, ChildrenShort}
  }

  /** Left to itself, a handler that throws spends the attempt, and the job with it if the error says so or it
      was the last. */
  lemma HandlerThrew(j: Job, f: Facts, move: Move)
    requires j.status.Waiting? && FailsWithWhatWasThrown(f)
    requires f.reason.None? || f.reason.value.kind == Timeout
    ensures f.race.error.kind in {Plain, NotAnError, Timeout, ResultRefused} ==> Step(j, Delivered(f, move)) == Fails(j)
    ensures f.race.error.kind == Unrecoverable && !WrapsAChild(f.race.error) ==>
              Step(j, Delivered(f, move)) == Dies(j, Unrecoverably)
  {
  }

  /** Cancelled while it ran, a handler that throws anything ends the job as cancelled. */
  lemma CancelledWhileItRan(j: Job, f: Facts, move: Move)
    requires j.status.Waiting? && FailsWithWhatWasThrown(f) && f.reason.Some? && f.reason.value.kind == Cancelled
    ensures Step(j, Delivered(f, move)) == Dies(j, WasCancelled)
  {
  }

  /** Shut down while it ran, a handler that throws spends nothing, unless what it threw is for good, or the
      delivery cannot be put back. */
  lemma ShutDownWhileItRan(j: Job, f: Facts, move: Move)
    requires j.status.Waiting? && FailsWithWhatWasThrown(f) && f.reason.Some? && f.reason.value.kind == ShutdownAbort
    ensures f.race.error.kind !in {Unrecoverable, Cancelled, VersionAhead} ==>
              Step(j, Delivered(f, move)) == if move.CannotMove? then FailsUnheard(j, IsLast(j)) else j
    ensures f.race.error.kind == Unrecoverable && !WrapsAChild(f.race.error) ==>
              Step(j, Delivered(f, move)) == Dies(j, Unrecoverably)
  {
  }

  /** A key that could not be released takes the place of what was thrown, unless the body goes on. */
  lemma ReleaseFailed(j: Job, f: Facts, move: Move)
    requires j.status.Waiting? && RunsTheBody(f) && f.key.KeyTaken? && f.race.Rejected?
    requires StillRunning(f.race.error).None? && f.settle.Some? && f.settle.value.kind == Plain
    requires f.reason.Some? ==>
               f.reason.value.kind in {Cancelled, ShutdownAbort, Timeout} && f.reason.value.running.None?
    ensures Step(j, Delivered(f, move)) == Fails(j)
  {
  }

  // ---------------------------------------------------------------- around a delivery

  /** A job that is over takes no delivery, and only a failed one is retried, to begin again from nothing. */
  lemma OverAndAgain(j: Job, f: Facts, move: Move)
    ensures !j.status.Waiting? ==> Step(j, Delivered(f, move)) == j
    ensures j.status.Failed? ==> Step(j, Retried) == Job(Waiting, 0, j.maxAttempts, 0, 0, 0, 0, false, None)
    ensures !j.status.Failed? ==> Step(j, Retried) == j
  {
  }
}
