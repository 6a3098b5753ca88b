/** The failures a delivery can end with, and how the runtime replaces one by another. */
module Errors {

  datatype Option<+T> = None | Some(value: T)

  /** The driver's answer to one enqueue: a failure may come before or after the job was stored. */
  datatype DriverAnswer = Stores | FailsBefore | FailsAfter

  /** The classes the runtime and the drivers tell apart; `Plain` is every other `Error`,
      and `NotAnError` a thrown value that is no `Error` at all. */
  datatype Kind =
    | Plain | NotAnError | Timeout
    | Unrecoverable | Cancelled | VersionAhead
    | ShutdownAbort | LeaseHeld | ChildrenPending
    | ChildDead | ChildrenShort | ResultRefused

  /** A promise is named by the delivery whose handler body it is. */
  type Promise = string

  datatype Error = Error(kind: Kind, running: Option<Promise>, cause: Option<Error>)

  /** `instanceof UnrecoverableError`: two of the library's own errors extend it. */
  predicate IsUnrecoverable(e: Error) {
    e.kind in {Unrecoverable, Cancelled, VersionAhead}
  }

  /** The handler body an error says went on running (`stillRunning`). */
  function StillRunning(e: Error): Option<Promise> {
    if e.kind == NotAnError then None else e.running
  }

  function TimeoutOf(body: Promise): Error {
    Error(Timeout, Some(body), None)
  }

  function AbortOf(kind: Kind): Error {
    Error(kind, None, None)
  }

  /** What a signal can have been aborted with: a cancellation or a shutdown, which name no
      body, or the expiry of the delivery's own `timeoutMs`, which does. */
  predicate IsAbortReason(reason: Error, body: Promise) {
    || reason == AbortOf(Cancelled)
    || reason == AbortOf(ShutdownAbort)
    || reason == TimeoutOf(body)
  }

  function Caused(replacing: Error, replaced: Error): Error {
    if replacing == replaced then replacing else replacing.(cause := Some(replaced))
  }

  /** The `.catch` around a handler run: a cancelled or shut down delivery fails with the abort
      instead of with what was thrown, and the abort inherits the body still running. */
  function Substitute(reason: Option<Error>, thrown: Error): Error {
    if reason.Some? && reason.value.kind == Cancelled then
      (match StillRunning(thrown)
       case Some(body) => Error(Cancelled, Some(body), Some(thrown))
       case None => Caused(reason.value, thrown))
    else if reason.None? || reason.value.kind != ShutdownAbort || IsUnrecoverable(thrown) then
      thrown
    else
      (match StillRunning(thrown)
       case Some(body) => Error(ShutdownAbort, Some(body), Some(thrown))
       case None => Caused(reason.value, thrown))
  }

  /** Whatever the delivery was aborted with, the error it fails with names the very body the
      thrown error named, so a lease follows that body and no other. */
  lemma SubstitutionKeepsTheBody(reason: Option<Error>, thrown: Error, body: Promise)
    requires reason.Some? ==> IsAbortReason(reason.value, body)
    ensures StillRunning(Substitute(reason, thrown)) == StillRunning(thrown)
  {
  }

  /** What a delivery fails with, told by what it was aborted with and what was thrown: a cancellation always
      wins, a shutdown wins over all but what is for good, anything else is left as it was thrown; and the
      error that was replaced is kept as the cause. A thrown value that is no error names no body. */
  lemma WhatADeliveryFailsWith(reason: Option<Error>, thrown: Error)
    ensures var e := Substitute(reason, thrown);
            var cancelled := reason.Some? && reason.value.kind == Cancelled;
            var shutDown := reason.Some? && reason.value.kind == ShutdownAbort
                            && thrown.kind !in {Unrecoverable, Cancelled, VersionAhead};
            && (cancelled ==> e.kind == Cancelled)
            && (shutDown ==> e.kind == ShutdownAbort)
            && (cancelled || shutDown ==> e == reason.value == thrown || e.cause == Some(thrown))
            && (!cancelled && !shutDown ==> e == thrown)
    ensures thrown.kind == NotAnError ==> StillRunning(thrown).None?
    ensures thrown.kind != NotAnError ==> StillRunning(thrown) == thrown.running
  {
  }
}
