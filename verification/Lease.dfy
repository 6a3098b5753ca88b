/** Any number of deliveries under idempotency keys, interleaved one store command or one
    promise at a time: `runUnderKey`, the error substitution around a handler, and the body
    that outlives its delivery. */
module Lease {
  import opened Errors
  import opened KeyStore

  datatype Body = NotStarted | Alive | Returned(value: Produced) | Threw(error: Error)

  datatype Outcome = Resolved(value: Produced) | Rejected(error: Error)

  /** What the acquire answered. */
  datatype Phase = Asking | Postponed | Replaying(kept: Kept) | Owner

  /** Where `runUnderKey` is once the run it awaited has ended: about to decide, waiting for a
      body an error named, or done. */
  datatype Settling = Undecided | Following(body: Promise) | Decided

  /** One delivery, named by the token it minted. `race` is what ended first, the body or the
      `timeoutMs`; `delivered` is that outcome after the substitution; `issued` is every
      command that settles the possession, in the order they were sent. */
  datatype Run = Run(
    key: Key, phase: Phase, body: Body, reason: Option<Error>, race: Option<Outcome>,
    delivered: Option<Outcome>, settling: Settling, issued: seq<Command>, crashed: bool)

  /** `wire` holds the settling commands sent and not yet landed. */
  datatype State = State(runs: map<Token, Run>, store: Store, wire: set<Command>)

  datatype Action =
    | Start(token: Token, key: Key)
    | AcquireLands(token: Token)
    | BodyStarts(token: Token)
    | RenewLands(token: Token)
    | TimeoutFires(token: Token)
    | AbortLands(token: Token, kind: Kind)
    | BodyEnds(token: Token, outcome: Outcome)
    | DeliveryEnds(token: Token)
    | Decides(token: Token)
    | FollowedEnds(token: Token)
    | SettleLands(command: Command)
    | Crash(token: Token)
    | KeyExpires(key: Key)
    | OperatorForgets(key: Key)

  const INIT := State(map[], map[], {})

  predicate Ended(b: Body) { b.Returned? || b.Threw? }

  /** The handler body is executing right now. */
  predicate BodyAlive(r: Run) { r.body.Alive? && !r.crashed }

  /** The delivery was given the key and its body has not ended: what a lease protects. */
  predicate Guarded(r: Run) { r.phase.Owner? && !r.crashed && !Ended(r.body) }

  predicate InProcess(s: State, t: Token) { t in s.runs && !s.runs[t].crashed }

  predicate Enabled(s: State, a: Action) {
    match a
    case Start(t, _) => t !in s.runs
    case AcquireLands(t) => t in s.runs && s.runs[t].phase.Asking?
    case BodyStarts(t) => InProcess(s, t) && s.runs[t].phase.Owner? && s.runs[t].body.NotStarted?
    case RenewLands(t) => t in s.runs
    case TimeoutFires(t) => InProcess(s, t) && s.runs[t].body.Alive? && s.runs[t].race.None?
    case AbortLands(t, kind) =>
      && InProcess(s, t) && !s.runs[t].body.NotStarted? && s.runs[t].delivered.None?
      && kind in {Cancelled, ShutdownAbort}
    case BodyEnds(t, _) => InProcess(s, t) && s.runs[t].body.Alive?
    case DeliveryEnds(t) => InProcess(s, t) && s.runs[t].race.Some? && s.runs[t].delivered.None?
    case Decides(t) => InProcess(s, t) && s.runs[t].delivered.Some? && s.runs[t].settling.Undecided?
    case FollowedEnds(t) =>
      && InProcess(s, t) && s.runs[t].settling.Following?
      && s.runs[t].settling.body in s.runs && Ended(s.runs[s.runs[t].settling.body].body)
    case SettleLands(c) => c in s.wire
    case Crash(t) => t in s.runs
    case KeyExpires(k) =>
      // The assumption `LeaseTiming` discharges: no lease runs out under a body.
      k in s.store && forall t | t in s.runs && Guarded(s.runs[t]) :: s.store[k] != Held(t)
    case OperatorForgets(_) => true
  }

  function EndOf(outcome: Outcome): Body {
    match outcome
    case Resolved(v) => Returned(v)
    case Rejected(e) => Threw(e)
  }

  /** What settles a possession once the body that ended it is known. */
  function SettlementOf(k: Key, t: Token, ended: Body): Command
    requires Ended(ended)
  {
    match ended
    case Returned(v) => Finish(k, t, KeptOf(v))
    case Threw(_) => Release(k, t)
  }

  function Send(s: State, t: Token, c: Command): State
    requires t in s.runs
  {
    var r := s.runs[t];
    s.(runs := s.runs[t := r.(settling := Decided, issued := r.issued + [c])], wire := s.wire + {c})
  }

  /** `runUnderKey` after its run ended: an error naming a body hands the key to that body. */
  function Decide(s: State, t: Token): State
    requires t in s.runs && s.runs[t].delivered.Some?
  {
    var r := s.runs[t];
    match r.delivered.value
    case Resolved(v) => Send(s, t, Finish(r.key, t, KeptOf(v)))
    case Rejected(e) =>
      match StillRunning(e)
      case Some(body) => s.(runs := s.runs[t := r.(settling := Following(body))])
      case None => Send(s, t, Release(r.key, t))
  }

  function PhaseAfter(lease: Lease): Phase {
    match lease
    case Acquired(_) => Owner
    case HeldByAnother => Postponed
    case AlreadyComplete(kept) => Replaying(kept)
  }

  function FirstAbort(r: Run, e: Error): Option<Error> {
    if r.reason.Some? then r.reason else Some(e)
  }

  function Apply(s: State, a: Action): State
    requires Enabled(s, a)
  {
    match a
    case Start(t, k) =>
      s.(runs := s.runs[t := Run(k, Asking, NotStarted, None, None, None, Undecided, [], false)])
    case AcquireLands(t) =>
      var c := Acquire(s.runs[t].key, t);
      s.(runs := s.runs[t := s.runs[t].(phase := PhaseAfter(Answer(s.store, c).lease))],
         store := After(s.store, c))
    case BodyStarts(t) => s.(runs := s.runs[t := s.runs[t].(body := Alive)])
    case RenewLands(t) => s.(store := After(s.store, Renew(s.runs[t].key, t)))
    case TimeoutFires(t) =>
      var r := s.runs[t];
      s.(runs := s.runs[t := r.(reason := FirstAbort(r, TimeoutOf(t)), race := Some(Rejected(TimeoutOf(t))))])
    case AbortLands(t, kind) =>
      s.(runs := s.runs[t := s.runs[t].(reason := FirstAbort(s.runs[t], AbortOf(kind)))])
    case BodyEnds(t, outcome) =>
      var r := s.runs[t];
      s.(runs := s.runs[t := r.(body := EndOf(outcome), race := if r.race.Some? then r.race else Some(outcome))])
    case DeliveryEnds(t) =>
      var r := s.runs[t];
      var outcome := match r.race.value
        case Resolved(v) => Resolved(v)
        case Rejected(e) => Rejected(Substitute(r.reason, e));
      s.(runs := s.runs[t := r.(delivered := Some(outcome))])
    case Decides(t) => Decide(s, t)
    case FollowedEnds(t) =>
      Send(s, t, SettlementOf(s.runs[t].key, t, s.runs[s.runs[t].settling.body].body))
    case SettleLands(c) => s.(store := After(s.store, c), wire := s.wire - {c})
    case Crash(t) => s.(runs := s.runs[t := s.runs[t].(crashed := true)])
    case KeyExpires(k) => s.(store := s.store - {k})
    case OperatorForgets(k) => s.(store := After(s.store, Forget(k)))
  }

  function Do(s: State, a: Action): State {
    if Enabled(s, a) then Apply(s, a) else s
  }

  /** Every list of actions is a run: one that cannot happen where it stands is passed over. */
  function Exec(s: State, actions: seq<Action>): State
    decreases actions
  {
    if actions == [] then s else Exec(Do(s, actions[0]), actions[1..])
  }

  // ---------------------------------------------------------------- the invariant

  /** An error the handler threw that names a body other than its own: nothing the library
      throws does, and `stillRunning` cannot tell. */
  predicate CarriesForeign(t: Token, e: Error) {
    StillRunning(e).Some? && StillRunning(e) != Some(t)
  }

  predicate NotBegun(r: Run) {
    r.body.NotStarted? && r.race.None? && r.delivered.None? && r.settling.Undecided? && r.issued == []
  }

  /** A failure of a delivery names its own body, or is what that body threw. */
  predicate Explained(t: Token, b: Body, e: Error) {
    || StillRunning(e) == Some(t)
    || (b.Threw? && StillRunning(b.error) == StillRunning(e))
  }

  predicate OutcomeOk(t: Token, b: Body, o: Option<Outcome>) {
    match o
    case None => true
    case Some(Resolved(v)) => b == Returned(v)
    case Some(Rejected(e)) => Explained(t, b, e)
  }

  predicate Faithful(t: Token, r: Run, c: Command) {
    && Ended(r.body)
    && (c == SettlementOf(r.key, t, r.body)
        || (r.body.Threw? && CarriesForeign(t, r.body.error) && c.Finish? && c.key == r.key && c.token == t))
  }

  predicate RunOk(store: Store, t: Token, r: Run) {
    && (!r.phase.Owner? || r.body.NotStarted? ==> NotBegun(r))
    && (r.reason.Some? ==> IsAbortReason(r.reason.value, t))
    && (Ended(r.body) ==> r.race.Some?)
    && OutcomeOk(t, r.body, r.race)
    && OutcomeOk(t, r.body, r.delivered)
    && (r.settling.Following? ==>
          r.settling.body == t || (r.body.Threw? && StillRunning(r.body.error) == Some(r.settling.body)))
    && |r.issued| == (if r.settling.Decided? then 1 else 0)
    && (forall c | c in r.issued :: Faithful(t, r, c))
    && (Guarded(r) ==> Holds(store, r.key, t))
  }

  predicate Inv(s: State) {
    && (forall t | t in s.runs :: RunOk(s.store, t, s.runs[t]))
    && (forall c | c in s.wire ::
          (c.Finish? || c.Release?) && c.token in s.runs && s.runs[c.token].issued == [c])
    && (forall k | k in s.store && s.store[k].Held? ::
          s.store[k].token in s.runs && s.runs[s.store[k].token].key == k
          && s.runs[s.store[k].token].phase.Owner?)
  }

  /** Only one delivery's own bookkeeping moved. */
  lemma RunMoves(s: State, t: Token, r: Run)
    requires Inv(s) && t in s.runs && RunOk(s.store, t, r)
    requires r.key == s.runs[t].key && r.issued == s.runs[t].issued
    requires s.runs[t].phase.Owner? ==> r.phase.Owner?
    ensures Inv(s.(runs := s.runs[t := r]))
  {
  }

  lemma RunSends(s: State, t: Token, c: Command)
    requires Inv(s) && t in s.runs && !s.runs[t].settling.Decided?
    requires Faithful(t, s.runs[t], c)
    ensures Inv(Send(s, t, c))
  {
    var r := s.runs[t];
    var r' := r.(settling := Decided, issued := r.issued + [c]);
    assert r'.issued == [c];
    assert RunOk(s.store, t, r');
  }

  /** The store changed without taking any key from under a body. */
  lemma StoreMoves(s: State, store: Store)
    requires Inv(s)
    requires forall t | t in s.runs && Guarded(s.runs[t]) :: Holds(store, s.runs[t].key, t)
    requires forall k | k in store && store[k].Held? :: k in s.store && s.store[k] == store[k]
    ensures Inv(s.(store := store))
  {
  }

  lemma AcquireKeepsInv(s: State, t: Token)
    requires Inv(s) && Enabled(s, AcquireLands(t))
    ensures Inv(Apply(s, AcquireLands(t)))
  {
    var s' := Apply(s, AcquireLands(t));
    forall u | u in s'.runs ensures RunOk(s'.store, u, s'.runs[u]) {
      assert RunOk(s.store, u, s.runs[u]);
    }
  }

  lemma SettleKeepsInv(s: State, c: Command)
    requires Inv(s) && c in s.wire
    ensures Inv(Apply(s, SettleLands(c)))
  {
    forall t | t in s.runs && Guarded(s.runs[t]) ensures Holds(After(s.store, c), s.runs[t].key, t) {
      assert RunOk(s.store, t, s.runs[t]);
      WhatChangesAKey(s.store, c, s.runs[t].key);
      assert c in s.runs[c.token].issued;
    }
    StoreMoves(s, After(s.store, c));
  }

  lemma DecideKeepsInv(s: State, t: Token)
    requires Inv(s) && Enabled(s, Decides(t))
    ensures Inv(Decide(s, t))
  {
    var r := s.runs[t];
    assert RunOk(s.store, t, r);
    match r.delivered.value
    case Resolved(v) => RunSends(s, t, Finish(r.key, t, KeptOf(v)));
    case Rejected(e) =>
      match StillRunning(e)
      case Some(body) => RunMoves(s, t, r.(settling := Following(body)));
      case None => RunSends(s, t, Release(r.key, t));
  }

  lemma RunStepKeepsInv(s: State, a: Action)
    requires Inv(s) && Enabled(s, a)
    requires a.BodyStarts? || a.TimeoutFires? || a.AbortLands? || a.BodyEnds? || a.DeliveryEnds? || a.Crash?
    ensures Inv(Apply(s, a))
  {
    var r := s.runs[a.token];
    assert RunOk(s.store, a.token, r);
    if a.DeliveryEnds? && r.race.value.Rejected? {
      SubstitutionKeepsTheBody(r.reason, r.race.value.error, a.token);
    }
    RunMoves(s, a.token, Apply(s, a).runs[a.token]);
  }

  lemma FollowedKeepsInv(s: State, t: Token)
    requires Inv(s) && Enabled(s, FollowedEnds(t))
    ensures Inv(Apply(s, FollowedEnds(t)))
  {
    assert RunOk(s.store, t, s.runs[t]);
    RunSends(s, t, SettlementOf(s.runs[t].key, t, s.runs[s.runs[t].settling.body].body));
  }

  lemma StepKeepsInv(s: State, a: Action)
    requires Inv(s)
    ensures Inv(Do(s, a))
  {
    if Enabled(s, a) {
      match a
      case Start(t, k) =>
      case AcquireLands(t) => AcquireKeepsInv(s, t);
      case RenewLands(t) =>
      case Decides(t) => DecideKeepsInv(s, t);
      case FollowedEnds(t) => FollowedKeepsInv(s, t);
      case SettleLands(c) => SettleKeepsInv(s, c);
      case KeyExpires(k) =>
        assert forall t | t in s.runs :: RunOk(s.store, t, s.runs[t]);
        StoreMoves(s, s.store - {k});
      case OperatorForgets(k) =>
        assert forall t | t in s.runs :: RunOk(s.store, t, s.runs[t]);
        StoreMoves(s, After(s.store, Forget(k)));
      case _ => RunStepKeepsInv(s, a);
    }
  }

  lemma {:induction false} EveryRunKeepsInv(s: State, actions: seq<Action>)
    requires Inv(s)
    ensures Inv(Exec(s, actions))
    decreases actions
  {
    if actions != [] {
      StepKeepsInv(s, actions[0]);
      EveryRunKeepsInv(Do(s, actions[0]), actions[1..]);
    }
  }

  // ---------------------------------------------------------------- what a delivery is told

  /** The acquire answers by the key alone: a free key is given, and held from then on; a held one postpones the
      delivery; a complete one answers with what it keeps. The last two change nothing. */
  lemma WhatTheAcquireAnswers(s: State, t: Token)
    requires t in s.runs && s.runs[t].phase.Asking?
    ensures var k, s' := s.runs[t].key, Do(s, AcquireLands(t));
            && t in s'.runs
            && (s'.runs[t].phase.Owner? <==> k !in s.store)
            && (s'.runs[t].phase.Postponed? <==> k in s.store && s.store[k].Held?)
            && (forall kept :: s'.runs[t].phase == Replaying(kept) <==> k in s.store && s.store[k] == Complete(kept))
            && s'.store == (if k in s.store then s.store else s.store[k := Held(t)])
  {
  }

  /** The first abort of a delivery stays its reason, what ended its run first stays that, and what it was
      delivered as stays too. */
  lemma FirstOnesStay(s: State, a: Action, t: Token)
    requires Inv(s) && t in s.runs
    ensures var r, r' := s.runs[t], Do(s, a).runs[t];
            && (r.reason.Some? ==> r'.reason == r.reason)
            && (r.race.Some? ==> r'.race == r.race)
            && (r.delivered.Some? ==> r'.delivered == r.delivered)
            && (Ended(r.body) ==> r'.body == r.body)
  {
    assert RunOk(s.store, t, s.runs[t]);
  }

  /** And which is first is told by the step: a timeout before the body ends, or the end of the body; an abort
      only gives a reason. */
  lemma WhatComesFirst(s: State, t: Token, outcome: Outcome, kind: Kind)
    requires Inv(s) && InProcess(s, t) && s.runs[t].body.Alive? && s.runs[t].race.None? && s.runs[t].reason.None?
    requires kind in {Cancelled, ShutdownAbort}
    ensures var r := Do(s, TimeoutFires(t)).runs[t];
            r == s.runs[t].(reason := Some(TimeoutOf(t)), race := Some(Rejected(TimeoutOf(t))))
    ensures var r := Do(s, BodyEnds(t, outcome)).runs[t];
            && r.race == Some(outcome) && r.reason.None?
            && (forall v :: outcome == Resolved(v) <==> r.body == Returned(v))
            && (forall e :: outcome == Rejected(e) <==> r.body == Threw(e))
    ensures s.runs[t].delivered.None? ==>
              Do(s, AbortLands(t, kind)).runs[t] == s.runs[t].(reason := Some(AbortOf(kind)))
  {
  }

  predicate EndsAsAborted(r: Run) {
    r.delivered.Some? ==>
      && r.race.Some?
      && match r.race.value
         case Resolved(v) => r.delivered == Some(Resolved(v))
         case Rejected(e) => r.delivered == Some(Rejected(Substitute(r.reason, e)))
  }

  predicate AllEndAsAborted(s: State) {
    forall t | t in s.runs :: EndsAsAborted(s.runs[t])
  }

  lemma StepEndsAsAborted(s: State, a: Action)
    requires Inv(s) && AllEndAsAborted(s)
    ensures AllEndAsAborted(Do(s, a))
  {
    var s' := Do(s, a);
    forall t | t in s'.runs ensures EndsAsAborted(s'.runs[t]) {
      if t in s.runs { assert RunOk(s.store, t, s.runs[t]) && EndsAsAborted(s.runs[t]); }
    }
  }

  lemma {:induction false} RunEndsAsAborted(s: State, actions: seq<Action>)
    requires Inv(s) && AllEndAsAborted(s)
    ensures AllEndAsAborted(Exec(s, actions)) && Inv(Exec(s, actions))
    decreases actions
  {
    if actions != [] {
      StepKeepsInv(s, actions[0]);
      StepEndsAsAborted(s, actions[0]);
      RunEndsAsAborted(Do(s, actions[0]), actions[1..]);
    }
  }

  /** In every run: a delivery whose body returned before any timeout resolves with what it returned, aborted or
      not; any other that ended fails, as cancelled if it was cancelled first, as shut down if it was shut down
      first and what ended it is not for good, and with what ended it otherwise. */
  lemma DeliveredAsAborted(actions: seq<Action>, t: Token)
    requires t in Exec(INIT, actions).runs && Exec(INIT, actions).runs[t].delivered.Some?
    ensures var r := Exec(INIT, actions).runs[t];
            && r.race.Some?
            && (forall v :: r.race == Some(Resolved(v)) ==> r.delivered == Some(Resolved(v)) && r.body == Returned(v))
            && (r.race.value.Rejected? ==>
                  && r.delivered.value.Rejected?
                  && (r.reason == Some(AbortOf(Cancelled)) ==> r.delivered.value.error.kind == Cancelled)
                  && (r.reason == Some(AbortOf(ShutdownAbort)) && !IsUnrecoverable(r.race.value.error) ==>
                        r.delivered.value.error.kind == ShutdownAbort)
                  && (r.reason.None? || r.reason == Some(TimeoutOf(t)) ==> r.delivered == r.race))
  {
    RunEndsAsAborted(INIT, actions);
    var s := Exec(INIT, actions);
    assert EndsAsAborted(s.runs[t]) && RunOk(s.store, t, s.runs[t]);
    if s.runs[t].race.value.Rejected? {
      WhatADeliveryFailsWith(s.runs[t].reason, s.runs[t].race.value.error);
    }
  }

  // ---------------------------------------------------------------- what the lease is for

  predicate AtMostOneBody(s: State) {
    forall t, u | t in s.runs && u in s.runs && BodyAlive(s.runs[t]) && BodyAlive(s.runs[u])
                  && s.runs[t].key == s.runs[u].key :: t == u
  }

  /** In every interleaving in which no lease runs out under a body, no two handler bodies of
      one key are ever running, and the one that is holds the key. */
  lemma OneBodyPerKey(actions: seq<Action>)
    ensures AtMostOneBody(Exec(INIT, actions))
    ensures var s := Exec(INIT, actions);
            forall t | t in s.runs && BodyAlive(s.runs[t]) :: Holds(s.store, s.runs[t].key, t)
  {
    EveryRunKeepsInv(INIT, actions);
    var s := Exec(INIT, actions);
    forall t | t in s.runs && BodyAlive(s.runs[t]) ensures Holds(s.store, s.runs[t].key, t) {
      assert RunOk(s.store, t, s.runs[t]);
    }
  }

  /** However timeout, cancellation, shutdown and the end of the body fall, a possession is
      settled at most once, never before its body ended, by `complete` with what the body
      returned, and by `release` for a body that threw unless what it threw names another
      body: then, and only then, may it be settled by `complete`. */
  lemma SettledOnceAfterItsBody(actions: seq<Action>, t: Token)
    requires t in Exec(INIT, actions).runs
    ensures var r := Exec(INIT, actions).runs[t];
            && |r.issued| <= 1
            && (r.issued != [] ==>
                  && Ended(r.body)
                  && (r.body.Returned? || !CarriesForeign(t, r.body.error) ==>
                        r.issued == [if r.body.Returned? then Finish(r.key, t, KeptOf(r.body.value))
                                     else Release(r.key, t)]))
  {
    EveryRunKeepsInv(INIT, actions);
    var s := Exec(INIT, actions);
    var r := s.runs[t];
    assert RunOk(s.store, t, r);
    if r.issued != [] {
      assert r.issued[0] in r.issued;
      assert r.issued == [r.issued[0]];
    }
  }
}
