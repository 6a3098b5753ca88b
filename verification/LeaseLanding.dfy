/** One success per key on the clock: the `complete` of a body that returned must land before the lease it
    was last renewed to runs out, and nothing renews it in between. */
module LeaseLanding {
  import opened Errors
  import opened KeyStore
  import opened Lease
  import opened LeaseOutcomes
  import opened LeaseSuccess
  import opened LeaseTiming

  /** The timed deliveries, and when each body ended. */
  datatype Paced = Paced(timed: Timed, ended: map<Token, int>)

  const PACED_START := Paced(START, map[])

  /** A body returned and its `complete` has yet to land; a process that died before sending it owes none. */
  predicate Owes(s: State, t: Token) {
    Succeeded(s, t) && !Landed(s, t) && (!s.runs[t].crashed || s.runs[t].issued != [])
  }

  /** What a lease has no part in: no process dies between the return and the sending, and no complete key
      that a body succeeded for is forgotten or outlives its retention. */
  predicate Calm(s: State, a: Action) {
    && !(a.Crash? && Succeeded(s, a.token) && s.runs[a.token].issued == [])
    && !(LosesASuccess(s, a) && (a.OperatorForgets? || IsComplete(s.store, a.key)))
  }

  /** A `complete` lands at most `landing` ms after its body returned. */
  predicate CanPace(late: Lateness, landing: nat, y: Paced, a: TimedAction) {
    && CanAct(late, y.timed, a)
    && match a
       case Tick(ms) =>
         forall t | t in y.ended && Owes(y.timed.state, t) :: y.timed.now + ms <= y.ended[t] + landing
       case Act(action) => Calm(y.timed.state, action)
  }

  function PacedDo(late: Lateness, landing: nat, y: Paced, a: TimedAction): Paced {
    if !CanPace(late, landing, y, a) then y
    else Paced(TimedDo(late, y.timed, a),
               if a.Act? && a.action.BodyEnds? then y.ended[a.action.token := y.timed.now] else y.ended)
  }

  function PacedExec(late: Lateness, landing: nat, y: Paced, actions: seq<TimedAction>): Paced
    decreases actions
  {
    if actions == [] then y else PacedExec(late, landing, PacedDo(late, landing, y, actions[0]), actions[1..])
  }

  // ---------------------------------------------------------------- within the slack

  predicate WithinAll(late: Lateness, landing: nat) {
    late.reply + late.renewal + landing < SLACK_MS
  }

  /** A body that returned is not overdue, and its lease outlives its landing. */
  predicate LandsInTime(landing: nat, y: Paced, t: Token)
    requires t in y.timed.state.runs
  {
    var k := y.timed.state.runs[t].key;
    && t in y.ended && y.ended[t] <= y.timed.now <= y.ended[t] + landing
    && k in y.timed.expiry && y.ended[t] + landing < y.timed.expiry[k]
  }

  predicate StillHolds(s: State, t: Token) {
    Succeeded(s, t) && Holds(s.store, s.runs[t].key, t)
  }

  ghost predicate PacedInv(late: Lateness, landing: nat, y: Paced) {
    var s := y.timed.state;
    && TimedInv(late, y.timed) && SuccessInv(s)
    && (forall t | Succeeded(s, t) :: !s.runs[t].crashed || s.runs[t].issued != [])
    && (forall t | StillHolds(s, t) :: !Landed(s, t) && LandsInTime(landing, y, t))
  }

  /** On the clock too, an action does what it does off it. */
  lemma ActIsAStep(late: Lateness, x: Timed, a: Action)
    requires WithinSlack(late) && TimedInv(late, x) && CanAct(late, x, Act(a))
    ensures TimedDo(late, x, Act(a)).state == Do(x.state, a) && TimedDo(late, x, Act(a)).now == x.now
  {
    if a.KeyExpires? { ExpiryIsAllowed(late, x, a.key); }
  }

  /** No key is lost over a success. */
  lemma NothingIsLost(late: Lateness, landing: nat, y: Paced, a: Action)
    requires PacedInv(late, landing, y) && CanPace(late, landing, y, Act(a))
    ensures !LosesASuccess(y.timed.state, a)
  {
    var s := y.timed.state;
    if a.KeyExpires? {
      forall t | t in s.runs && Succeeded(s, t) && s.runs[t].key == a.key ensures IsComplete(s.store, a.key) {
        assert Guards(s, t);
        if StillHolds(s, t) { NotYetOver(late, landing, y, t); }
      }
    }
  }

  lemma NotYetOver(late: Lateness, landing: nat, y: Paced, t: Token)
    requires PacedInv(late, landing, y) && StillHolds(y.timed.state, t)
    ensures y.timed.state.runs[t].key in y.timed.expiry && y.timed.now < y.timed.expiry[y.timed.state.runs[t].key]
  {
    assert LandsInTime(landing, y, t);
  }

  /** The expiry of a key that stays held only moves by a renewal. */
  lemma ExpiryStays(late: Lateness, x: Timed, a: Action, t: Token)
    requires WithinSlack(late) && TimedInv(late, x) && CanAct(late, x, Act(a)) && StillHolds(x.state, t)
    requires StillHolds(Do(x.state, a), t) && x.state.runs[t].key in x.expiry
    ensures var k := x.state.runs[t].key;
            && k in TimedDo(late, x, Act(a)).expiry
            && TimedDo(late, x, Act(a)).expiry[k] in {x.expiry[k], x.now + LEASE_MS}
  {
    ActIsAStep(late, x, a);
    SuccessStays(x.state, a, t);
  }

  lemma HeldBefore(s: State, a: Action, t: Token)
    requires Inv(s) && SuccessInv(s) && Succeeded(s, t) && StillHolds(Do(s, a), t)
    ensures StillHolds(s, t) && Do(s, a).runs[t].key == s.runs[t].key
  {
    SuccessStays(s, a, t);
    assert Guards(s, t);
  }

  lemma StaysUnlanded(s: State, a: Action, t: Token)
    requires Inv(s) && StillHolds(s, t) && !Landed(s, t) && StillHolds(Do(s, a), t)
    ensures !Landed(Do(s, a), t)
  {
    SuccessStays(s, a, t);
    SentStays(s, a, t);
    assert RunOk(s.store, t, s.runs[t]);
    if s.runs[t].issued != [] { OwnCommand(s, t); }
    if a.SettleLands? && Enabled(s, a) && a.command.token == t {
      LandedOwnCompletes(s, a.command, t);
    }
  }

  lemma OldOnesLand(late: Lateness, landing: nat, y: Paced, a: Action, t: Token)
    requires WithinAll(late, landing) && PacedInv(late, landing, y) && CanPace(late, landing, y, Act(a))
    requires Succeeded(y.timed.state, t) && StillHolds(Do(y.timed.state, a), t)
    ensures var y' := PacedDo(late, landing, y, Act(a));
            t in y'.timed.state.runs && !Landed(y'.timed.state, t) && LandsInTime(landing, y', t)
  {
    var s := y.timed.state;
    ActIsAStep(late, y.timed, a);
    HeldBefore(s, a, t);
    assert LandsInTime(landing, y, t);
    StaysUnlanded(s, a, t);
    ExpiryStays(late, y.timed, a, t);
    assert a.BodyEnds? ==> a.token != t;
  }

  lemma SentAfterTheEnd(s: State, t: Token)
    requires Inv(s) && t in s.runs
    ensures s.runs[t].issued != [] ==> Ended(s.runs[t].body)
  {
    assert RunOk(s.store, t, s.runs[t]);
    if s.runs[t].issued != [] { assert s.runs[t].issued[0] in s.runs[t].issued; }
  }

  /** A body returns while its lease has what is left of the slack to go. */
  lemma NewOnesLand(late: Lateness, landing: nat, y: Paced, a: Action, t: Token)
    requires WithinAll(late, landing) && PacedInv(late, landing, y) && CanPace(late, landing, y, Act(a))
    requires !Succeeded(y.timed.state, t) && Succeeded(Do(y.timed.state, a), t)
    ensures var y' := PacedDo(late, landing, y, Act(a));
            t in y'.timed.state.runs && !Landed(y'.timed.state, t) && LandsInTime(landing, y', t)
  {
    var x := y.timed;
    ActIsAStep(late, x, a);
    NewSuccess(x.state, a, t);
    assert RunOk(x.state.store, t, x.state.runs[t]);
    SentAfterTheEnd(x.state, t);
    assert OnTime(late, x, t);
    assert TimedDo(late, x, Act(a)).expiry == x.expiry;
  }

  lemma StaysSent(s: State, a: Action, t: Token)
    requires Inv(s) && Calm(s, a) && Succeeded(Do(s, a), t)
    requires Succeeded(s, t) ==> !s.runs[t].crashed || s.runs[t].issued != []
    ensures !Do(s, a).runs[t].crashed || Do(s, a).runs[t].issued != []
  {
    if Succeeded(s, t) { SentStays(s, a, t); } else { NewSuccess(s, a, t); }
  }

  lemma ActKeepsPacedInv(late: Lateness, landing: nat, y: Paced, a: Action)
    requires WithinAll(late, landing) && PacedInv(late, landing, y) && CanPace(late, landing, y, Act(a))
    ensures PacedInv(late, landing, PacedDo(late, landing, y, Act(a)))
  {
    var s := y.timed.state;
    var y' := PacedDo(late, landing, y, Act(a));
    var s' := y'.timed.state;
    ActIsAStep(late, y.timed, a);
    TimedStepKeepsInv(late, y.timed, Act(a));
    NothingIsLost(late, landing, y, a);
    StepKeepsSuccessInv(s, a);
    forall t | Succeeded(s', t) ensures !s'.runs[t].crashed || s'.runs[t].issued != [] {
      StaysSent(s, a, t);
    }
    forall t | StillHolds(s', t) ensures !Landed(s', t) && LandsInTime(landing, y', t) {
      if Succeeded(s, t) { OldOnesLand(late, landing, y, a, t); } else { NewOnesLand(late, landing, y, a, t); }
    }
  }

  lemma TickKeepsPacedInv(late: Lateness, landing: nat, y: Paced, ms: nat)
    requires WithinAll(late, landing) && PacedInv(late, landing, y) && CanPace(late, landing, y, Tick(ms))
    ensures PacedInv(late, landing, PacedDo(late, landing, y, Tick(ms)))
  {
    var y' := PacedDo(late, landing, y, Tick(ms));
    TimedStepKeepsInv(late, y.timed, Tick(ms));
    forall t | StillHolds(y'.timed.state, t) ensures !Landed(y'.timed.state, t) && LandsInTime(landing, y', t) {
      assert StillHolds(y.timed.state, t);
      assert LandsInTime(landing, y, t);
      assert Owes(y.timed.state, t);
    }
  }

  lemma {:induction false} EveryPacedRunKeepsInv(late: Lateness, landing: nat, y: Paced, actions: seq<TimedAction>)
    requires WithinAll(late, landing) && PacedInv(late, landing, y)
    ensures PacedInv(late, landing, PacedExec(late, landing, y, actions))
    decreases actions
  {
    if actions != [] {
      if CanPace(late, landing, y, actions[0]) {
        match actions[0]
        case Tick(ms) => TickKeepsPacedInv(late, landing, y, ms);
        case Act(a) => ActKeepsPacedInv(late, landing, y, a);
      }
      EveryPacedRunKeepsInv(late, landing, PacedDo(late, landing, y, actions[0]), actions[1..]);
    }
  }

  // ---------------------------------------------------------------- and outside it

  ghost predicate PacedReachable(late: Lateness, landing: nat, y: Paced) {
    exists actions :: PacedExec(late, landing, PACED_START, actions) == y
  }

  lemma {:induction false} PacedExecAppends(late: Lateness, landing: nat, y: Paced, actions: seq<TimedAction>,
                                            a: TimedAction)
    ensures PacedExec(late, landing, y, actions + [a])
            == PacedDo(late, landing, PacedExec(late, landing, y, actions), a)
    decreases actions
  {
    if actions == [] {
      assert PacedExec(late, landing, PacedDo(late, landing, y, a), []) == PacedDo(late, landing, y, a);
      assert (actions + [a])[1..] == [];
    } else {
      assert (actions + [a])[1..] == actions[1..] + [a];
      PacedExecAppends(late, landing, PacedDo(late, landing, y, actions[0]), actions[1..], a);
    }
  }

  lemma Next(late: Lateness, landing: nat, y: Paced, a: TimedAction) returns (y': Paced)
    requires PacedReachable(late, landing, y) && CanPace(late, landing, y, a)
    ensures y' == PacedDo(late, landing, y, a) && PacedReachable(late, landing, y')
  {
    var actions :| PacedExec(late, landing, PACED_START, actions) == y;
    PacedExecAppends(late, landing, PACED_START, actions, a);
    y' := PacedDo(late, landing, y, a);
  }

  predicate NobodySucceeded(s: State) {
    forall t | t in s.runs :: !s.runs[t].body.Returned?
  }

  /** Before any body returned, nothing is held to a landing. */
  lemma NextBefore(late: Lateness, landing: nat, y: Paced, a: TimedAction) returns (y': Paced)
    requires PacedReachable(late, landing, y) && NobodySucceeded(y.timed.state) && CanAct(late, y.timed, a)
    requires a.Act? ==> !a.action.BodyEnds?
    ensures y' == Paced(TimedDo(late, y.timed, a), y.ended) && PacedReachable(late, landing, y')
  {
    y' := Next(late, landing, y, a);
  }

  lemma FirstHasTheKey(late: Lateness, landing: nat) returns (y: Paced)
    ensures PacedReachable(late, landing, y)
    ensures y == Paced(OneDelivery(NotStarted, map["k" := Held("a")], 0, map["k" := LEASE_MS], 0), map[])
  {
    assert PacedExec(late, landing, PACED_START, []) == PACED_START;
    y := NextBefore(late, landing, PACED_START, Act(Start("a", "k")));
    assert y.timed == START.(state := State(map["a" := Idle(Asking, NotStarted)], map[], {}));
    y := NextBefore(late, landing, y, Act(AcquireLands("a")));
  }

  /** A first delivery takes the key and begins `wait` ms after. */
  lemma FirstIsUnderWay(late: Lateness, landing: nat, wait: nat) returns (y: Paced)
    requires wait <= late.reply
    ensures PacedReachable(late, landing, y)
    ensures y == Paced(OneDelivery(Alive, map["k" := Held("a")], wait, map["k" := LEASE_MS], wait), map[])
  {
    y := FirstHasTheKey(late, landing);
    y := NextBefore(late, landing, y, Tick(wait));
    assert y.timed == OneDelivery(NotStarted, map["k" := Held("a")], wait, map["k" := LEASE_MS], 0);
    y := NextBefore(late, landing, y, Act(BodyStarts("a")));
  }

  const DONE := Idle(Owner, Returned(Produced(None))).(race := Some(Resolved(Produced(None))))

  function DoneAt(store: Store, now: int, expiry: map<Key, int>, wait: int, at: int): Paced {
    Paced(Timed(State(map["a" := DONE], store, {}), now, expiry, map["a" := Watch(0, wait, 0)]), map["a" := at])
  }

  lemma FirstReturns(late: Lateness, landing: nat, wait: nat, at: nat) returns (y: Paced)
    requires wait <= late.reply && wait <= at <= wait + RENEW_MS + late.renewal
    ensures PacedReachable(late, landing, y)
    ensures y == DoneAt(map["k" := Held("a")], at, map["k" := LEASE_MS], wait, at)
  {
    y := FirstIsUnderWay(late, landing, wait);
    y := NextBefore(late, landing, y, Tick(at - wait));
    assert y.timed == OneDelivery(Alive, map["k" := Held("a")], at, map["k" := LEASE_MS], wait);
    y := Next(late, landing, y, Act(BodyEnds("a", Resolved(Produced(None)))));
  }

  /** It returns before its first renewal lands, and its lease runs out before its `complete` does. */
  lemma LeaseRunsOutOverASuccess(late: Lateness, landing: nat, wait: nat, at: nat) returns (y: Paced)
    requires wait <= late.reply && wait <= at <= wait + RENEW_MS + late.renewal && at <= LEASE_MS <= at + landing
    ensures PacedReachable(late, landing, y) && y == DoneAt(map[], LEASE_MS, map[], wait, at)
  {
    y := FirstReturns(late, landing, wait, at);
    y := Next(late, landing, y, Tick(LEASE_MS - at));
    assert y == DoneAt(map["k" := Held("a")], LEASE_MS, map["k" := LEASE_MS], wait, at);
    y := Next(late, landing, y, Act(KeyExpires("k")));
  }

  lemma SecondHasTheKey(late: Lateness, landing: nat, y: Paced, wait: int, at: int) returns (y': Paced)
    requires PacedReachable(late, landing, y) && y == DoneAt(map[], LEASE_MS, map[], wait, at)
    ensures PacedReachable(late, landing, y')
    ensures y'.timed.state == State(map["a" := DONE, "b" := Idle(Owner, NotStarted)], map["k" := Held("b")], {})
  {
    y' := Next(late, landing, y, Act(Start("b", "k")));
    assert y'.timed.state == State(map["a" := DONE, "b" := Idle(Asking, NotStarted)], map[], {});
    y' := Next(late, landing, y', Act(AcquireLands("b")));
  }

  lemma SecondBegins(late: Lateness, landing: nat, y: Paced, wait: int, at: int) returns (y': Paced)
    requires PacedReachable(late, landing, y) && y == DoneAt(map[], LEASE_MS, map[], wait, at)
    ensures PacedReachable(late, landing, y')
    ensures y'.timed.state.runs == map["a" := DONE, "b" := Idle(Owner, Alive)]
  {
    y' := SecondHasTheKey(late, landing, y, wait, at);
    y' := Next(late, landing, y', Act(BodyStarts("b")));
  }

  ghost predicate NeverTwoSuccesses(late: Lateness, landing: nat) {
    forall actions :: AtMostOneSuccess(PacedExec(late, landing, PACED_START, actions).timed.state)
  }

  lemma TwoSuccessesOutsideTheSlack(late: Lateness, landing: nat)
    requires !WithinAll(late, landing)
    ensures !NeverTwoSuccesses(late, landing)
  {
    var wait := if late.reply <= SLACK_MS then late.reply else SLACK_MS;
    var due := wait + RENEW_MS + late.renewal;
    var at := if due <= LEASE_MS then due else LEASE_MS;
    var y := LeaseRunsOutOverASuccess(late, landing, wait, at);
    y := SecondBegins(late, landing, y, wait, at);
    assert Spends(y.timed.state, "a") && Spends(y.timed.state, "b");
    assert !AtMostOneSuccess(y.timed.state);
  }

  /** On the clock, with no process dying between a return and its sending, no success forgotten and none
      past its retention: every run has at most one success per key if and only if the reply to the acquire,
      a renewal and the landing of the `complete` can together be late by less than 20 s. */
  lemma OneSuccessIffWithinSlack(late: Lateness, landing: nat)
    ensures NeverTwoSuccesses(late, landing) <==> late.reply + late.renewal + landing < 20_000
  {
    if WithinAll(late, landing) {
      forall actions ensures AtMostOneSuccess(PacedExec(late, landing, PACED_START, actions).timed.state) {
        EveryPacedRunKeepsInv(late, landing, PACED_START, actions);
        InvGivesOne(PacedExec(late, landing, PACED_START, actions).timed.state);
      }
    } else {
      TwoSuccessesOutsideTheSlack(late, landing);
    }
  }
}
