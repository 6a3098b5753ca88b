/** The lease protocol against a clock. The key is held for 30 s and renewed every 10 s while
    the body lives; nothing is assumed of expiry, and how late a command may land is a
    parameter. */
module LeaseTiming {
  import opened Errors
  import opened KeyStore
  import opened Lease
  import opened LeaseOutcomes

  const RENEW_MS := 10_000
  const HELD_RETRY_FLOOR_MS := 100
  const HELD_RETRY_MS := 1_000

  /** How late things may be: `reply` ms from the moment the acquire lands to the moment the
      renewal timer starts, `renewal` ms from the moment a renewal is due to the moment it lands. */
  datatype Lateness = Lateness(reply: nat, renewal: nat)

  /** When the key was given to a delivery, when its timer started, how many renewals landed. */
  datatype Watch = Watch(granted: int, began: int, renewed: nat)

  datatype Timed = Timed(state: State, now: int, expiry: map<Key, int>, watches: map<Token, Watch>)

  datatype TimedAction = Tick(ms: nat) | Act(action: Action)

  const START := Timed(INIT, 0, map[], map[])

  /** The last moment at which the next thing the lease waits for can happen. */
  function Due(late: Lateness, r: Run, w: Watch): int {
    if r.body.NotStarted? then w.granted + late.reply
    else w.began + RENEW_MS * (w.renewed + 1) + late.renewal
  }

  predicate Watched(x: Timed, t: Token) {
    t in x.state.runs && t in x.watches && Guarded(x.state.runs[t])
  }

  predicate CanAct(late: Lateness, x: Timed, a: TimedAction) {
    match a
    case Tick(ms) =>
      forall t | t in x.watches && Watched(x, t) :: x.now + ms <= Due(late, x.state.runs[t], x.watches[t])
    case Act(KeyExpires(k)) => k in x.state.store && k in x.expiry && x.expiry[k] <= x.now
    case Act(RenewLands(t)) =>
      t in x.watches && x.watches[t].began + RENEW_MS * (x.watches[t].renewed + 1) <= x.now
      && t in x.state.runs && x.state.runs[t].phase.Owner? && !x.state.runs[t].body.NotStarted?
    case Act(action) => Enabled(x.state, action)
  }

  function TimedDo(late: Lateness, x: Timed, a: TimedAction): Timed {
    if !CanAct(late, x, a) then x
    else match a
      case Tick(ms) => x.(now := x.now + ms)
      case Act(KeyExpires(k)) =>
        x.(state := x.state.(store := x.state.store - {k}), expiry := x.expiry - {k})
      case Act(RenewLands(t)) =>
        var w := x.watches[t];
        var k := x.state.runs[t].key;
        x.(watches := x.watches[t := w.(renewed := w.renewed + 1)],
           expiry := if Holds(x.state.store, k, t) then x.expiry[k := x.now + LEASE_MS] else x.expiry)
      case Act(AcquireLands(t)) =>
        var x' := x.(state := Do(x.state, a.action));
        if x'.state.runs[t].phase.Owner?
        then x'.(expiry := x.expiry[x.state.runs[t].key := x.now + LEASE_MS],
                 watches := x.watches[t := Watch(x.now, x.now, 0)])
        else x'
      case Act(BodyStarts(t)) =>
        var x' := x.(state := Do(x.state, a.action));
        if t in x.watches then x'.(watches := x.watches[t := x.watches[t].(began := x.now)]) else x'
      case Act(SettleLands(c)) =>
        var x' := x.(state := Do(x.state, a.action));
        if c.Finish? && After(x.state.store, c) != x.state.store
        then x'.(expiry := x.expiry[c.key := x.now + RETENTION_MS]) else x'
      case Act(action) => x.(state := Do(x.state, action))
  }

  function TimedExec(late: Lateness, x: Timed, actions: seq<TimedAction>): Timed
    decreases actions
  {
    if actions == [] then x else TimedExec(late, TimedDo(late, x, actions[0]), actions[1..])
  }

  // ---------------------------------------------------------------- the slack

  /** All the lateness the two constants leave room for. */
  const SLACK_MS := LEASE_MS - RENEW_MS

  predicate WithinSlack(late: Lateness) {
    late.reply + late.renewal < SLACK_MS
  }

  /** A watched delivery is not overdue, and its lease outlives what it waits for. */
  predicate OnTime(late: Lateness, x: Timed, t: Token)
    requires Watched(x, t)
  {
    var r, w := x.state.runs[t], x.watches[t];
    && r.key in x.expiry
    && x.now <= Due(late, r, w)
    && (r.body.NotStarted? ==> w.granted + LEASE_MS <= x.expiry[r.key] && w.granted <= x.now && w.renewed == 0)
    && (!r.body.NotStarted? ==> w.began + RENEW_MS * w.renewed + LEASE_MS - late.reply <= x.expiry[r.key])
  }

  predicate TimedInv(late: Lateness, x: Timed) {
    && Inv(x.state)
    && (forall t | t in x.state.runs && x.state.runs[t].phase.Owner? :: t in x.watches)
    && (forall t | t in x.watches && Watched(x, t) :: OnTime(late, x, t))
  }

  lemma LeaseOutlivesTheWait(late: Lateness, x: Timed, t: Token)
    requires WithinSlack(late) && TimedInv(late, x)
    requires t in x.watches && Watched(x, t)
    ensures x.now < x.expiry[x.state.runs[t].key]
  {
    assert OnTime(late, x, t);
  }

  /** What expires on the clock is what `Lease` lets expire. */
  lemma ExpiryIsAllowed(late: Lateness, x: Timed, k: Key)
    requires WithinSlack(late) && TimedInv(late, x) && CanAct(late, x, Act(KeyExpires(k)))
    ensures Enabled(x.state, KeyExpires(k))
  {
    forall t | t in x.state.runs && Guarded(x.state.runs[t]) ensures x.state.store[k] != Held(t) {
      assert RunOk(x.state.store, t, x.state.runs[t]);
      LeaseOutlivesTheWait(late, x, t);
    }
  }

  /** A watched delivery an action left alone is on time after it as before. */
  lemma StaysOnTime(late: Lateness, x: Timed, x': Timed, t: Token)
    requires TimedInv(late, x) && t in x.watches && Watched(x, t) && Watched(x', t)
    requires x'.now == x.now && x'.watches[t] == x.watches[t]
    requires x'.state.runs[t].key == x.state.runs[t].key
    requires x'.state.runs[t].body.NotStarted? == x.state.runs[t].body.NotStarted?
    requires var k := x.state.runs[t].key; k in x'.expiry && (k in x.expiry ==> x.expiry[k] <= x'.expiry[k])
    ensures OnTime(late, x', t)
  {
    assert OnTime(late, x, t);
  }

  /** An action other than the acquire never puts a delivery under guard, never moves its key,
      and only `BodyStarts` starts its body. */
  lemma GuardOnlyComesWithTheKey(s: State, a: Action, t: Token)
    requires Inv(s) && t in Do(s, a).runs && Guarded(Do(s, a).runs[t])
    requires a != AcquireLands(t)
    ensures t in s.runs && Guarded(s.runs[t]) && Do(s, a).runs[t].key == s.runs[t].key
    ensures a != BodyStarts(t) ==> Do(s, a).runs[t].body == s.runs[t].body
  {
    assert t in s.runs ==> RunOk(s.store, t, s.runs[t]);
  }

  lemma ActKeepsInv(late: Lateness, x: Timed, a: Action)
    requires WithinSlack(late) && TimedInv(late, x) && CanAct(late, x, Act(a))
    requires !a.RenewLands? && !a.KeyExpires?
    ensures TimedInv(late, TimedDo(late, x, Act(a)))
  {
    var x' := TimedDo(late, x, Act(a));
    StepKeepsInv(x.state, a);
    assert x'.state == Do(x.state, a);
    forall t | t in x'.watches && Watched(x', t) ensures OnTime(late, x', t) {
      if a == AcquireLands(t) {
        TakerIsOnTime(late, x, t);
      } else {
        GuardedStaysOnTime(late, x, a, t);
      }
    }
  }

  lemma TakerIsOnTime(late: Lateness, x: Timed, t: Token)
    requires TimedInv(late, x) && CanAct(late, x, Act(AcquireLands(t)))
    requires var x' := TimedDo(late, x, Act(AcquireLands(t))); t in x'.watches && Watched(x', t)
    ensures OnTime(late, TimedDo(late, x, Act(AcquireLands(t))), t)
  {
    assert RunOk(x.state.store, t, x.state.runs[t]);
  }

  lemma GuardedStaysOnTime(late: Lateness, x: Timed, a: Action, t: Token)
    requires WithinSlack(late) && TimedInv(late, x) && CanAct(late, x, Act(a))
    requires !a.RenewLands? && !a.KeyExpires? && a != AcquireLands(t)
    requires var x' := TimedDo(late, x, Act(a)); t in x'.watches && Watched(x', t)
    ensures OnTime(late, TimedDo(late, x, Act(a)), t)
  {
    var x' := TimedDo(late, x, Act(a));
    assert x'.state == Do(x.state, a);
    GuardOnlyComesWithTheKey(x.state, a, t);
    assert OnTime(late, x, t);
    KeyStaysTimed(late, x, a, t);
    if a != BodyStarts(t) {
      StaysOnTime(late, x, x', t);
    }
  }

  /** The expiry of a key a body is guarded by only moves when its own lease does. */
  lemma KeyStaysTimed(late: Lateness, x: Timed, a: Action, t: Token)
    requires TimedInv(late, x) && CanAct(late, x, Act(a)) && !a.RenewLands? && !a.KeyExpires?
    requires t in x.watches && Watched(x, t) && t in Do(x.state, a).runs && Guarded(Do(x.state, a).runs[t])
    requires a != AcquireLands(t)
    ensures var k := x.state.runs[t].key;
            k in x.expiry && k in TimedDo(late, x, Act(a)).expiry
            && TimedDo(late, x, Act(a)).expiry[k] == x.expiry[k]
  {
    assert OnTime(late, x, t);
    assert RunOk(x.state.store, t, x.state.runs[t]);
    if a.SettleLands? {
      WhatChangesAKey(x.state.store, a.command, x.state.runs[t].key);
      OwnCommand(x.state, a.command.token);
      assert RunOk(x.state.store, a.command.token, x.state.runs[a.command.token]);
      assert a.command in x.state.runs[a.command.token].issued;
    }
  }

  lemma RenewKeepsInv(late: Lateness, x: Timed, t: Token)
    requires WithinSlack(late) && TimedInv(late, x) && CanAct(late, x, Act(RenewLands(t)))
    ensures TimedInv(late, TimedDo(late, x, Act(RenewLands(t))))
  {
    var x' := TimedDo(late, x, Act(RenewLands(t)));
    forall u | u in x'.watches && Watched(x', u) ensures OnTime(late, x', u) {
      assert OnTime(late, x, u);
      assert RunOk(x.state.store, u, x.state.runs[u]);
      LeaseOutlivesTheWait(late, x, u);
    }
  }

  lemma TimedStepKeepsInv(late: Lateness, x: Timed, a: TimedAction)
    requires WithinSlack(late) && TimedInv(late, x)
    ensures TimedInv(late, TimedDo(late, x, a))
  {
    if CanAct(late, x, a) {
      match a
      case Tick(ms) =>
        var x' := TimedDo(late, x, a);
        forall t | t in x'.watches && Watched(x', t) ensures OnTime(late, x', t) {
          assert Watched(x, t) && OnTime(late, x, t);
        }
      case Act(RenewLands(t)) => RenewKeepsInv(late, x, t);
      case Act(KeyExpires(k)) =>
        ExpiryIsAllowed(late, x, k);
        StepKeepsInv(x.state, KeyExpires(k));
        var x' := TimedDo(late, x, a);
        assert x'.state == Do(x.state, KeyExpires(k));
        forall t | t in x'.watches && Watched(x', t) ensures OnTime(late, x', t) {
          assert Watched(x, t);
          assert RunOk(x'.state.store, t, x'.state.runs[t]);
          assert OnTime(late, x, t);
        }
      case Act(action) => ActKeepsInv(late, x, action);
    }
  }

  lemma {:induction false} EveryTimedRunKeepsInv(late: Lateness, x: Timed, actions: seq<TimedAction>)
    requires WithinSlack(late) && TimedInv(late, x)
    ensures TimedInv(late, TimedExec(late, x, actions))
    decreases actions
  {
    if actions != [] {
      TimedStepKeepsInv(late, x, actions[0]);
      EveryTimedRunKeepsInv(late, TimedDo(late, x, actions[0]), actions[1..]);
    }
  }

  ghost predicate NeverTwoBodies(late: Lateness) {
    forall actions :: AtMostOneBody(TimedExec(late, START, actions).state)
  }

  ghost predicate TimedReachable(late: Lateness, x: Timed) {
    exists actions :: TimedExec(late, START, actions) == x
  }

  lemma {:induction false} TimedExecAppends(late: Lateness, x: Timed, actions: seq<TimedAction>, a: TimedAction)
    ensures TimedExec(late, x, actions + [a]) == TimedDo(late, TimedExec(late, x, actions), a)
    decreases actions
  {
    if actions == [] {
      assert TimedExec(late, TimedDo(late, x, a), []) == TimedDo(late, x, a);
      assert (actions + [a])[1..] == [];
    } else {
      assert (actions + [a])[1..] == actions[1..] + [a];
      TimedExecAppends(late, TimedDo(late, x, actions[0]), actions[1..], a);
    }
  }

  lemma Then(late: Lateness, x: Timed, a: TimedAction) returns (x': Timed)
    requires TimedReachable(late, x)
    ensures x' == TimedDo(late, x, a) && TimedReachable(late, x')
  {
    var actions :| TimedExec(late, START, actions) == x;
    TimedExecAppends(late, START, actions, a);
    x' := TimedDo(late, x, a);
  }

  function Idle(phase: Phase, body: Body): Run {
    Run("k", phase, body, None, None, None, Undecided, [], false)
  }

  function OneDelivery(body: Body, store: Store, now: int, expiry: map<Key, int>, began: int): Timed {
    Timed(State(map["a" := Idle(Owner, body)], store, {}), now, expiry, map["a" := Watch(0, began, 0)])
  }

  lemma FirstTakesTheKey(late: Lateness) returns (x: Timed)
    ensures TimedReachable(late, x)
    ensures x == OneDelivery(NotStarted, map["k" := Held("a")], 0, map["k" := LEASE_MS], 0)
  {
    assert TimedExec(late, START, []) == START;
    x := Then(late, START, Act(Start("a", "k")));
    assert x == START.(state := State(map["a" := Idle(Asking, NotStarted)], map[], {}));
    x := Then(late, x, Act(AcquireLands("a")));
  }

  lemma FirstBegins(late: Lateness, wait: nat) returns (x: Timed)
    requires wait <= late.reply
    ensures TimedReachable(late, x)
    ensures x == OneDelivery(Alive, map["k" := Held("a")], wait, map["k" := LEASE_MS], wait)
  {
    x := FirstTakesTheKey(late);
    x := Then(late, x, Tick(wait));
    assert x == OneDelivery(NotStarted, map["k" := Held("a")], wait, map["k" := LEASE_MS], 0);
    x := Then(late, x, Act(BodyStarts("a")));
  }

  /** A first delivery takes the key, begins `wait` ms late and is not renewed in time. */
  lemma LeaseRunsOut(late: Lateness, wait: nat) returns (x: Timed)
    requires wait <= late.reply && wait <= SLACK_MS && SLACK_MS <= wait + late.renewal
    ensures TimedReachable(late, x)
    ensures x == OneDelivery(Alive, map[], LEASE_MS, map[], wait)
  {
    x := FirstBegins(late, wait);
    x := Then(late, x, Tick(LEASE_MS - wait));
    assert x == OneDelivery(Alive, map["k" := Held("a")], LEASE_MS, map["k" := LEASE_MS], wait);
    x := Then(late, x, Act(KeyExpires("k")));
  }

  lemma TwoBodiesOutsideTheSlack(late: Lateness)
    requires !WithinSlack(late)
    ensures !NeverTwoBodies(late)
  {
    var wait := if late.reply <= SLACK_MS then late.reply else SLACK_MS;
    var x := LeaseRunsOut(late, wait);
    x := Then(late, x, Act(Start("b", "k")));
    x := Then(late, x, Act(AcquireLands("b")));
    x := Then(late, x, Act(BodyStarts("b")));
    assert x.state.runs == map["a" := Idle(Owner, Alive), "b" := Idle(Owner, Alive)];
    assert BodyAlive(x.state.runs["a"]) && BodyAlive(x.state.runs["b"]);
    assert !AtMostOneBody(x.state);
  }

  /** With no assumption on expiry but the clock itself, two bodies of one key can run at once
      exactly when replies and renewals together may be 20 s late or more. */
  lemma MutualExclusionIffWithinSlack(late: Lateness)
    ensures NeverTwoBodies(late) <==> WithinSlack(late)
    ensures SLACK_MS == 20_000
  {
    if WithinSlack(late) {
      forall actions ensures AtMostOneBody(TimedExec(late, START, actions).state) {
        EveryTimedRunKeepsInv(late, START, actions);
        var s := TimedExec(late, START, actions).state;
        forall t | t in s.runs && BodyAlive(s.runs[t]) ensures Holds(s.store, s.runs[t].key, t) {
          assert RunOk(s.store, t, s.runs[t]);
        }
      }
    } else {
      TwoBodiesOutsideTheSlack(late);
    }
  }

  /** On the clock, what a key is given is 30 s, again 30 s with each renewal by its holder, and 24 hours once it
      is complete. */
  lemma HowLongAKeyIsGiven(late: Lateness, x: Timed, t: Token, c: Command)
    requires t in x.state.runs
    ensures CanAct(late, x, Act(AcquireLands(t))) && x.state.runs[t].key !in x.state.store ==>
              TimedDo(late, x, Act(AcquireLands(t))).expiry == x.expiry[x.state.runs[t].key := x.now + 30_000]
    ensures CanAct(late, x, Act(RenewLands(t))) && Holds(x.state.store, x.state.runs[t].key, t) ==>
              TimedDo(late, x, Act(RenewLands(t))).expiry == x.expiry[x.state.runs[t].key := x.now + 30_000]
    ensures CanAct(late, x, Act(SettleLands(c))) && c.Finish? && Holds(x.state.store, c.key, c.token) ==>
              TimedDo(late, x, Act(SettleLands(c))).expiry == x.expiry[c.key := x.now + 86_400_000]
  {
  }

  // ---------------------------------------------------------------- how long a held key is waited for

  function Pow2(n: nat): nat {
    if n == 0 then 1 else 2 * Pow2(n - 1)
  }

  /** How long a delivery that met a held key is postponed, by how often it was handed out. */
  function HeldRetryDelay(started: int): nat {
    var doubled := HELD_RETRY_FLOOR_MS * Pow2(if started < 1 then 0 else started - 1);
    if doubled < HELD_RETRY_MS then doubled else HELD_RETRY_MS
  }

  function TotalDelay(started: int, postponements: nat): nat
    decreases postponements
  {
    if postponements == 0 then 0
    else HeldRetryDelay(started) + TotalDelay(started + 1, postponements - 1)
  }

  lemma {:induction false} Pow2AtLeast(n: nat, m: nat)
    requires m <= n
    ensures Pow2(m) <= Pow2(n)
    decreases n
  {
    if m < n { Pow2AtLeast(n - 1, m); }
  }

  lemma DelayGrows(started: int, later: int)
    requires started <= later
    ensures HeldRetryDelay(started) <= HeldRetryDelay(later)
    ensures later >= 5 ==> HeldRetryDelay(later) == HELD_RETRY_MS
  {
    if started >= 1 { Pow2AtLeast(later - 1, started - 1); } else if later >= 1 { Pow2AtLeast(later - 1, 0); }
    if later >= 5 {
      Pow2AtLeast(later - 1, 4);
      assert Pow2(4) == 16;
    }
  }

  lemma {:induction false} CeilingFromTheFifth(started: int, n: nat)
    requires started >= 5
    ensures TotalDelay(started, n) == HELD_RETRY_MS * n
    decreases n
  {
    if n > 0 {
      DelayGrows(started, started);
      CeilingFromTheFifth(started + 1, n - 1);
    }
  }

  lemma {:induction false} LaterIsLonger(started: int, later: int, n: nat)
    requires started <= later
    ensures TotalDelay(started, n) <= TotalDelay(later, n)
    decreases n
  {
    if n > 0 {
      DelayGrows(started, later);
      LaterIsLonger(started + 1, later + 1, n - 1);
    }
  }

  /** `n >= 4` postponements of one delivery take at least 1500 + 1000 (n - 4) ms, whatever its
      count was at the first of them, and exactly that when it was 1. */
  lemma PostponedAtLeast(started: int, n: nat)
    requires started >= 1 && n >= 4
    ensures TotalDelay(1, n) == 1_500 + 1_000 * (n - 4)
    ensures TotalDelay(started, n) >= 1_500 + 1_000 * (n - 4)
  {
    assert Pow2(3) == 8 && Pow2(2) == 4 && Pow2(1) == 2;
    assert TotalDelay(4, n - 3) == 800 + TotalDelay(5, n - 4);
    assert TotalDelay(3, n - 2) == 400 + TotalDelay(4, n - 3);
    assert TotalDelay(2, n - 1) == 200 + TotalDelay(3, n - 2);
    CeilingFromTheFifth(5, n - 4);
    LaterIsLonger(1, started, n);
  }
}
