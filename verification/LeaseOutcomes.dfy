/** What the lease protocol promises about results: where a kept result comes from, that a key
    runs to success once, and that the memory store may stand in for Redis. */
module LeaseOutcomes {
  import opened Errors
  import opened KeyStore
  import opened Lease
  import opened LeaseRuns

  // ---------------------------------------------------------------- where a kept result comes from

  predicate Completed(s: State, t: Token, k: Key, kept: Kept) {
    t in s.runs && s.runs[t].key == k && s.runs[t].issued == [Finish(k, t, kept)]
  }

  ghost predicate Authentic(s: State) {
    forall k | IsComplete(s.store, k) :: exists t :: Completed(s, t, k, s.store[k].kept)
  }

  /** A delivery never changes its key or takes back what it sent. */
  lemma SentStays(s: State, a: Action, t: Token)
    requires Inv(s) && t in s.runs
    ensures var s' := Do(s, a);
            t in s'.runs && s'.runs[t].key == s.runs[t].key
            && (s.runs[t].issued != [] ==> s'.runs[t].issued == s.runs[t].issued)
  {
    assert RunOk(s.store, t, s.runs[t]);
  }

  lemma OwnCommand(s: State, t: Token)
    requires Inv(s) && t in s.runs && s.runs[t].issued != []
    ensures var c := s.runs[t].issued[0];
            s.runs[t].issued == [c] && (c.Finish? || c.Release?) && c.token == t && c.key == s.runs[t].key
  {
    assert RunOk(s.store, t, s.runs[t]);
    assert s.runs[t].issued[0] in s.runs[t].issued;
  }

  /** A key is completed by a command its own delivery sent. */
  lemma CompletedByItsOwn(s: State, a: Action, k: Key)
    requires Inv(s) && IsComplete(Do(s, a).store, k) && !(IsComplete(s.store, k) && s.store[k] == Do(s, a).store[k])
    ensures a.SettleLands? && Completed(Do(s, a), a.command.token, k, Do(s, a).store[k].kept)
  {
    var c := a.command;
    assert RunOk(s.store, c.token, s.runs[c.token]);
    assert c in s.runs[c.token].issued;
  }

  lemma StepKeepsAuthentic(s: State, a: Action)
    requires Inv(s) && Authentic(s)
    ensures Authentic(Do(s, a))
  {
    var s' := Do(s, a);
    forall k | IsComplete(s'.store, k) ensures exists t :: Completed(s', t, k, s'.store[k].kept) {
      if IsComplete(s.store, k) && s.store[k] == s'.store[k] {
        var t :| Completed(s, t, k, s.store[k].kept);
        SentStays(s, a, t);
        assert Completed(s', t, k, s'.store[k].kept);
      } else {
        CompletedByItsOwn(s, a, k);
      }
    }
  }

  lemma {:induction false} EveryRunKeepsAuthentic(s: State, actions: seq<Action>)
    requires Inv(s) && Authentic(s)
    ensures Authentic(Exec(s, actions)) && Inv(Exec(s, actions))
    decreases actions
  {
    if actions != [] {
      StepKeepsInv(s, actions[0]);
      StepKeepsAuthentic(s, actions[0]);
      EveryRunKeepsAuthentic(Do(s, actions[0]), actions[1..]);
    }
  }

  ghost predicate Produces(s: State, t: Token, k: Key, kept: Kept) {
    t in s.runs && s.runs[t].key == k &&
    ((s.runs[t].body.Returned? && kept == KeptOf(s.runs[t].body.value))
     || (s.runs[t].body.Threw? && CarriesForeign(t, s.runs[t].body.error)))
  }

  /** In every run, what a complete key keeps is what a body of that very key returned, unless
      a handler threw an error naming a body that is not its own. */
  lemma KeptResultWasReturned(actions: seq<Action>, k: Key)
    requires IsComplete(Exec(INIT, actions).store, k)
    ensures exists t :: Produces(Exec(INIT, actions), t, k, Exec(INIT, actions).store[k].kept)
  {
    EveryRunKeepsAuthentic(INIT, actions);
    var s := Exec(INIT, actions);
    var t :| Completed(s, t, k, s.store[k].kept);
    assert RunOk(s.store, t, s.runs[t]);
    assert Finish(k, t, s.store[k].kept) in s.runs[t].issued;
    assert Produces(s, t, k, s.store[k].kept);
  }

  /** What a delivery is answered with was completed by a delivery of that key. */
  ghost predicate AnswersAreAuthentic(s: State) {
    forall t | t in s.runs && s.runs[t].phase.Replaying? ::
      exists u :: Completed(s, u, s.runs[t].key, s.runs[t].phase.kept)
  }

  lemma StepKeepsAnswers(s: State, a: Action)
    requires Inv(s) && Authentic(s) && AnswersAreAuthentic(s)
    ensures AnswersAreAuthentic(Do(s, a))
  {
    var s' := Do(s, a);
    forall t | t in s'.runs && s'.runs[t].phase.Replaying?
      ensures exists u :: Completed(s', u, s'.runs[t].key, s'.runs[t].phase.kept)
    {
      AnswerComesFrom(s, a, t);
      var k, kept := s'.runs[t].key, s'.runs[t].phase.kept;
      var u :| Completed(s, u, k, kept);
      SentStays(s, a, u);
      assert Completed(s', u, k, kept);
    }
  }

  lemma AnswerComesFrom(s: State, a: Action, t: Token)
    requires Inv(s) && Authentic(s) && AnswersAreAuthentic(s)
    requires t in Do(s, a).runs && Do(s, a).runs[t].phase.Replaying?
    ensures exists u :: Completed(s, u, Do(s, a).runs[t].key, Do(s, a).runs[t].phase.kept)
  {
    var r' := Do(s, a).runs[t];
    if t in s.runs && s.runs[t].phase.Replaying? {
      assert r'.key == s.runs[t].key && r'.phase == s.runs[t].phase;
    } else {
      AnsweredByTheStore(s, a, t);
    }
  }

  lemma AnsweredByTheStore(s: State, a: Action, t: Token)
    requires t in Do(s, a).runs && Do(s, a).runs[t].phase.Replaying? && !(t in s.runs && s.runs[t].phase.Replaying?)
    ensures var r' := Do(s, a).runs[t]; IsComplete(s.store, r'.key) && s.store[r'.key].kept == r'.phase.kept
  {
    assert a == AcquireLands(t);
  }

  lemma {:induction false} EveryRunKeepsAnswers(s: State, actions: seq<Action>)
    requires Inv(s) && Authentic(s) && AnswersAreAuthentic(s)
    ensures AnswersAreAuthentic(Exec(s, actions)) && Inv(Exec(s, actions))
    decreases actions
  {
    if actions != [] {
      StepKeepsInv(s, actions[0]);
      StepKeepsAuthentic(s, actions[0]);
      StepKeepsAnswers(s, actions[0]);
      EveryRunKeepsAnswers(Do(s, actions[0]), actions[1..]);
    }
  }

  /** In every run, a delivery that is answered instead of run is answered with what a body of its own key
      produced, and, like one that is postponed, it never runs a body or settles anything. */
  lemma AnsweredWithWhatWasProduced(actions: seq<Action>, t: Token)
    requires t in Exec(INIT, actions).runs && !Exec(INIT, actions).runs[t].phase.Owner?
    ensures var s := Exec(INIT, actions);
            && s.runs[t].body.NotStarted? && s.runs[t].issued == []
            && (s.runs[t].phase.Replaying? ==> exists u :: Produces(s, u, s.runs[t].key, s.runs[t].phase.kept))
  {
    EveryRunKeepsAnswers(INIT, actions);
    var s := Exec(INIT, actions);
    assert RunOk(s.store, t, s.runs[t]);
    if s.runs[t].phase.Replaying? {
      var k, kept := s.runs[t].key, s.runs[t].phase.kept;
      var u :| Completed(s, u, k, kept);
      assert RunOk(s.store, u, s.runs[u]);
      assert Finish(k, u, kept) in s.runs[u].issued;
      assert Produces(s, u, k, kept);
    }
  }

  /** A body that throws an error naming another body leaves its key to that body. */
  lemma ThrowFollows(s: State, t: Token, k: Key, e: Error, p: Promise) returns (s': State)
    requires Reachable(s) && t in s.runs && s.runs[t] == Begun(k) && StillRunning(e) == Some(p)
    ensures Reachable(s')
    ensures s' == s.(runs := s.runs[t := Run(k, Owner, Threw(e), None, Some(Rejected(e)), Some(Rejected(e)),
                                             Following(p), [], false)])
  {
    var r := s.runs[t];
    s' := OneMore({}, INIT, s, BodyEnds(t, Rejected(e)));
    r := r.(body := Threw(e), race := Some(Rejected(e)));
    assert s' == s.(runs := s.runs[t := r]);
    s' := OneMore({}, INIT, s', DeliveryEnds(t));
    r := r.(delivered := Some(Rejected(e)));
    assert s' == s.(runs := s.runs[t := r]);
    s' := OneMore({}, INIT, s', Decides(t));
  }

  /** The exception is real, and it is every error of that kind: a body that throws an error
      naming the body of another delivery can be settled by `complete`, with what the other
      body returned, although it threw. */
  lemma ForeignBodyCompletesAThrow(t: Token, e: Error, v: Produced)
    requires CarriesForeign(t, e)
    ensures exists s :: Reachable(s) && t in s.runs && s.runs[t].body == Threw(e)
                        && s.runs[t].issued == [Finish("k", t, KeptOf(v))]
  {
    var p := StillRunning(e).value;
    Here({}, INIT);
    var s := BodyBegins({}, INIT, INIT, p, "other");
    s := BodyBegins({}, INIT, s, t, "k");
    s := ThrowFollows(s, t, "k", e, p);
    s := OneMore({}, INIT, s, BodyEnds(p, Resolved(v)));
    s := OneMore({}, INIT, s, FollowedEnds(t));
  }

  // ---------------------------------------------------------------- no key is leaked

  predicate Settleable(s: State, t: Token) {
    && InProcess(s, t) && Ended(s.runs[t].body)
    && (s.runs[t].body.Returned? || !CarriesForeign(t, s.runs[t].body.error))
  }

  lemma StillSettleable(s: State, a: Action, t: Token)
    requires Inv(s) && Settleable(s, t) && a in {DeliveryEnds(t), Decides(t), FollowedEnds(t)}
    ensures Inv(Do(s, a)) && Settleable(Do(s, a), t)
    ensures Do(s, a).runs[t].body == s.runs[t].body && Do(s, a).runs[t].key == s.runs[t].key
    ensures s.runs[t].delivered.Some? ==> Do(s, a).runs[t].delivered.Some?
    ensures !s.runs[t].settling.Undecided? ==> !Do(s, a).runs[t].settling.Undecided?
  {
    StepKeepsInv(s, a);
  }

  /** In every reachable state a body that ended in a living process leaves its key at most three of
      its own steps from being settled, as that body ended; only a body that threw another's name
      can keep it waiting. */
  lemma EndedBodyIsThreeStepsFromSettled(actions: seq<Action>, t: Token)
    requires Settleable(Exec(INIT, actions), t)
    ensures var s := Exec(INIT, actions);
            var s' := Do(Do(Do(s, DeliveryEnds(t)), Decides(t)), FollowedEnds(t));
            && t in s'.runs
            && (forall v :: s.runs[t].body == Returned(v) ==>
                s'.runs[t].issued == [Finish(s.runs[t].key, t, KeptOf(v))])
            && (s.runs[t].body.Threw? ==> s'.runs[t].issued == [Release(s.runs[t].key, t)])
  {
    EveryRunKeepsInv(INIT, actions);
    ThreeSteps(Exec(INIT, actions), t);
  }

  lemma ThreeSteps(s: State, t: Token)
    requires Inv(s) && Settleable(s, t)
    ensures var s' := Do(Do(Do(s, DeliveryEnds(t)), Decides(t)), FollowedEnds(t));
            t in s'.runs && s'.runs[t].issued == [SettlementOf(s.runs[t].key, t, s.runs[t].body)]
  {
    StillSettleable(s, DeliveryEnds(t), t);
    var s1 := Do(s, DeliveryEnds(t));
    DeliveryEnded(s, t);
    StillSettleable(s1, Decides(t), t);
    var s2 := Do(s1, Decides(t));
    HasDecided(s1, t);
    StillSettleable(s2, FollowedEnds(t), t);
    FollowingEnds(s2, t);
    DecidedAsEnded(Do(s2, FollowedEnds(t)), t);
  }

  lemma DeliveryEnded(s: State, t: Token)
    requires Inv(s) && Settleable(s, t)
    ensures Do(s, DeliveryEnds(t)).runs[t].delivered.Some?
  {
    assert RunOk(s.store, t, s.runs[t]);
  }

  lemma HasDecided(s: State, t: Token)
    requires Settleable(s, t) && s.runs[t].delivered.Some?
    ensures !Do(s, Decides(t)).runs[t].settling.Undecided?
  {
  }

  lemma FollowingEnds(s: State, t: Token)
    requires Inv(s) && Settleable(s, t) && !s.runs[t].settling.Undecided?
    ensures Do(s, FollowedEnds(t)).runs[t].settling.Decided?
  {
    assert RunOk(s.store, t, s.runs[t]);
  }

  lemma DecidedAsEnded(s: State, t: Token)
    requires Inv(s) && Settleable(s, t) && s.runs[t].settling.Decided?
    ensures s.runs[t].issued == [SettlementOf(s.runs[t].key, t, s.runs[t].body)]
  {
    assert RunOk(s.store, t, s.runs[t]);
    OwnCommand(s, t);
    assert s.runs[t].issued[0] in s.runs[t].issued;
  }

  // ---------------------------------------------------------------- held to the end

  predicate Landed(s: State, t: Token) {
    t in s.runs && s.runs[t].issued != [] && s.runs[t].issued[0] !in s.wire
  }

  /** With no expiry, a key stays with the delivery that took it until its settlement lands. */
  predicate HeldToTheEnd(s: State) {
    forall t | t in s.runs && s.runs[t].phase.Owner? && !Landed(s, t) :: Holds(s.store, s.runs[t].key, t)
  }

  lemma StaysHeld(s: State, a: Action, t: Token)
    requires Inv(s) && HeldToTheEnd(s) && !a.KeyExpires? && t in s.runs
    requires Do(s, a).runs[t].phase.Owner? && !Landed(Do(s, a), t)
    ensures Holds(Do(s, a).store, Do(s, a).runs[t].key, t)
  {
    assert RunOk(s.store, t, s.runs[t]);
    SentStays(s, a, t);
    if s.runs[t].issued != [] { OwnCommand(s, t); }
    if a.SettleLands? {
      WhatChangesAKey(s.store, a.command, s.runs[t].key);
    } else if a.OperatorForgets? {
      WhatChangesAKey(s.store, Forget(a.key), s.runs[t].key);
    } else if a.AcquireLands? && Enabled(s, a) && a.token != t {
      WhatChangesAKey(s.store, Acquire(s.runs[a.token].key, a.token), s.runs[t].key);
    }
  }

  lemma StepHoldsToTheEnd(s: State, a: Action)
    requires Inv(s) && HeldToTheEnd(s) && !a.KeyExpires?
    ensures HeldToTheEnd(Do(s, a))
  {
    var s' := Do(s, a);
    forall t | t in s'.runs && s'.runs[t].phase.Owner? && !Landed(s', t) ensures Holds(s'.store, s'.runs[t].key, t) {
      if t in s.runs { StaysHeld(s, a, t); }
    }
  }

  // ---------------------------------------------------------------- the memory store stands in

  /** The store command an action lands, if any. */
  function CommandOf(s: State, a: Action): Option<Command> {
    if !Enabled(s, a) then None
    else match a
      case AcquireLands(t) => Some(Acquire(s.runs[t].key, t))
      case RenewLands(t) => Some(Renew(s.runs[t].key, t))
      case SettleLands(c) => Some(c)
      case OperatorForgets(k) => Some(Forget(k))
      case _ => None
  }

  /** The memory store, given the commands the deliveries give the Redis one. */
  function MapsExec(s: State, m: Maps, actions: seq<Action>): Maps
    decreases actions
  {
    if actions == [] then m
    else MapsExec(Do(s, actions[0]), MapsDo(s, m, actions[0]), actions[1..])
  }

  function MapsDo(s: State, m: Maps, a: Action): Maps {
    match CommandOf(s, a) case Some(c) => MapsAfter(m, c) case None => m
  }

  lemma StepIsItsCommand(s: State, a: Action)
    requires !a.KeyExpires?
    ensures Do(s, a).store == (match CommandOf(s, a) case Some(c) => After(s.store, c) case None => s.store)
  {
  }

  lemma SettlesWhatItHolds(s: State, a: Action)
    requires Inv(s) && HeldToTheEnd(s) && a.SettleLands? && Enabled(s, a)
    ensures Holds(s.store, a.command.key, a.command.token)
  {
    OwnCommand(s, a.command.token);
    assert RunOk(s.store, a.command.token, s.runs[a.command.token]);
  }

  lemma StepAgrees(s: State, m: Maps, a: Action)
    requires Inv(s) && HeldToTheEnd(s) && Agree(s.store, m) && !a.KeyExpires?
    ensures Agree(Do(s, a).store, MapsDo(s, m, a))
  {
    StepIsItsCommand(s, a);
    if a.SettleLands? && Enabled(s, a) {
      SettlesWhatItHolds(s, a);
    }
    if CommandOf(s, a).Some? {
      StoresAgreeUnlessOverwritten(s.store, m, CommandOf(s, a).value);
    }
  }

  lemma {:induction false} StoresAgreeFrom(s: State, m: Maps, actions: seq<Action>)
    requires Inv(s) && HeldToTheEnd(s) && Agree(s.store, m)
    requires forall a | a in actions :: !a.KeyExpires?
    ensures Agree(Exec(s, actions).store, MapsExec(s, m, actions))
    decreases actions
  {
    if actions != [] {
      StepKeepsInv(s, actions[0]);
      StepHoldsToTheEnd(s, actions[0]);
      StepAgrees(s, m, actions[0]);
      assert forall b | b in actions[1..] :: b in actions;
      StoresAgreeFrom(Do(s, actions[0]), MapsDo(s, m, actions[0]), actions[1..]);
    }
  }

  /** On every trace deliveries and operators can produce while no lifetime runs out, the two
      in-memory maps hold what the Redis strings hold and answer every command alike. */
  lemma MemoryStandsInForRedis(actions: seq<Action>, c: Command)
    requires forall a | a in actions :: !a.KeyExpires?
    ensures var m := MapsExec(INIT, Maps(map[], map[]), actions);
            Agree(Exec(INIT, actions).store, m) && Answer(Exec(INIT, actions).store, c) == MapsAnswer(m, c)
  {
    var m := MapsExec(INIT, Maps(map[], map[]), actions);
    StoresAgreeFrom(INIT, Maps(map[], map[]), actions);
    StoresAgreeUnlessOverwritten(Exec(INIT, actions).store, m, c);
  }
}
