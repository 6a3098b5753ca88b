/** What an idempotency key is declared for: one success per key, with leases that run out. */
module LeaseSuccess {
  import opened Errors
  import opened KeyStore
  import opened Lease
  import opened LeaseOutcomes
  import opened LeaseRuns

  predicate Succeeded(s: State, t: Token) {
    t in s.runs && s.runs[t].body.Returned?
  }

  /** The body succeeded, or may yet: it is executing in a living process. */
  predicate Spends(s: State, t: Token) {
    Succeeded(s, t) || (t in s.runs && BodyAlive(s.runs[t]))
  }

  ghost predicate AtMostOneSuccess(s: State) {
    forall t, u | Spends(s, t) && Spends(s, u) && s.runs[t].key == s.runs[u].key :: t == u
  }

  /** A key leaves the store, run out or forgotten, although a body of it succeeded. */
  predicate LosesASuccess(s: State, a: Action) {
    && (a.KeyExpires? || a.OperatorForgets?) && a.key in s.store && a.key !in Do(s, a).store
    && exists t | t in s.runs :: Succeeded(s, t) && s.runs[t].key == a.key
  }

  /** A run in which leases run out under crashed owners and after throws as they like, and complete
      keys that no body succeeded for are dropped as one likes, but no key that one did. */
  predicate KeepsSuccesses(s: State, actions: seq<Action>)
    decreases actions
  {
    actions == [] || (!LosesASuccess(s, actions[0]) && KeepsSuccesses(Do(s, actions[0]), actions[1..]))
  }

  /** A body that succeeded holds its key until its `complete` lands, and the key is complete then. */
  predicate Guards(s: State, t: Token)
    requires t in s.runs
  {
    Holds(s.store, s.runs[t].key, t) || IsComplete(s.store, s.runs[t].key)
  }

  ghost predicate SuccessInv(s: State) {
    && (forall t | Succeeded(s, t) :: Guards(s, t))
    && (forall t, u | Succeeded(s, t) && Succeeded(s, u) && s.runs[t].key == s.runs[u].key :: t == u)
  }

  lemma AliveHolds(s: State, t: Token)
    requires Inv(s) && t in s.runs && BodyAlive(s.runs[t])
    ensures Holds(s.store, s.runs[t].key, t)
  {
    assert RunOk(s.store, t, s.runs[t]);
  }

  /** A body returns in one way only. */
  lemma NewSuccess(s: State, a: Action, t: Token)
    requires Inv(s) && Succeeded(Do(s, a), t) && !Succeeded(s, t)
    ensures a.BodyEnds? && a.token == t && t in s.runs && BodyAlive(s.runs[t])
    ensures Do(s, a).store == s.store && Do(s, a).runs[t].key == s.runs[t].key
  {
  }

  lemma SuccessStays(s: State, a: Action, t: Token)
    requires Inv(s) && Succeeded(s, t)
    ensures Succeeded(Do(s, a), t) && Do(s, a).runs[t].key == s.runs[t].key
  {
    SentStays(s, a, t);
    assert RunOk(s.store, t, s.runs[t]);
  }

  lemma LandedOwnCompletes(s: State, c: Command, t: Token)
    requires Inv(s) && Succeeded(s, t) && c in s.wire && c.token == t && Holds(s.store, s.runs[t].key, t)
    ensures IsComplete(After(s.store, c), s.runs[t].key)
  {
    OwnCommand(s, t);
    assert RunOk(s.store, t, s.runs[t]);
    assert c in s.runs[t].issued;
  }

  lemma GuardStays(s: State, a: Action, t: Token)
    requires Inv(s) && Succeeded(s, t) && Guards(s, t) && !LosesASuccess(s, a)
    ensures t in Do(s, a).runs && Guards(Do(s, a), t)
  {
    SuccessStays(s, a, t);
    var k := s.runs[t].key;
    if Enabled(s, a) {
      match a
      case AcquireLands(u) => WhatChangesAKey(s.store, Acquire(s.runs[u].key, u), k);
      case SettleLands(c) =>
        WhatChangesAKey(s.store, c, k);
        if c.token == t && Holds(s.store, k, t) { LandedOwnCompletes(s, c, t); }
      case OperatorForgets(j) => WhatChangesAKey(s.store, Forget(j), k);
      case _ =>
    }
  }

  lemma StepKeepsSuccessInv(s: State, a: Action)
    requires Inv(s) && SuccessInv(s) && !LosesASuccess(s, a)
    ensures SuccessInv(Do(s, a))
  {
    var s' := Do(s, a);
    forall t | Succeeded(s', t) ensures Guards(s', t) {
      if Succeeded(s, t) { GuardStays(s, a, t); } else { NewSuccess(s, a, t); AliveHolds(s, t); }
    }
    forall t, u | Succeeded(s', t) && Succeeded(s', u) && s'.runs[t].key == s'.runs[u].key ensures t == u {
      OneOfTwo(s, a, t, u);
    }
  }

  lemma OneOfTwo(s: State, a: Action, t: Token, u: Token)
    requires Inv(s) && SuccessInv(s) && !LosesASuccess(s, a)
    requires Succeeded(Do(s, a), t) && Succeeded(Do(s, a), u) && Do(s, a).runs[t].key == Do(s, a).runs[u].key
    ensures t == u
  {
    if Succeeded(s, t) { SuccessStays(s, a, t); } else { NewSuccess(s, a, t); AliveHolds(s, t); }
    if Succeeded(s, u) { SuccessStays(s, a, u); } else { NewSuccess(s, a, u); AliveHolds(s, u); }
  }

  lemma {:induction false} RunKeepsSuccessInv(s: State, actions: seq<Action>)
    requires Inv(s) && SuccessInv(s) && KeepsSuccesses(s, actions)
    ensures Inv(Exec(s, actions)) && SuccessInv(Exec(s, actions))
    decreases actions
  {
    if actions != [] {
      StepKeepsInv(s, actions[0]);
      StepKeepsSuccessInv(s, actions[0]);
      RunKeepsSuccessInv(Do(s, actions[0]), actions[1..]);
    }
  }

  lemma InvGivesOne(s: State)
    requires Inv(s) && SuccessInv(s)
    ensures AtMostOneSuccess(s)
  {
    forall t, u | Spends(s, t) && Spends(s, u) && s.runs[t].key == s.runs[u].key ensures t == u {
      if !Succeeded(s, t) { AliveHolds(s, t); }
      if !Succeeded(s, u) { AliveHolds(s, u); }
    }
  }

  /** Over every interleaving with crashes, leases running out and other deliveries taking over, in
      which no key is lost once a body of it succeeded: at most one delivery of a key has a body that
      succeeded or is executing in a living process. */
  lemma OneSuccessPerKey(actions: seq<Action>)
    requires KeepsSuccesses(INIT, actions)
    ensures AtMostOneSuccess(Exec(INIT, actions))
  {
    RunKeepsSuccessInv(INIT, actions);
    InvGivesOne(Exec(INIT, actions));
  }

  /** And only then: wherever a key is lost over a success, be it that the lease ran out between the
      return and the landing, or that the complete key ran out or was forgotten, the run goes on to a
      second success of that key. */
  lemma LostSuccessIsRepeated(s: State, a: Action, v: Produced)
    requires LosesASuccess(s, a)
    ensures exists s' :: From({}, Do(s, a), s') && !AtMostOneSuccess(s')
  {
    var t :| t in s.runs && Succeeded(s, t) && s.runs[t].key == a.key;
    var lost := Do(s, a);
    var u := FreshText(lost.runs.Keys);
    Here({}, lost);
    var s' := BodyBegins({}, lost, lost, u, a.key);
    s' := OneMore({}, lost, s', BodyEnds(u, Resolved(v)));
    assert Succeeded(s', t) && Succeeded(s', u) && s'.runs[t].key == s'.runs[u].key;
  }

  /** A delivery whose body returned and whose `complete` is under way. */
  function Sending(k: Key, t: Token, v: Produced): Run {
    Run(k, Owner, Returned(v), None, Some(Resolved(v)), Some(Resolved(v)), Decided, [Finish(k, t, KeptOf(v))], false)
  }

  lemma ReturnsAndSends(s: State, t: Token, k: Key, v: Produced) returns (s': State)
    requires Reachable(s) && t in s.runs && s.runs[t] == Begun(k)
    ensures Reachable(s')
    ensures s' == State(s.runs[t := Sending(k, t, v)], s.store, s.wire + {Finish(k, t, KeptOf(v))})
  {
    s' := OneMore({}, INIT, s, BodyEnds(t, Resolved(v)));
    var r := Begun(k).(body := Returned(v), race := Some(Resolved(v)));
    assert s' == s.(runs := s.runs[t := r]);
    s' := OneMore({}, INIT, s', DeliveryEnds(t));
    assert s' == s.(runs := s.runs[t := r.(delivered := Some(Resolved(v)))]);
    s' := OneMore({}, INIT, s', Decides(t));
    assert s'.runs[t].issued == [Finish(k, t, KeptOf(v))];
    assert s'.runs[t] == Sending(k, t, v);
  }

  /** The first of these can happen to any key: its lease runs out while the `complete` is under way. */
  lemma LeaseRunsOutBeforeTheLanding(k: Key, t: Token, v: Produced) returns (s: State)
    ensures Reachable(s) && Inv(s) && k !in s.store && Succeeded(s, t) && s.runs[t].key == k
    ensures s == State(map[t := Sending(k, t, v)], map[], {Finish(k, t, KeptOf(v))})
  {
    Here({}, INIT);
    s := BodyBegins({}, INIT, INIT, t, k);
    s := ReturnsAndSends(s, t, k, v);
    s := OneMore({}, INIT, s, KeyExpires(k));
    var actions :| QuietRun({}, INIT, actions) && Exec(INIT, actions) == s;
    RunsReach(actions);
  }
}
