/** After a replay freed a key: when the next delivery of it is sure to run the body, over every run of
    the deliveries that possessed the key before. */
module ReplayRuns {
  import opened Errors
  import opened KeyStore
  import opened Lease
  import opened LeaseRuns
  import opened LeaseOutcomes
  import opened LeaseSuccess

  // ---------------------------------------------------------------- what can still complete a free key

  /** The body a failed delivery is bound to settle by, as far as it has come. */
  function Followed(r: Run): Option<Promise> {
    match r.settling
    case Decided => None
    case Following(body) => Some(body)
    case Undecided =>
      match if r.delivered.Some? then r.delivered else r.race
      case Some(Rejected(e)) => StillRunning(e)
      case _ => None
  }

  /** A body that returned, or can yet with nobody taking the key `k`: one that is not delivered yet, is
      executing or about to, or is asking for another key. */
  predicate MayReturn(s: State, k: Key, p: Promise) {
    p in s.runs ==>
      var r := s.runs[p];
      || r.body.Returned?
      || (!r.crashed && (r.body.Alive? || (r.body.NotStarted? && (r.phase.Owner? || (r.phase.Asking? && r.key != k)))))
  }

  /** A possession of `k` that can still land a `complete`: it sent one that has not landed, or it lives,
      has sent nothing, and its body returned or threw the name of another body that may return. */
  predicate MayComplete(s: State, k: Key, t: Token) {
    && t in s.runs && s.runs[t].key == k && s.runs[t].phase.Owner?
    && var r := s.runs[t];
       if r.issued != [] then r.issued[0].Finish? && r.issued[0] in s.wire
       else !r.crashed && (r.body.Returned? || NamesOneThatReturns(s, k, t, r))
  }

  predicate NamesOneThatReturns(s: State, k: Key, t: Token, r: Run) {
    r.body.Threw? && Followed(r).Some? && Followed(r).value != t && MayReturn(s, k, Followed(r).value)
  }

  /** Whatever happens short of another acquire of the key, the next delivery to ask for it is given it. */
  ghost predicate NextDeliveryRuns(s: State, k: Key) {
    forall s', t | From({k}, s, s') && Asks(s', k, t) :: Do(s', AcquireLands(t)).runs[t].phase.Owner?
  }

  predicate Asks(s: State, k: Key, t: Token) {
    t in s.runs && s.runs[t].key == k && s.runs[t].phase.Asking?
  }

  // ---------------------------------------------------------------- nothing of it appears by itself

  lemma MayReturnOnlyFades(s: State, a: Action, k: Key, p: Promise)
    requires Inv(s) && Quiet({k}, s, a) && MayReturn(Do(s, a), k, p)
    ensures MayReturn(s, k, p)
  {
    if p in s.runs {
      assert RunOk(s.store, p, s.runs[p]);
    }
  }

  /** A body of a free key ended, or will never. */
  lemma NoneGuarded(s: State, k: Key, t: Token)
    requires Inv(s) && k !in s.store && t in s.runs && s.runs[t].key == k
    ensures !Guarded(s.runs[t])
  {
    assert RunOk(s.store, t, s.runs[t]);
  }

  lemma FollowedStays(s: State, a: Action, t: Token)
    requires Inv(s) && t in s.runs && s.runs[t].body.Threw?
    requires t in Do(s, a).runs && Do(s, a).runs[t].issued == []
    ensures Followed(Do(s, a).runs[t]) == Followed(s.runs[t]) && s.runs[t].issued == []
  {
    var r := s.runs[t];
    assert RunOk(s.store, t, r);
    SentStays(s, a, t);
    if a == DeliveryEnds(t) && Enabled(s, a) && r.race.value.Rejected? {
      SubstitutionKeepsTheBody(r.reason, r.race.value.error, t);
    }
  }

  /** What a delivery sends to settle, it could have been seen to be about to. */
  lemma FinishIsForeseen(s: State, a: Action, k: Key, t: Token)
    requires Inv(s) && t in s.runs && s.runs[t].key == k && s.runs[t].issued == []
    requires Do(s, a).runs[t].issued != [] && Do(s, a).runs[t].issued[0].Finish?
    ensures MayComplete(s, k, t)
  {
    var r := s.runs[t];
    assert RunOk(s.store, t, r);
    if a == Decides(t) {
      assert r.delivered.value.Resolved?;
    } else {
      assert a == FollowedEnds(t);
      assert Ended(s.runs[r.settling.body].body);
    }
  }

  lemma OnlyTheSameMayComplete(s: State, a: Action, k: Key, t: Token)
    requires Inv(s) && k !in s.store && Quiet({k}, s, a) && MayComplete(Do(s, a), k, t)
    ensures MayComplete(s, k, t)
  {
    assert t in s.runs && s.runs[t].key == k && s.runs[t].phase.Owner?;
    NoneGuarded(s, k, t);
    SentStays(s, a, t);
    var r, r' := s.runs[t], Do(s, a).runs[t];
    if r.issued != [] {
      OwnCommand(s, t);
      SentOnce(s, a, t);
    } else if r'.issued != [] {
      FinishIsForeseen(s, a, k, t);
    } else if r'.body.Threw? {
      assert r.body == r'.body;
      FollowedStays(s, a, t);
      MayReturnOnlyFades(s, a, k, Followed(r).value);
    }
  }

  /** A command that landed is not sent again. */
  lemma SentOnce(s: State, a: Action, t: Token)
    requires Inv(s) && t in s.runs && s.runs[t].issued != []
    ensures s.runs[t].issued[0] in Do(s, a).wire ==> s.runs[t].issued[0] in s.wire
  {
    OwnCommand(s, t);
    assert RunOk(s.store, t, s.runs[t]);
    if (a.Decides? || a.FollowedEnds?) && Enabled(s, a) {
      assert RunOk(s.store, a.token, s.runs[a.token]);
    }
  }

  lemma StaysFree(s: State, a: Action, k: Key)
    requires Inv(s) && k !in s.store && Quiet({k}, s, a)
    requires forall t | t in s.runs :: !MayComplete(s, k, t)
    ensures k !in Do(s, a).store
  {
    if a.SettleLands? && Enabled(s, a) {
      OwnCommand(s, a.command.token);
      assert !MayComplete(s, k, a.command.token);
      assert RunOk(s.store, a.command.token, s.runs[a.command.token]);
    }
  }

  lemma {:induction false} FreeToTheEnd(s: State, actions: seq<Action>, k: Key)
    requires Inv(s) && k !in s.store && QuietRun({k}, s, actions)
    requires forall t | t in s.runs :: !MayComplete(s, k, t)
    ensures k !in Exec(s, actions).store
    decreases actions
  {
    if actions != [] {
      var s' := Do(s, actions[0]);
      StepKeepsInv(s, actions[0]);
      StaysFree(s, actions[0], k);
      forall t | t in s'.runs ensures !MayComplete(s', k, t) {
        if MayComplete(s', k, t) { OnlyTheSameMayComplete(s, actions[0], k, t); }
      }
      FreeToTheEnd(s', actions[1..], k);
    }
  }

  // ---------------------------------------------------------------- and what is foreseen can happen

  /** A run that has kept the key free and one possession as it was. */
  ghost predicate Onward(s0: State, s: State, k: Key, t: Token) {
    From({k}, s0, s) && Inv(s) && k !in s.store && t in s0.runs && t in s.runs && s.runs[t] == s0.runs[t]
  }

  lemma StepOnward(s0: State, s: State, k: Key, t: Token, a: Action) returns (s': State)
    requires Onward(s0, s, k, t) && Quiet({k}, s, a)
    requires k !in Do(s, a).store && t in Do(s, a).runs && Do(s, a).runs[t] == s.runs[t]
    ensures s' == Do(s, a) && Onward(s0, s', k, t)
  {
    StepKeepsInv(s, a);
    s' := OneMore({k}, s0, s, a);
  }

  /** Any key but `k` can be had: its holder dies, and the lease runs out. */
  lemma KeyIsFreed(s0: State, s: State, k: Key, t: Token, j: Key, p: Token) returns (s': State)
    requires Onward(s0, s, k, t) && s.runs[t].key == k && j != k && p in s.runs && !s.runs[p].phase.Owner?
    ensures Onward(s0, s', k, t) && j !in s'.store && p in s'.runs && s'.runs[p] == s.runs[p]
  {
    s' := s;
    if j in s.store {
      if s.store[j].Held? {
        s' := StepOnward(s0, s', k, t, Crash(s.store[j].token));
      }
      s' := StepOnward(s0, s', k, t, KeyExpires(j));
    }
  }

  lemma OwnerReturns(s0: State, s: State, k: Key, t: Token, p: Token, v: Produced) returns (s': State)
    requires Onward(s0, s, k, t) && t != p && InProcess(s, p) && s.runs[p].phase.Owner? && !Ended(s.runs[p].body)
    ensures Onward(s0, s', k, t) && p in s'.runs && s'.runs[p].body.Returned?
  {
    s' := s;
    if s.runs[p].body.NotStarted? {
      s' := StepOnward(s0, s', k, t, BodyStarts(p));
    }
    s' := StepOnward(s0, s', k, t, BodyEnds(p, Resolved(v)));
  }

  lemma ItReturns(s: State, k: Key, t: Token, p: Token, v: Produced) returns (s': State)
    requires Inv(s) && k !in s.store && t in s.runs && s.runs[t].key == k && t != p && MayReturn(s, k, p)
    ensures Onward(s, s', k, t) && p in s'.runs && s'.runs[p].body.Returned?
  {
    Here({k}, s);
    s' := s;
    if p !in s.runs {
      var j := FreshText(s.store.Keys + {k});
      s' := StepOnward(s, s', k, t, Start(p, j));
    }
    if !s'.runs[p].body.Returned? {
      assert RunOk(s'.store, p, s'.runs[p]);
      if s'.runs[p].phase.Asking? {
        s' := KeyIsFreed(s, s', k, t, s'.runs[p].key, p);
        s' := StepOnward(s, s', k, t, AcquireLands(p));
      }
      s' := OwnerReturns(s, s', k, t, p, v);
    }
  }

  predicate OnTheWire(s: State, k: Key, t: Token) {
    t in s.runs && s.runs[t].key == k && exists c | c in s.wire :: c.Finish? && c.key == k && c.token == t
  }

  /** The three own steps that settle, and what they leave alone. */
  function Settled(s: State, t: Token): State {
    Do(Do(Do(s, DeliveryEnds(t)), Decides(t)), FollowedEnds(t))
  }

  lemma SettlingIsQuiet(s0: State, s: State, k: Key, t: Token)
    requires From({k}, s0, s)
    ensures From({k}, s0, Settled(s, t)) && Settled(s, t).store == s.store
  {
    var s1 := OneMore({k}, s0, s, DeliveryEnds(t));
    var s2 := OneMore({k}, s0, s1, Decides(t));
    var s3 := OneMore({k}, s0, s2, FollowedEnds(t));
  }

  /** What was not sent before is on the wire once it is sent. */
  predicate Unlanded(s: State, t: Token) {
    t in s.runs && (s.runs[t].issued != [] ==> s.runs[t].issued[0] in s.wire)
  }

  lemma StaysUnlanded(s: State, t: Token, a: Action)
    requires Inv(s) && Unlanded(s, t) && a in {DeliveryEnds(t), Decides(t), FollowedEnds(t)}
    ensures Unlanded(Do(s, a), t) && Inv(Do(s, a)) && Do(s, a).runs[t].key == s.runs[t].key
  {
    assert RunOk(s.store, t, s.runs[t]);
    StepKeepsInv(s, a);
  }

  lemma SettledIsUnlanded(s: State, t: Token)
    requires Inv(s) && Unlanded(s, t)
    ensures Unlanded(Settled(s, t), t) && Settled(s, t).runs[t].key == s.runs[t].key && Inv(Settled(s, t))
  {
    StaysUnlanded(s, t, DeliveryEnds(t));
    StaysUnlanded(Do(s, DeliveryEnds(t)), t, Decides(t));
    StaysUnlanded(Do(Do(s, DeliveryEnds(t)), Decides(t)), t, FollowedEnds(t));
  }

  lemma ReturnedSettles(s: State, k: Key, t: Token)
    requires Inv(s) && InProcess(s, t) && s.runs[t].body.Returned? && s.runs[t].key == k && s.runs[t].issued == []
    ensures OnTheWire(Settled(s, t), k, t)
  {
    ThreeSteps(s, t);
    SettledIsUnlanded(s, t);
    assert Settled(s, t).runs[t].issued[0] == SettlementOf(k, t, s.runs[t].body);
  }

  /** A delivery bound to settle by the body `p`, which returned. */
  predicate Bound(s: State, t: Token, p: Promise) {
    && Inv(s) && InProcess(s, t) && s.runs[t].body.Threw? && s.runs[t].issued == []
    && Followed(s.runs[t]) == Some(p) && p != t && p in s.runs && s.runs[p].body.Returned?
  }

  lemma StaysBound(s: State, t: Token, p: Promise, a: Action)
    requires Bound(s, t, p) && (a == DeliveryEnds(t) || a == Decides(t))
    ensures Bound(Do(s, a), t, p) && Do(s, a).runs[p] == s.runs[p] && Do(s, a).runs[t].key == s.runs[t].key
    ensures s.runs[t].delivered.Some? || a == DeliveryEnds(t) ==> Do(s, a).runs[t].delivered.Some?
    ensures a == Decides(t) && s.runs[t].delivered.Some? ==> Do(s, a).runs[t].settling.Following?
  {
    var r := s.runs[t];
    assert RunOk(s.store, t, r);
    StepKeepsInv(s, a);
    if a == DeliveryEnds(t) && Enabled(s, a) {
      assert r.race.value.Rejected?;
      SubstitutionKeepsTheBody(r.reason, r.race.value.error, t);
    }
  }

  lemma BoundSettles(s: State, k: Key, t: Token, p: Promise)
    requires Bound(s, t, p) && s.runs[t].key == k
    ensures OnTheWire(Settled(s, t), k, t)
  {
    StaysBound(s, t, p, DeliveryEnds(t));
    var s1 := Do(s, DeliveryEnds(t));
    StaysBound(s1, t, p, Decides(t));
    var s2 := Do(s1, Decides(t));
    assert s2.runs[t].settling == Following(p);
    var c := SettlementOf(k, t, s2.runs[p].body);
    assert c in Do(s2, FollowedEnds(t)).wire;
  }

  /** From what may complete to what is on its way. */
  lemma SendsIt(s: State, k: Key, t: Token, v: Produced) returns (s': State)
    requires Inv(s) && k !in s.store && MayComplete(s, k, t)
    ensures From({k}, s, s') && k !in s'.store && OnTheWire(s', k, t)
  {
    Here({k}, s);
    if s.runs[t].issued != [] {
      OwnCommand(s, t);
      s' := s;
    } else if s.runs[t].body.Returned? {
      ReturnedSettles(s, k, t);
      SettlingIsQuiet(s, s, k, t);
      s' := Settled(s, t);
    } else {
      var p := Followed(s.runs[t]).value;
      s' := ItReturns(s, k, t, p, v);
      BoundSettles(s', k, t, p);
      SettlingIsQuiet(s, s', k, t);
      s' := Settled(s', t);
    }
  }

  lemma ThenItIsAnswered(s: State, s': State, k: Key, t: Token)
    requires From({k}, s, s') && k !in s'.store && OnTheWire(s', k, t)
    ensures !NextDeliveryRuns(s, k)
  {
    var c :| c in s'.wire && c.Finish? && c.key == k && c.token == t;
    var next := FreshText(s'.runs.Keys);
    var s1 := OneMore({k}, s, s', SettleLands(c));
    var s2 := OneMore({k}, s, s1, Start(next, k));
    assert IsComplete(s2.store, k) && Asks(s2, k, next);
    assert !Do(s2, AcquireLands(next)).runs[next].phase.Owner?;
  }

  /** In the state a replay leaves, its key free: over every run in which nobody else takes the key, the
      next delivery of it is given it and runs the body, if and only if no possession of the key from
      before can still land a `complete`. */
  lemma NextDeliveryRunsIff(s: State, k: Key)
    requires Inv(s) && k !in s.store
    ensures NextDeliveryRuns(s, k) <==> forall t | t in s.runs :: !MayComplete(s, k, t)
  {
    if t :| t in s.runs && MayComplete(s, k, t) {
      var s' := SendsIt(s, k, t, Produced(None));
      ThenItIsAnswered(s, s', k, t);
    } else {
      forall s', t | From({k}, s, s') && Asks(s', k, t) ensures Do(s', AcquireLands(t)).runs[t].phase.Owner? {
        var actions :| QuietRun({k}, s, actions) && Exec(s, actions) == s';
        FreeToTheEnd(s, actions, k);
      }
    }
  }

  /** And such a state is within reach, for every key and every result: the lease ran out with the
      `complete` under way, it lands on the freed key, and the next delivery is answered with that result
      and runs nothing. */
  lemma LateCompleteAnswersForTheReplay(k: Key, stale: Token, next: Token, v: Produced)
    requires stale != next
    ensures exists s ::
              && Reachable(s) && k !in s.store && Finish(k, stale, KeptOf(v)) in s.wire && MayComplete(s, k, stale)
              && AnsweredAfter(s, Finish(k, stale, KeptOf(v)), next)
  {
    var s := LeaseRunsOutBeforeTheLanding(k, stale, v);
    assert AnsweredAfter(s, Finish(k, stale, KeptOf(v)), next);
  }

  /** Once the command lands, a new delivery of its key is answered with what it kept. */
  predicate AnsweredAfter(s: State, c: Command, next: Token)
    requires c.Finish?
  {
    var s' := Do(Do(Do(s, SettleLands(c)), Start(next, c.key)), AcquireLands(next));
    next in s'.runs && s'.runs[next].phase == Replaying(c.kept)
  }
}
