/** Runs of the lease protocol that lead somewhere: the steps a witness is built from. */
module LeaseRuns {
  import opened Errors
  import opened KeyStore
  import opened Lease

  /** The step takes none of these keys: no acquire of one lands. */
  predicate Quiet(avoid: set<Key>, s: State, a: Action) {
    a.AcquireLands? && a.token in s.runs ==> s.runs[a.token].key !in avoid
  }

  predicate QuietRun(avoid: set<Key>, s: State, actions: seq<Action>)
    decreases actions
  {
    actions == [] || (Quiet(avoid, s, actions[0]) && QuietRun(avoid, Do(s, actions[0]), actions[1..]))
  }

  /** One state leads to another by a run that takes none of these keys. */
  ghost predicate From(avoid: set<Key>, s: State, s': State) {
    exists actions :: QuietRun(avoid, s, actions) && Exec(s, actions) == s'
  }

  ghost predicate Reachable(s: State) {
    From({}, INIT, s)
  }

  lemma {:induction false} ExecAppends(avoid: set<Key>, s: State, actions: seq<Action>, a: Action)
    requires QuietRun(avoid, s, actions) && Quiet(avoid, Exec(s, actions), a)
    ensures Exec(s, actions + [a]) == Do(Exec(s, actions), a) && QuietRun(avoid, s, actions + [a])
    decreases actions
  {
    if actions == [] {
      assert (actions + [a])[1..] == [];
      assert Exec(Do(s, a), []) == Do(s, a) && QuietRun(avoid, Do(s, a), []);
    } else {
      assert (actions + [a])[1..] == actions[1..] + [a];
      ExecAppends(avoid, Do(s, actions[0]), actions[1..], a);
    }
  }

  lemma Here(avoid: set<Key>, s: State)
    ensures From(avoid, s, s)
  {
    assert QuietRun(avoid, s, []) && Exec(s, []) == s;
  }

  lemma OneMore(avoid: set<Key>, s0: State, s: State, a: Action) returns (s': State)
    requires From(avoid, s0, s) && Quiet(avoid, s, a)
    ensures s' == Do(s, a) && From(avoid, s0, s')
  {
    var actions :| QuietRun(avoid, s0, actions) && Exec(s0, actions) == s;
    ExecAppends(avoid, s0, actions, a);
    s' := Do(s, a);
  }

  lemma {:induction false} EveryRunIsQuietEnough(s: State, actions: seq<Action>)
    ensures QuietRun({}, s, actions)
    decreases actions
  {
    if actions != [] { EveryRunIsQuietEnough(Do(s, actions[0]), actions[1..]); }
  }

  /** Whatever a run reaches is reachable, and keeps the invariant. */
  lemma RunsReach(actions: seq<Action>)
    ensures Reachable(Exec(INIT, actions)) && Inv(Exec(INIT, actions))
  {
    EveryRunIsQuietEnough(INIT, actions);
    EveryRunKeepsInv(INIT, actions);
  }

  function Begun(k: Key): Run {
    Run(k, Owner, Alive, None, None, None, Undecided, [], false)
  }

  /** A new delivery takes a free key and its body starts. */
  lemma BodyBegins(avoid: set<Key>, s0: State, s: State, t: Token, k: Key) returns (s': State)
    requires From(avoid, s0, s) && t !in s.runs && k !in s.store && k !in avoid
    ensures From(avoid, s0, s')
    ensures s' == State(s.runs[t := Begun(k)], s.store[k := Held(t)], s.wire)
  {
    s' := OneMore(avoid, s0, s, Start(t, k));
    s' := OneMore(avoid, s0, s', AcquireLands(t));
    s' := OneMore(avoid, s0, s', BodyStarts(t));
  }

  /** There is always another token, and another key. */
  lemma FreshText(texts: set<string>) returns (text: string)
    ensures text !in texts
  {
    var left, n: nat := texts, 0;
    while left != {}
      invariant left <= texts && forall t | t in texts - left :: |t| < n
      decreases left
    {
      var t :| t in left;
      if |t| >= n { n := |t| + 1; }
      left := left - {t};
    }
    text := seq(n, i => 'x');
    assert |text| == n;
  }
}
