/** Replays of one dead record side by side: each reads it, enqueues its job and drops it, and between any
    two of these the others go on. */
module ReplayRaces {
  import opened JobId

  /** Where one replay is: past the read, past the enqueue, or ended, by a failure or by the removal. */
  datatype Stage = HasRead | HasEnqueued | Ended

  /** `jobs` are the replays whose job was enqueued, in order. */
  datatype State = State(kept: bool, replays: map<nat, Stage>, jobs: seq<nat>)

  datatype Action = Reads(replay: nat) | Enqueues(replay: nat) | Removes(replay: nat) | Fails(replay: nat)

  const INIT := State(true, map[], [])

  predicate IsAt(s: State, r: nat, stage: Stage) {
    r in s.replays && s.replays[r] == stage
  }

  function Do(s: State, a: Action): State {
    match a
    case Reads(r) => if s.kept && r !in s.replays then s.(replays := s.replays[r := HasRead]) else s
    case Enqueues(r) =>
      if IsAt(s, r, HasRead) then s.(replays := s.replays[r := HasEnqueued], jobs := s.jobs + [r]) else s
    case Removes(r) =>
      if IsAt(s, r, HasEnqueued) then s.(kept := false, replays := s.replays[r := Ended]) else s
    case Fails(r) => if r in s.replays then s.(replays := s.replays[r := Ended]) else s
  }

  function Exec(s: State, actions: seq<Action>): State
    decreases actions
  {
    if actions == [] then s else Exec(Do(s, actions[0]), actions[1..])
  }

  /** The replays that are about to enqueue. */
  function Readers(s: State): set<nat> {
    set r | r in s.replays && s.replays[r] == HasRead
  }

  lemma GoneStepsOn(s: State, a: Action)
    requires !s.kept
    ensures var s' := Do(s, a); !s'.kept && |s'.jobs| + |Readers(s')| <= |s.jobs| + |Readers(s)|
  {
    var s' := Do(s, a);
    if IsAt(s, a.replay, HasRead) && (a.Enqueues? || a.Fails?) {
      assert Readers(s') == Readers(s) - {a.replay};
    } else {
      assert Readers(s') == Readers(s);
    }
  }

  lemma {:induction false} GoneYieldsNoMore(s: State, actions: seq<Action>)
    requires !s.kept
    ensures |Exec(s, actions).jobs| <= |s.jobs| + |Readers(s)|
    decreases actions
  {
    if actions != [] {
      GoneStepsOn(s, actions[0]);
      GoneYieldsNoMore(Do(s, actions[0]), actions[1..]);
    }
  }

  /** A replay that has read enqueues, and while the record is kept there is another to read it. */
  lemma {:induction false} YieldsMore(s: State, more: nat) returns (actions: seq<Action>)
    requires s.kept || more <= |Readers(s)|
    ensures |Exec(s, actions).jobs| == |s.jobs| + more
    decreases more
  {
    if more == 0 {
      actions := [];
    } else if s.kept {
      var r := AnotherNumber(s.replays.Keys);
      var s1 := Do(s, Reads(r));
      var s2 := Do(s1, Enqueues(r));
      var rest := YieldsMore(s2, more - 1);
      actions := [Reads(r), Enqueues(r)] + rest;
      assert actions[1..] == [Enqueues(r)] + rest && actions[1..][1..] == rest;
      assert Exec(s, actions) == Exec(s1, actions[1..]);
    } else {
      var r :| r in Readers(s);
      var s1 := Do(s, Enqueues(r));
      assert Readers(s1) == Readers(s) - {r};
      var rest := YieldsMore(s1, more - 1);
      actions := [Enqueues(r)] + rest;
      assert actions[1..] == rest;
    }
  }

  /** How many jobs one record can still yield: at most `n` in every run, if and only if the record is gone
      and those already enqueued with those about to be are at most `n`. While it is kept there is no
      bound. */
  lemma JobsAtMostIff(s: State, n: nat)
    ensures (forall actions :: |Exec(s, actions).jobs| <= n) <==> !s.kept && |s.jobs| + |Readers(s)| <= n
  {
    if !s.kept && |s.jobs| + |Readers(s)| <= n {
      forall actions ensures |Exec(s, actions).jobs| <= n { GoneYieldsNoMore(s, actions); }
    } else {
      var more := if s.kept then n + 1 else |Readers(s)|;
      var actions := YieldsMore(s, more);
      assert |Exec(s, actions).jobs| > n;
    }
  }

  /** A replay that failed enqueues nothing more and drops nothing. */
  lemma FailedReplayIsOver(s: State, r: nat)
    ensures Do(Do(s, Fails(r)), Enqueues(r)) == Do(s, Fails(r)) && Do(Do(s, Fails(r)), Removes(r)) == Do(s, Fails(r))
  {
  }

  predicate JobsInv(s: State) {
    && (forall i | 0 <= i < |s.jobs| :: s.jobs[i] in s.replays && s.replays[s.jobs[i]] != HasRead)
    && (forall i, j | 0 <= i < j < |s.jobs| :: s.jobs[i] != s.jobs[j])
  }

  lemma {:induction false} RunKeepsJobsInv(s: State, actions: seq<Action>)
    requires JobsInv(s)
    ensures JobsInv(Exec(s, actions))
    decreases actions
  {
    if actions != [] { RunKeepsJobsInv(Do(s, actions[0]), actions[1..]); }
  }

  /** In every run a replay enqueues once at most, so a record yields no more jobs than replays read it. */
  lemma OneJobPerReplay(actions: seq<Action>)
    ensures var s := Exec(INIT, actions);
            && (forall i, j | 0 <= i < j < |s.jobs| :: s.jobs[i] != s.jobs[j])
            && (forall i | 0 <= i < |s.jobs| :: s.jobs[i] in s.replays)
  {
    RunKeepsJobsInv(INIT, actions);
  }
}
