/** Bringing a stored payload up to the version a process runs, one step at a time. */
module Migration {
  import opened Errors
  import opened Definition

  datatype Failure = Ahead | NoStepFrom(version: real) | StepThrew(version: real)

  /** The steps that were called, by the version each starts from, and what came of them. */
  datatype Course = Course(called: seq<real>, result: Result<Value, Failure>)

  /** A step is keyed by the whole version it starts from, and `None` is a step that threw. */
  function StepOf(d: Definition, from: real): Option<Schema> {
    if IsWhole(from) && from.Floor in d.migrations then Some(d.migrations[from.Floor]) else None
  }

  function StepsLeft(from: real, to: real): nat {
    if from < to then (to - from).Floor + 1 else 0
  }

  function Migrate(d: Definition, from: real, to: real, data: Value): Course
    decreases StepsLeft(from, to)
  {
    if from >= to then Course([], Ok(data))
    else
      match StepOf(d, from)
      case None => Course([], Refused(NoStepFrom(from)))
      case Some(step) =>
        match step(data)
        case None => Course([from], Refused(StepThrew(from)))
        case Some(next) =>
          var rest := Migrate(d, from + 1.0, to, next);
          Course([from] + rest.called, rest.result)
  }

  lemma OneStepFewer(from: real, to: real)
    requires from < to
    ensures StepsLeft(from + 1.0, to) < StepsLeft(from, to)
  {
  }

  /** A migration as it stands part of the way: what it called so far, and what is still to come. */
  ghost predicate UnderWay(whole: Course, d: Definition, from: real, to: real, data: Value, called: seq<real>) {
    whole == Course(called + Migrate(d, from, to, data).called, Migrate(d, from, to, data).result)
  }

  lemma StepTaken(whole: Course, d: Definition, from: real, to: real, data: Value, called: seq<real>)
    requires UnderWay(whole, d, from, to, data, called) && from < to
    ensures StepOf(d, from).None? ==> whole == Course(called, Refused(NoStepFrom(from)))
    ensures StepOf(d, from).Some? && StepOf(d, from).value(data).None? ==>
              whole == Course(called + [from], Refused(StepThrew(from)))
    ensures StepOf(d, from).Some? && StepOf(d, from).value(data).Some? ==>
              UnderWay(whole, d, from + 1.0, to, StepOf(d, from).value(data).value, called + [from])
  {
    assert called + [] == called;
    if StepOf(d, from).Some? && StepOf(d, from).value(data).Some? {
      var rest := Migrate(d, from + 1.0, to, StepOf(d, from).value(data).value);
      assert called + ([from] + rest.called) == called + [from] + rest.called;
    }
  }

  lemma NoStepTaken(d: Definition, from: real, to: real, data: Value)
    ensures UnderWay(Migrate(d, from, to, data), d, from, to, data, [])
  {
    assert [] + Migrate(d, from, to, data).called == Migrate(d, from, to, data).called;
  }

  lemma EveryStepTaken(whole: Course, d: Definition, from: real, to: real, data: Value, called: seq<real>)
    requires UnderWay(whole, d, from, to, data, called) && from >= to
    ensures whole == Course(called, Ok(data))
  {
    assert called + [] == called;
  }

  method MigrateEnvelope(d: Definition, envelope: Envelope) returns (course: Course)
    ensures envelope.v > d.version as real ==> course == Course([], Refused(Ahead))
    ensures envelope.v <= d.version as real ==> course == Migrate(d, envelope.v, d.version as real, envelope.data)
  {
    var running := d.version as real;
    if envelope.v > running {
      return Course([], Refused(Ahead));
    }
    var data, from, called := envelope.data, envelope.v, [];
    ghost var whole := Migrate(d, from, running, data);
    NoStepTaken(d, from, running, data);
    while from < running
      invariant UnderWay(whole, d, from, running, data, called)
      decreases StepsLeft(from, running)
    {
      StepTaken(whole, d, from, running, data, called);
      OneStepFewer(from, running);
      var step := StepOf(d, from);
      if step.None? {
        return Course(called, Refused(NoStepFrom(from)));
      }
      var next := step.value(data);
      if next.None? {
        return Course(called + [from], Refused(StepThrew(from)));
      }
      data, called := next.value, called + [from];
      from := from + 1.0;
    }
    EveryStepTaken(whole, d, from, running, data, called);
    course := Course(called, Ok(data));
  }

  /** Migrating to a version on the way and on from there is migrating all the way: the same steps
      are called in the same order, with the same end. */
  lemma {:induction false} MigrationComposes(d: Definition, from: real, steps: nat, to: real, data: Value)
    requires from + steps as real <= to
    ensures var half := Migrate(d, from, from + steps as real, data);
            Migrate(d, from, to, data) ==
            (match half.result
             case Refused(_) => half
             case Ok(mid) =>
               var rest := Migrate(d, from + steps as real, to, mid);
               Course(half.called + rest.called, rest.result))
    decreases steps
  {
    if steps == 0 {
      assert [] + Migrate(d, from, to, data).called == Migrate(d, from, to, data).called;
    } else if StepOf(d, from).Some? && StepOf(d, from).value(data).Some? {
      var next := StepOf(d, from).value(data).value;
      assert from + 1.0 + (steps - 1) as real == from + steps as real;
      MigrationComposes(d, from + 1.0, steps - 1, to, next);
      var half := Migrate(d, from + 1.0, from + steps as real, next);
      if half.result.Ok? {
        var rest := Migrate(d, from + steps as real, to, half.result.value);
        assert [from] + (half.called + rest.called) == [from] + half.called + rest.called;
      }
    }
  }

  /** Steps are called once each, from the stored version up by one; a migration that succeeds
      called one for every version below the running one, and one that fails stopped at the first
      step that is missing or threw, having called every step before it. */
  lemma {:induction false} StepsRunOnceInOrder(d: Definition, from: real, to: real, data: Value)
    ensures var c := Migrate(d, from, to, data);
            && (forall i | 0 <= i < |c.called| ::
                  c.called[i] == from + i as real && c.called[i] < to && StepOf(d, c.called[i]).Some?)
            && match c.result
               case Ok(_) => from + |c.called| as real >= to && (from < to ==> from + |c.called| as real < to + 1.0)
               case Refused(NoStepFrom(v)) => v == from + |c.called| as real && v < to && StepOf(d, v).None?
               case Refused(StepThrew(v)) => |c.called| > 0 && v == c.called[|c.called| - 1]
               case Refused(Ahead) => false
    decreases StepsLeft(from, to)
  {
    if from < to && StepOf(d, from).Some? && StepOf(d, from).value(data).Some? {
      var next := StepOf(d, from).value(data).value;
      StepsRunOnceInOrder(d, from + 1.0, to, next);
      var rest := Migrate(d, from + 1.0, to, next);
      var c := Migrate(d, from, to, data);
      assert forall i | 1 <= i < |c.called| :: c.called[i] == rest.called[i - 1];
    }
  }

  /** One version up, told by the definition's own steps: the step keyed by the version it starts from is called
      on the payload, and its value, its throw or its absence is the result. */
  lemma OneVersionUp(d: Definition, from: int, data: Value)
    ensures var c := Migrate(d, from as real, (from + 1) as real, data);
            && (from !in d.migrations <==> c == Course([], Refused(NoStepFrom(from as real))))
            && (from in d.migrations ==> c.called == [from as real])
            && (from in d.migrations && d.migrations[from](data).None? ==> c.result == Refused(StepThrew(from as real)))
            && (forall next | from in d.migrations && d.migrations[from](data) == Some(next) :: c.result == Ok(next))
  {
    assert (from as real).Floor == from;
    assert from as real + 1.0 == (from + 1) as real;
  }

  /** A version that is no whole number has no step, and a payload that is up to date needs none. */
  lemma NoStepToTake(d: Definition, from: real, to: real, data: Value)
    ensures from >= to ==> Migrate(d, from, to, data) == Course([], Ok(data))
    ensures from < to && from.Floor as real != from ==>
              Migrate(d, from, to, data) == Course([], Refused(NoStepFrom(from)))
  {
  }

  /** Payloads from one version to the next, each made from the last by the step of its version. */
  predicate IsChain(d: Definition, from: int, chain: seq<Value>)
    decreases chain
  {
    |chain| > 1 ==>
      from in d.migrations && d.migrations[from](chain[0]) == Some(chain[1]) && IsChain(d, from + 1, chain[1..])
  }

  /** A migration over whole versions begins with the step of the first. */
  lemma BeginsWithItsStep(d: Definition, from: int, steps: nat, data: Value, end: Value)
    requires steps > 0
    ensures Migrate(d, from as real, (from + steps) as real, data).result == Ok(end) <==>
            && from in d.migrations && d.migrations[from](data).Some?
            && Migrate(d, (from + 1) as real, (from + steps) as real, d.migrations[from](data).value).result == Ok(end)
  {
    assert (from as real).Floor == from && from as real + 1.0 == (from + 1) as real;
  }

  lemma {:induction false} ChainOf(d: Definition, from: int, steps: nat, data: Value, end: Value)
    returns (chain: seq<Value>)
    requires Migrate(d, from as real, (from + steps) as real, data).result == Ok(end)
    ensures |chain| == steps + 1 && chain[0] == data && chain[steps] == end && IsChain(d, from, chain)
    decreases steps
  {
    chain := [data];
    if steps > 0 {
      BeginsWithItsStep(d, from, steps, data, end);
      var rest := ChainOf(d, from + 1, steps - 1, d.migrations[from](data).value, end);
      chain := [data] + rest;
      assert chain[1..] == rest;
    }
  }

  lemma {:induction false} ChainMigrates(d: Definition, from: int, chain: seq<Value>)
    requires chain != [] && IsChain(d, from, chain)
    ensures Migrate(d, from as real, (from + |chain| - 1) as real, chain[0]).result == Ok(chain[|chain| - 1])
    decreases chain
  {
    if |chain| > 1 {
      ChainMigrates(d, from + 1, chain[1..]);
      BeginsWithItsStep(d, from, |chain| - 1, chain[0], chain[|chain| - 1]);
    }
  }

  /** Over any number of whole versions: a migration succeeds with a value if and only if the definition's own
      steps lead from the payload to it. */
  lemma MigratedIffChained(d: Definition, from: int, steps: nat, data: Value, end: Value)
    ensures Migrate(d, from as real, (from + steps) as real, data).result == Ok(end) <==>
            exists chain :: |chain| == steps + 1 && chain[0] == data && chain[steps] == end && IsChain(d, from, chain)
  {
    if Migrate(d, from as real, (from + steps) as real, data).result == Ok(end) {
      var chain := ChainOf(d, from, steps, data, end);
    }
    if chain :| |chain| == steps + 1 && chain[0] == data && chain[steps] == end && IsChain(d, from, chain) {
      ChainMigrates(d, from, chain);
    }
  }
}
